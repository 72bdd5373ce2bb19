/**
 * The advanced-search page: formula search by query, problem matching by description, and the
 * colour of a relevance score. Scores are reals (NaN is not modelled).
 */
module TablesSearch {
  import opened Wrappers
  import opened JsStrings
  import opened UrlParams
  import opened Tables

  datatype ProblemMatch = ProblemMatch(formula: Formula, relevanceScore: real, matchReasons: seq<string>)

  const GREEN := "#28a745"
  const AMBER := "#ffc107"
  const RED := "#dc3545"

  /** getScoreColor: green from 10 up, amber from 5 up, red below. */
  function ScoreColor(score: real): (c: string)
    ensures c == GREEN <==> score >= 10.0
    ensures c == AMBER <==> 5.0 <= score < 10.0
    ensures c == RED <==> score < 5.0
  {
    if score >= 10.0 then GREEN else if score >= 5.0 then AMBER else RED
  }

  /** The colours ordered from worst to best. */
  function ColorRank(c: string): nat {
    if c == GREEN then 2 else if c == AMBER then 1 else 0
  }

  /** A higher score never gets a worse colour. */
  lemma ScoreColorMonotone(a: real, b: real)
    requires a <= b
    ensures ColorRank(ScoreColor(a)) <= ColorRank(ScoreColor(b))
  {
  }

  /** The formula-search URL: 'q' only for a non-empty query (not trimmed); the '?' is always there. */
  function FormulaSearchUrl(env: Option<string>, searchQuery: string): (r: string)
    ensures searchQuery == "" ==> r == ApiUrl(env) + "/api/formulas/search?"
    ensures searchQuery != "" ==> r == ApiUrl(env) + "/api/formulas/search?" + Serialize([("q", searchQuery)])
  {
    var params: Params := if searchQuery != "" then [("q", searchQuery)] else [];
    ApiUrl(env) + "/api/formulas/search?" + Serialize(params)
  }

  /** A request's fate: the status and, for an OK answer, the parsed data; or an error thrown by the request or the body (None: not an Error). */
  datatype Fetched<T> = Fetched(ok: bool, status: int, data: T) | FetchFailed(message: Option<string>)

  /** The error text of a failed search. */
  function SearchError<T>(outcome: Fetched<T>): (r: string)
    requires !(outcome.Fetched? && outcome.ok)
    ensures outcome.Fetched? ==> r == "HTTP error! Status: " + IntToString(outcome.status)
    ensures outcome == FetchFailed(None) ==> r == "Unknown error"
    ensures outcome.FetchFailed? && outcome.message.Some? ==> r == outcome.message.value
  {
    match outcome
    case Fetched(_, status, _) => "HTTP error! Status: " + IntToString(status)
    case FetchFailed(message) => if message.Some? then message.value else "Unknown error"
  }

  class SearchPage {
    var searchQuery: string
    var problemText: string
    var searchResults: seq<Formula>
    var problemMatches: seq<ProblemMatch>
    var error: Option<string>
    var loading: bool

    /** At most one of the two result lists is shown. */
    ghost predicate OneResultList()
      reads this
    {
      searchResults == [] || problemMatches == []
    }

    constructor()
      ensures OneResultList() && searchResults == [] && problemMatches == [] && error == None && !loading
      ensures searchQuery == "" && problemText == ""
    {
      searchQuery := "";
      problemText := "";
      searchResults := [];
      problemMatches := [];
      error := None;
      loading := false;
    }

    /** handleFormulaSearch: success replaces the formula list and empties the problem matches. */
    method FormulaSearch(env: Option<string>, outcome: Fetched<seq<Formula>>) returns (url: string)
      requires OneResultList()
      modifies this
      ensures OneResultList() && !loading
      ensures url == FormulaSearchUrl(env, searchQuery)
      ensures outcome.Fetched? && outcome.ok ==> searchResults == outcome.data && problemMatches == [] && error == None
      ensures !(outcome.Fetched? && outcome.ok) ==>
        error == Some(SearchError(outcome)) && searchResults == old(searchResults) && problemMatches == old(problemMatches)
      ensures searchQuery == old(searchQuery) && problemText == old(problemText)
    {
      loading := true;
      error := None;
      url := FormulaSearchUrl(env, searchQuery);
      if outcome.Fetched? && outcome.ok {
        searchResults := outcome.data;
        problemMatches := [];
      } else {
        error := Some(SearchError(outcome));
      }
      loading := false;
    }

    /**
     * handleProblemMatch: a blank description is refused without a request; otherwise the
     * untrimmed text is posted (the URL and `problem_text` are returned), and success replaces the
     * matches and empties the formula list.
     */
    method MatchProblem(env: Option<string>, outcome: Fetched<seq<ProblemMatch>>) returns (sent: Option<(string, string)>)
      requires OneResultList()
      modifies this
      ensures OneResultList()
      ensures IsBlank(old(problemText)) ==>
        sent.None? && error == Some("Please enter a problem description") && loading == old(loading)
        && searchResults == old(searchResults) && problemMatches == old(problemMatches)
      ensures !IsBlank(old(problemText)) ==> sent == Some((ApiUrl(env) + "/api/problems/match", problemText)) && !loading
      ensures !IsBlank(old(problemText)) && outcome.Fetched? && outcome.ok ==>
        problemMatches == outcome.data && searchResults == [] && error == None
      ensures !IsBlank(old(problemText)) && !(outcome.Fetched? && outcome.ok) ==>
        error == Some(SearchError(outcome)) && searchResults == old(searchResults) && problemMatches == old(problemMatches)
      ensures searchQuery == old(searchQuery) && problemText == old(problemText)
    {
      if Trim(problemText) == "" {
        error := Some("Please enter a problem description");
        return None;
      }
      loading := true;
      error := None;
      sent := Some((ApiUrl(env) + "/api/problems/match", problemText));
      if outcome.Fetched? && outcome.ok {
        problemMatches := outcome.data;
        searchResults := [];
      } else {
        error := Some(SearchError(outcome));
      }
      loading := false;
    }
  }
}
