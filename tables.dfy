/** The tables page: the difficulty colour, the date fallback, and which table loadData fetches. */
module Tables {
  import opened Wrappers
  import opened JsStrings

  datatype Formula = Formula(id: int, formulaName: string, latex: string)

  datatype Application = Application(id: int, title: string, problemText: string, subjectArea: Option<string>)

  const GREY := "#6c757d"

  /** getDifficultyColor: the three levels in any letter case, grey for anything else or nothing. */
  function DifficultyColor(level: Option<string>): (c: string)
    ensures level.Some? && Lower(level.value) == "beginner" ==> c == "#28a745"
    ensures level.Some? && Lower(level.value) == "intermediate" ==> c == "#ffc107"
    ensures level.Some? && Lower(level.value) == "advanced" ==> c == "#dc3545"
    ensures level.None? || !(Lower(level.value) in ["beginner", "intermediate", "advanced"]) ==> c == GREY
  {
    if level.None? then GREY
    else
      var l := Lower(level.value);
      if l == "beginner" then "#28a745"
      else if l == "intermediate" then "#ffc107"
      else if l == "advanced" then "#dc3545"
      else GREY
  }

  /** Letter case does not matter. */
  lemma DifficultyColorIgnoresCase(level: string)
    ensures DifficultyColor(Some(Lower(level))) == DifficultyColor(Some(level))
  {
    LowerIdempotent(level);
  }

  /** formatDate: 'Unknown' for null or empty; otherwise the locale's rendering, which is passed in. */
  function FormatDate(dateString: Option<string>, localeDate: string -> string): (r: string)
    ensures !Truthy(dateString) ==> r == "Unknown"
    ensures Truthy(dateString) ==> r == localeDate(dateString.value)
  {
    if !Truthy(dateString) then "Unknown" else localeDate(dateString.value)
  }

  /** `process.env.NEXT_PUBLIC_API_URL || 'http://localhost:5000'`. */
  function ApiUrl(env: Option<string>): string {
    OrElse(env, "http://localhost:5000")
  }

  /** The endpoint loadData fetches for a table, if any. */
  function TableEndpoint(env: Option<string>, activeTable: string): (r: Option<string>)
    ensures activeTable == "formulas" ==> r == Some(ApiUrl(env) + "/api/formulas")
    ensures activeTable == "applications" ==> r == Some(ApiUrl(env) + "/api/applications")
    ensures r.None? <==> activeTable != "formulas" && activeTable != "applications"
  {
    if activeTable == "formulas" then Some(ApiUrl(env) + "/api/formulas")
    else if activeTable == "applications" then Some(ApiUrl(env) + "/api/applications")
    else None
  }

  /** A table's answer: OK with the parsed rows, a non-OK status, or a thrown error's message (None: not an Error). */
  datatype Load<T> = Loaded(rows: T) | HttpError(status: int) | LoadFailed(message: Option<string>)

  function LoadError<T>(outcome: Load<T>): (r: string)
    requires !outcome.Loaded?
    ensures outcome.HttpError? ==> r == "HTTP error! Status: " + IntToString(outcome.status)
    ensures outcome == LoadFailed(None) ==> r == "Unknown error"
    ensures outcome.LoadFailed? && outcome.message.Some? ==> r == outcome.message.value
  {
    match outcome
    case HttpError(status) => "HTTP error! Status: " + IntToString(status)
    case LoadFailed(message) => if message.Some? then message.value else "Unknown error"
  }

  class TablesPage {
    var activeTable: string
    var formulas: seq<Formula>
    var applications: seq<Application>
    var selectedFormula: Option<Formula>
    var error: Option<string>
    var loading: bool

    constructor()
      ensures activeTable == "formulas" && formulas == [] && applications == [] && error == None && loading
      ensures selectedFormula == None
    {
      selectedFormula := None;
      activeTable := "formulas";
      formulas := [];
      applications := [];
      error := None;
      loading := true;
    }

    /**
     * loadData: only the active table's endpoint is fetched and only its list can change; the
     * error is cleared first and loading is off at the end.
     */
    method LoadData(env: Option<string>, formulaRows: Load<seq<Formula>>, applicationRows: Load<seq<Application>>)
      returns (fetched: Option<string>)
      modifies this
      ensures fetched == TableEndpoint(env, activeTable) && !loading
      ensures activeTable == old(activeTable)
      ensures activeTable == "formulas" ==>
        applications == old(applications)
        && (formulaRows.Loaded? ==> formulas == formulaRows.rows && error == None)
        && (!formulaRows.Loaded? ==> formulas == old(formulas) && error == Some(LoadError(formulaRows)))
      ensures activeTable == "applications" ==>
        formulas == old(formulas)
        && (applicationRows.Loaded? ==> applications == applicationRows.rows && error == None)
        && (!applicationRows.Loaded? ==> applications == old(applications) && error == Some(LoadError(applicationRows)))
      ensures fetched.None? ==> formulas == old(formulas) && applications == old(applications) && error == None
      ensures selectedFormula == old(selectedFormula)
    {
      loading := true;
      error := None;
      fetched := TableEndpoint(env, activeTable);
      if activeTable == "formulas" {
        if formulaRows.Loaded? {
          formulas := formulaRows.rows;
        } else {
          error := Some(LoadError(formulaRows));
        }
      } else if activeTable == "applications" {
        if applicationRows.Loaded? {
          applications := applicationRows.rows;
        } else {
          error := Some(LoadError(applicationRows));
        }
      }
      loading := false;
    }

    /**
     * loadFormulaDetails: one formula by id; success selects it, failure only sets the error (the
     * error is not cleared first and loading is not touched).
     */
    method LoadFormulaDetails(env: Option<string>, formulaId: int, outcome: Load<Formula>) returns (fetched: string)
      modifies this
      ensures fetched == ApiUrl(env) + "/api/formulas/" + IntToString(formulaId)
      ensures outcome.Loaded? ==> selectedFormula == Some(outcome.rows) && error == old(error)
      ensures !outcome.Loaded? ==> selectedFormula == old(selectedFormula) && error == Some(LoadError(outcome))
      ensures activeTable == old(activeTable) && formulas == old(formulas) && applications == old(applications)
      ensures loading == old(loading)
    {
      fetched := ApiUrl(env) + "/api/formulas/" + IntToString(formulaId);
      if outcome.Loaded? {
        selectedFormula := Some(outcome.rows);
      } else {
        error := Some(LoadError(outcome));
      }
    }
  }
}
