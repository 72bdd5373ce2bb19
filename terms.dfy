/**
 * The terms page's own logic: sentence capitalisation of definitions and the table filter on
 * term name and definition. Its discipline filter is the one in DisciplineFilter.
 */
module Terms {
  import opened JsStrings
  import opened Seqs

  // ---------------------------------------------------------------- capitalizeSentences

  predicate IsSentenceEnd(c: char) {
    c == '.' || c == '!' || c == '?'
  }

  /** The first index at or after `i` that does not hold white space (`\s*` read greedily). */
  function SkipWhitespace(t: string, i: nat): (j: nat)
    requires i <= |t|
    ensures i <= j <= |t|
    ensures forall q :: i <= q < j ==> IsWhitespace(t[q])
    ensures j == |t| || !IsWhitespace(t[j])
    decreases |t| - i
  {
    if i < |t| && IsWhitespace(t[i]) then SkipWhitespace(t, i + 1) else i
  }

  /**
   * `t.slice(i).replace(/([.!?]\s*)([a-z])/g, …)` with the letter uppercased: the global
   * regular expression scanned from position `i`, each match resuming after its letter.
   */
  function ReplaceFrom(t: string, i: nat): (r: string)
    requires i <= |t|
    ensures |r| == |t| - i
    decreases |t| - i
  {
    if i == |t| then []
    else if IsSentenceEnd(t[i]) then
      var j := SkipWhitespace(t, i + 1);
      if j < |t| && IsLowerAscii(t[j]) then t[i..j] + [UpperChar(t[j])] + ReplaceFrom(t, j + 1)
      else [t[i]] + ReplaceFrom(t, i + 1)
    else [t[i]] + ReplaceFrom(t, i + 1)
  }

  /** Position k is preceded by a sentence end at or after `from` and then only white space. */
  predicate FollowsFrom(t: string, from: nat, k: nat)
    requires k <= |t|
  {
    exists p :: from <= p < k && IsSentenceEnd(t[p]) && forall q :: p < q < k ==> IsWhitespace(t[q])
  }

  /** Position k of `t` follows a '.', '!' or '?' and optional white space. */
  predicate FollowsSentenceEnd(t: string, k: nat)
    requires k <= |t|
  {
    FollowsFrom(t, 0, k)
  }

  /** What the replacement leaves at position k of `t`: a lowercase letter after a sentence end is uppercased. */
  function ReplacedAt(t: string, from: nat, k: nat): char
    requires k < |t|
  {
    if FollowsFrom(t, from, k) && IsLowerAscii(t[k]) then UpperChar(t[k]) else t[k]
  }

  /** Skipping a position that holds no sentence end does not change which later positions follow one. */
  lemma FollowsFromSkip(t: string, i: nat, k: nat)
    requires i < k <= |t| && !IsSentenceEnd(t[i])
    ensures FollowsFrom(t, i, k) <==> FollowsFrom(t, i + 1, k)
  {
    if FollowsFrom(t, i, k) {
      var p :| i <= p < k && IsSentenceEnd(t[p]) && forall q :: p < q < k ==> IsWhitespace(t[q]);
      assert p != i;
    }
  }

  /** Nothing before a non-white-space character at `b` reaches a position after it. */
  lemma FollowsFromBlocked(t: string, i: nat, b: nat, k: nat)
    requires i <= b < k <= |t| && !IsWhitespace(t[b])
    ensures FollowsFrom(t, i, k) <==> FollowsFrom(t, b, k)
  {
    if FollowsFrom(t, i, k) {
      var p :| i <= p < k && IsSentenceEnd(t[p]) && forall q :: p < q < k ==> IsWhitespace(t[q]);
      assert p >= b;
    }
  }

  /** No position follows a sentence end from itself on. */
  lemma FollowsFromSelf(t: string, i: nat)
    requires i <= |t|
    ensures !FollowsFrom(t, i, i)
  {
  }

  /** The scan from `i` leaves at every later position what ReplacedAt says. */
  predicate ScanCorrect(t: string, i: nat)
    requires i <= |t|
  {
    forall m :: 0 <= m < |t| - i ==> ReplaceFrom(t, i)[m] == ReplacedAt(t, i, i + m)
  }

  /** The scan does not start a match at `i`. */
  predicate NoMatchAt(t: string, i: nat)
    requires i < |t|
  {
    !IsSentenceEnd(t[i]) || !(SkipWhitespace(t, i + 1) < |t| && IsLowerAscii(t[SkipWhitespace(t, i + 1)]))
  }

  /** Without a match at `i`, starting the scan at `i` or at `i + 1` makes no difference after `i`. */
  lemma ReplacedAtSkip(t: string, i: nat, k: nat)
    requires i < k < |t| && NoMatchAt(t, i)
    ensures ReplacedAt(t, i, k) == ReplacedAt(t, i + 1, k)
  {
    if !IsSentenceEnd(t[i]) {
      FollowsFromSkip(t, i, k);
    } else {
      var j := SkipWhitespace(t, i + 1);
      if k < j {
        assert IsWhitespace(t[k]);
      } else if j < k {
        FollowsFromBlocked(t, i, j, k);
        FollowsFromBlocked(t, i + 1, j, k);
      }
    }
  }

  /** ReplaceFrom past a position that starts no match. */
  lemma ReplaceFromSkip(t: string, i: nat)
    requires i < |t| && NoMatchAt(t, i)
    requires ScanCorrect(t, i + 1)
    ensures ScanCorrect(t, i)
  {
    var r := ReplaceFrom(t, i);
    var rest := ReplaceFrom(t, i + 1);
    assert r == [t[i]] + rest;
    FollowsFromSelf(t, i);
    forall m | 0 < m < |t| - i ensures r[m] == ReplacedAt(t, i, i + m) {
      assert r[m] == rest[m - 1];
      assert rest[m - 1] == ReplacedAt(t, i + 1, i + 1 + (m - 1));
      ReplacedAtSkip(t, i, i + m);
    }
  }

  /** Inside a match, before its letter: the sentence end and the white space stay as they are. */
  lemma ReplacedAtInsideMatch(t: string, i: nat, k: nat)
    requires i < |t| && i <= k < SkipWhitespace(t, i + 1)
    ensures ReplacedAt(t, i, k) == t[k]
  {
    FollowsFromSelf(t, i);
    if k > i {
      assert IsWhitespace(t[k]);
    }
  }

  /** After a match: its letter blocks every earlier sentence end. */
  lemma ReplacedAtAfterMatch(t: string, i: nat, j: nat, k: nat)
    requires i < j < k < |t| && IsLowerAscii(t[j])
    ensures ReplacedAt(t, i, k) == ReplacedAt(t, j + 1, k)
  {
    FollowsFromBlocked(t, i, j, k);
    FollowsFromSkip(t, j, k);
  }

  /** ReplaceFrom over a match: the sentence end at `i`, white space, then a lowercase letter at `j`. */
  lemma ReplaceFromMatch(t: string, i: nat, j: nat)
    requires i < |t| && IsSentenceEnd(t[i])
    requires j == SkipWhitespace(t, i + 1) && j < |t| && IsLowerAscii(t[j])
    requires ScanCorrect(t, j + 1)
    ensures ScanCorrect(t, i)
  {
    var r := ReplaceFrom(t, i);
    var rest := ReplaceFrom(t, j + 1);
    assert r == t[i..j] + [UpperChar(t[j])] + rest;
    assert FollowsFrom(t, i, j) by {
      assert forall q :: i < q < j ==> IsWhitespace(t[q]);
    }
    forall m | 0 <= m < |t| - i ensures r[m] == ReplacedAt(t, i, i + m) {
      var k := i + m;
      if k < j {
        assert r[m] == t[k];
        ReplacedAtInsideMatch(t, i, k);
      } else if k > j {
        assert r[m] == rest[k - (j + 1)];
        assert rest[k - (j + 1)] == ReplacedAt(t, j + 1, j + 1 + (k - (j + 1)));
        ReplacedAtAfterMatch(t, i, j, k);
      }
    }
  }

  /** The regular-expression scan from `i` uppercases exactly the lowercase letters after a sentence end from `i` on. */
  lemma {:induction false} ReplaceFromSpec(t: string, i: nat)
    requires i <= |t|
    ensures ScanCorrect(t, i)
    decreases |t| - i
  {
    if i < |t| {
      var j := SkipWhitespace(t, i + 1);
      if IsSentenceEnd(t[i]) && j < |t| && IsLowerAscii(t[j]) {
        ReplaceFromSpec(t, j + 1);
        ReplaceFromMatch(t, i, j);
      } else {
        ReplaceFromSpec(t, i + 1);
        ReplaceFromSkip(t, i);
      }
    }
  }

  /**
   * capitalizeSentences: empty or blank text is returned as it is; otherwise the trimmed text
   * with its first character uppercased and then every lowercase letter that follows a
   * sentence end uppercased.
   */
  function CapitalizeSentences(text: string): (r: string)
    ensures IsBlank(text) ==> r == text
    ensures !IsBlank(text) ==> |r| == |Trim(text)| > 0
  {
    if IsBlank(text) then text
    else
      var t := Trim(text);
      ReplaceFrom([UpperChar(t[0])] + t[1..], 0)
  }

  /** Changing the first character, but not whether it ends a sentence, changes no FollowsFrom(_, 0, k). */
  lemma FollowsFromFirstChanged(t: string, u: string, k: nat)
    requires |u| == |t| && 0 < k <= |t|
    requires IsSentenceEnd(u[0]) == IsSentenceEnd(t[0])
    requires forall q :: 0 < q < |t| ==> u[q] == t[q]
    ensures FollowsFrom(u, 0, k) <==> FollowsFrom(t, 0, k)
  {
    if FollowsFrom(u, 0, k) {
      var p :| 0 <= p < k && IsSentenceEnd(u[p]) && forall q :: p < q < k ==> IsWhitespace(u[q]);
      assert IsSentenceEnd(t[p]) && forall q :: p < q < k ==> IsWhitespace(t[q]);
    }
    if FollowsFrom(t, 0, k) {
      var p :| 0 <= p < k && IsSentenceEnd(t[p]) && forall q :: p < q < k ==> IsWhitespace(t[q]);
      assert IsSentenceEnd(u[p]) && forall q :: p < q < k ==> IsWhitespace(u[q]);
    }
  }

  /** The capitalised text, position by position, in terms of the trimmed input. */
  lemma CapitalizeSentencesSpec(text: string)
    requires !IsBlank(text)
    ensures var t := Trim(text); var r := CapitalizeSentences(text);
      r[0] == UpperChar(t[0])
      && forall k :: 1 <= k < |t| ==>
        r[k] == (if FollowsSentenceEnd(t, k) && IsLowerAscii(t[k]) then UpperChar(t[k]) else t[k])
  {
    var t := Trim(text);
    var u := [UpperChar(t[0])] + t[1..];
    var r := ReplaceFrom(u, 0);
    assert r == CapitalizeSentences(text);
    ReplaceFromSpec(u, 0);
    FollowsFromSelf(u, 0);
    assert r[0] == ReplacedAt(u, 0, 0 + 0);
    forall k | 1 <= k < |t|
      ensures r[k] == (if FollowsSentenceEnd(t, k) && IsLowerAscii(t[k]) then UpperChar(t[k]) else t[k])
    {
      assert r[k] == ReplacedAt(u, 0, 0 + k);
      FollowsFromFirstChanged(t, u, k);
    }
  }

  lemma LowerUpper(c: char)
    ensures LowerChar(UpperChar(c)) == LowerChar(c)
  {
  }

  /** The capitalised text is the trimmed text up to letter case. */
  lemma CapitalizeSentencesKeepsText(text: string)
    requires !IsBlank(text)
    ensures Lower(CapitalizeSentences(text)) == Lower(Trim(text))
  {
    var t := Trim(text);
    var r := CapitalizeSentences(text);
    CapitalizeSentencesSpec(text);
    forall k | 0 <= k < |t| ensures Lower(r)[k] == Lower(t)[k] {
      LowerUpper(t[k]);
    }
  }

  /** Every lowercase letter after a sentence end, and a lowercase first letter, come out uppercase. */
  lemma CapitalizeSentencesUppercases(text: string, k: nat)
    requires !IsBlank(text) && k < |Trim(text)|
    requires k == 0 || FollowsSentenceEnd(Trim(text), k)
    requires IsLowerAscii(Trim(text)[k])
    ensures IsUpperAscii(CapitalizeSentences(text)[k])
  {
    CapitalizeSentencesSpec(text);
  }

  // ---------------------------------------------------------------- the term table filter

  datatype Term = Term(id: int, termName: string, definition: string)

  /** A term passes when its lowercased name contains the name query and its lowercased definition the definition query. */
  predicate TermMatches(t: Term, qName: string, qDef: string) {
    (qName == "" || Contains(Lower(t.termName), qName)) && (qDef == "" || Contains(Lower(t.definition), qDef))
  }

  function TermTest(qName: string, qDef: string): Term -> bool {
    (t: Term) => TermMatches(t, qName, qDef)
  }

  /** The normalised query: trimmed, then lowercased. */
  function Query(q: string): string {
    Lower(Trim(q))
  }

  /** filteredTerms: the whole list for two blank queries, otherwise the terms passing both queries. */
  function FilteredTerms(terms: seq<Term>, nameQuery: string, defQuery: string): (r: seq<Term>)
    ensures |r| <= |terms|
    ensures IsSubsequence(r, terms)
  {
    var qName := Query(nameQuery);
    var qDef := Query(defQuery);
    if qName == "" && qDef == "" then
      IsSubsequenceRefl(terms);
      terms
    else Filter(terms, TermTest(qName, qDef))
  }

  lemma {:induction false} IsSubsequenceRefl(xs: seq<Term>)
    ensures IsSubsequence(xs, xs)
  {
    if xs != [] {
      IsSubsequenceRefl(xs[1..]);
    }
  }

  /** Two queries blank after trimming show the whole list. */
  lemma BlankQueriesShowAll(terms: seq<Term>, nameQuery: string, defQuery: string)
    requires IsBlank(nameQuery) && IsBlank(defQuery)
    ensures FilteredTerms(terms, nameQuery, defQuery) == terms
  {
  }

  /**
   * A term is shown exactly when it is in the list and its lowercased name and definition
   * contain the normalised queries (an empty query is contained in everything).
   */
  lemma FilteredTermsMembers(terms: seq<Term>, nameQuery: string, defQuery: string)
    ensures forall t :: t in FilteredTerms(terms, nameQuery, defQuery) <==>
      t in terms && Contains(Lower(t.termName), Query(nameQuery)) && Contains(Lower(t.definition), Query(defQuery))
  {
    var qName := Query(nameQuery);
    var qDef := Query(defQuery);
    forall t: Term ensures TermMatches(t, qName, qDef) <==>
      Contains(Lower(t.termName), qName) && Contains(Lower(t.definition), qDef)
    {
      ContainsEmpty(Lower(t.termName));
      ContainsEmpty(Lower(t.definition));
    }
    if qName == "" && qDef == "" {
    } else {
      var r := Filter(terms, TermTest(qName, qDef));
      forall t ensures t in r <==> t in terms && TermMatches(t, qName, qDef) {
        if t in r {
          var i :| 0 <= i < |r| && r[i] == t;
          assert TermTest(qName, qDef)(r[i]);
        }
        if t in terms && TermMatches(t, qName, qDef) {
          var i :| 0 <= i < |terms| && terms[i] == t;
          assert TermTest(qName, qDef)(terms[i]);
        }
      }
    }
  }

  /** Narrowing the name query to a string containing the old one never shows more terms. */
  lemma NarrowerNameQueryShowsFewer(terms: seq<Term>, nameQuery: string, longer: string, defQuery: string)
    requires Contains(Query(longer), Query(nameQuery))
    ensures |FilteredTerms(terms, longer, defQuery)| <= |FilteredTerms(terms, nameQuery, defQuery)|
  {
    var q1 := Query(nameQuery);
    var q2 := Query(longer);
    var qDef := Query(defQuery);
    if !(q2 == "" && qDef == "") && !(q1 == "" && qDef == "") {
      forall i | 0 <= i < |terms| && TermTest(q2, qDef)(terms[i]) ensures TermTest(q1, qDef)(terms[i]) {
        if q2 != "" && q1 != "" {
          ContainsTransitive(Lower(terms[i].termName), q2, q1);
        }
      }
      FilterWeaker(terms, TermTest(q2, qDef), TermTest(q1, qDef));
    }
  }

  /** Narrowing the definition query to a string containing the old one never shows more terms. */
  lemma NarrowerDefinitionQueryShowsFewer(terms: seq<Term>, nameQuery: string, defQuery: string, longer: string)
    requires Contains(Query(longer), Query(defQuery))
    ensures |FilteredTerms(terms, nameQuery, longer)| <= |FilteredTerms(terms, nameQuery, defQuery)|
  {
    var qName := Query(nameQuery);
    var q1 := Query(defQuery);
    var q2 := Query(longer);
    if !(qName == "" && q2 == "") && !(qName == "" && q1 == "") {
      forall i | 0 <= i < |terms| && TermTest(qName, q2)(terms[i]) ensures TermTest(qName, q1)(terms[i]) {
        if q2 != "" && q1 != "" {
          ContainsTransitive(Lower(terms[i].definition), q2, q1);
        }
      }
      FilterWeaker(terms, TermTest(qName, q2), TermTest(qName, q1));
    }
  }
}
