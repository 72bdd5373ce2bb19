/**
 * The MathJax wrapper: before mounting it shows the text with its TeX delimiters `\[`, `\]`,
 * `\(` and `\)` stripped by a regular expression; once mounted it hands the text to MathJax unchanged.
 *
 * The regular expression in the source reads /\\\[|\]|\\\(|\)/g: its second and fourth
 * alternatives lack the backslash, so it removes every ']' and ')' of the text and leaves the
 * backslash of `\]` and `\)` behind. StripAsWritten models that expression and Rendered the
 * wrapper as written; StripDelimiters removes the four delimiters the expression evidently
 * means, and RenderedCorrected is the wrapper using it.
 */
module ClientMathJax {
  import opened Seqs

  /** Dropping the first one or two characters keeps the subsequence relation with the whole. */
  lemma SubsequenceOfTail(r: string, s: string, n: nat)
    requires 1 <= n <= 2 && n <= |s| && IsSubsequence(r, s[n..])
    ensures IsSubsequence(r, s)
  {
    if n == 2 {
      assert s[1..][1..] == s[2..];
      assert IsSubsequence(r, s[1..]);
    }
  }

  /** Keeping the first character and a subsequence of the rest gives a subsequence. */
  lemma SubsequenceCons(r: string, s: string)
    requires s != [] && IsSubsequence(r, s[1..])
    ensures IsSubsequence([s[0]] + r, s)
  {
    assert ([s[0]] + r)[1..] == r;
  }

  /** `s.replace(/\\\[|\]|\\\(|\)/g, '')`, its alternatives tried in order at each position. */
  function StripAsWritten(s: string): (r: string)
    ensures ']' !in r && ')' !in r
    ensures IsSubsequence(r, s)
    ensures ('[' !in s && ']' !in s && '(' !in s && ')' !in s) ==> r == s
  {
    if s == [] then []
    else if |s| >= 2 && s[0] == '\\' && s[1] == '[' then
      var r := StripAsWritten(s[2..]);
      SubsequenceOfTail(r, s, 2);
      r
    else if s[0] == ']' then
      var r := StripAsWritten(s[1..]);
      SubsequenceOfTail(r, s, 1);
      r
    else if |s| >= 2 && s[0] == '\\' && s[1] == '(' then
      var r := StripAsWritten(s[2..]);
      SubsequenceOfTail(r, s, 2);
      r
    else if s[0] == ')' then
      var r := StripAsWritten(s[1..]);
      SubsequenceOfTail(r, s, 1);
      r
    else
      var r := StripAsWritten(s[1..]);
      SubsequenceCons(r, s);
      assert s == [s[0]] + s[1..];
      [s[0]] + r
  }

  /** A display formula `\[x\]` keeps a stray backslash. */
  lemma AsWrittenKeepsBackslash()
    ensures StripAsWritten("\\[x\\]") == "x\\"
  {
    var s := "\\[x\\]";
    assert s[2..] == "x\\]" && s[2..][1..] == "\\]" && s[2..][1..][1..] == "]";
    assert StripAsWritten("]") == "";
    assert StripAsWritten("\\]") == "\\";
    assert StripAsWritten("x\\]") == "x\\";
  }

  /** Parentheses inside a formula lose their closing half: `f(x)` becomes `f(x`. */
  lemma AsWrittenDropsParen()
    ensures StripAsWritten("f(x)") == "f(x"
  {
    var s := "f(x)";
    assert s[1..] == "(x)" && s[1..][1..] == "x)" && s[1..][1..][1..] == ")";
    assert StripAsWritten(")") == "";
    assert StripAsWritten("x)") == "x";
    assert StripAsWritten("(x)") == "(x";
  }

  predicate IsBracket(c: char) {
    c == '[' || c == ']' || c == '(' || c == ')'
  }

  /** A TeX delimiter starts at position i. */
  predicate DelimiterAt(s: string, i: nat) {
    i + 1 < |s| && s[i] == '\\' && IsBracket(s[i + 1])
  }

  /** `s.replace(/\\\[|\\\]|\\\(|\\\)/g, '')`: the four delimiters removed, scanning left to right. */
  function StripDelimiters(s: string): (r: string)
    ensures IsSubsequence(r, s)
    ensures (forall i :: 0 <= i < |s| ==> !DelimiterAt(s, i)) ==> r == s
  {
    if s == [] then []
    else if DelimiterAt(s, 0) then
      var r := StripDelimiters(s[2..]);
      SubsequenceOfTail(r, s, 2);
      r
    else
      var r := StripDelimiters(s[1..]);
      SubsequenceCons(r, s);
      assert s == [s[0]] + s[1..];
      assert forall i :: 0 <= i < |s[1..]| ==> (DelimiterAt(s[1..], i) <==> DelimiterAt(s, i + 1));
      [s[0]] + r
  }

  /** Text without a backslash followed by a closing delimiter comes out without it. */
  lemma {:induction false} StripBodyAndClose(body: string, close: char)
    requires '\\' !in body && (close == ']' || close == ')')
    ensures StripDelimiters(body + ['\\', close]) == body
  {
    if body == [] {
      assert StripDelimiters(['\\', close]) == StripDelimiters([]);
    } else {
      assert (body + ['\\', close])[1..] == body[1..] + ['\\', close];
      StripBodyAndClose(body[1..], close);
    }
  }

  /** A formula between delimiters comes out as the bare formula, brackets of its own kept. */
  lemma StripWrappedFormula(body: string)
    requires '\\' !in body
    ensures StripDelimiters("\\(" + body + "\\)") == body
    ensures StripDelimiters("\\[" + body + "\\]") == body
  {
    StripBodyAndClose(body, ')');
    StripBodyAndClose(body, ']');
    assert ("\\(" + body + "\\)")[2..] == body + ['\\', ')'];
    assert ("\\[" + body + "\\]")[2..] == body + ['\\', ']'];
  }

  /** The corrected expression on the inputs that expose the one in the source. */
  lemma CorrectedOnCounterexamples()
    ensures StripDelimiters("\\[x\\]") == "x"
    ensures StripDelimiters("f(x)") == "f(x)"
  {
    StripWrappedFormula("x");
    assert forall i :: 0 <= i < |"f(x)"| ==> !DelimiterAt("f(x)", i);
  }

  /**
   * What the wrapper renders, with the expression as the source writes it: before mounting the
   * text without any ']' or ')', after mounting the text itself.
   */
  function Rendered(children: string, mounted: bool): (r: string)
    ensures mounted ==> r == children
    ensures !mounted ==> ']' !in r && ')' !in r && IsSubsequence(r, children) && |r| <= |children|
    ensures !mounted && '[' !in children && ']' !in children && '(' !in children && ')' !in children ==> r == children
  {
    if mounted then children
    else
      var r := StripAsWritten(children);
      SubsequenceLength(r, children);
      r
  }

  /**
   * The wrapper with the corrected expression: before mounting only the four delimiters go, so
   * text without a delimiter, brackets included, is shown as it is.
   */
  function RenderedCorrected(children: string, mounted: bool): (r: string)
    ensures mounted ==> r == children
    ensures !mounted ==> IsSubsequence(r, children) && |r| <= |children|
    ensures !mounted && (forall i :: 0 <= i < |children| ==> !DelimiterAt(children, i)) ==> r == children
  {
    if mounted then children
    else
      var r := StripDelimiters(children);
      SubsequenceLength(r, children);
      r
  }
}
