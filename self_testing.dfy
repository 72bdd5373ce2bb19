/**
 * The self-testing page: grading of the four question types, the quiz navigation state
 * (current index, answer state reset on every index change), the segment-label list offered
 * as a filter, and the request `startQuiz` builds.
 *
 * `parseFloat` is a parameter (`parse`) and numbers are reals: floating-point rounding is not
 * modelled.
 */
module SelfTesting {
  import opened Wrappers
  import opened JsStrings
  import opened Seqs
  import opened UrlParams

  datatype QuestionType = MultipleChoice | TrueFalse | WordProblem | Multipart | OtherType(name: string)

  datatype Answer = Answer(answerId: int, answerText: string, answerNumeric: Option<real>, isCorrect: bool)

  datatype Part = Part(questionId: int, partLabel: string, answers: seq<Answer>)

  /** `parts` is None when the field is missing or null. */
  datatype Question = Question(questionId: int, questionType: QuestionType, answers: seq<Answer>, parts: Option<seq<Part>>)

  datatype Feedback = Feedback(correct: bool, message: string)

  // ---------------------------------------------------------------- grading

  /** `answers.find(a => a.answer_id === selected)`; a null selection matches nothing. */
  function FindById(answers: seq<Answer>, selected: Option<int>): (r: Option<Answer>)
    ensures r.Some? ==> r.value in answers && selected == Some(r.value.answerId)
    ensures r.None? <==> forall i :: 0 <= i < |answers| ==> selected != Some(answers[i].answerId)
  {
    if answers == [] then None
    else if selected == Some(answers[0].answerId) then Some(answers[0])
    else
      var r := FindById(answers[1..], selected);
      assert forall i :: 1 <= i < |answers| ==> answers[i] == answers[1..][i - 1];
      r
  }

  /** The answer found is the first one with the selected id. */
  lemma {:induction false} FindByIdIsFirst(answers: seq<Answer>, selected: Option<int>, k: nat)
    requires k < |answers| && selected == Some(answers[k].answerId)
    requires forall j :: 0 <= j < k ==> selected != Some(answers[j].answerId)
    ensures FindById(answers, selected) == Some(answers[k])
  {
    if k > 0 {
      FindByIdIsFirst(answers[1..], selected, k - 1);
    }
  }

  /** `answers.find(a => a.is_correct)`. */
  function FindCorrect(answers: seq<Answer>): (r: Option<Answer>)
    ensures r.Some? ==> r.value in answers && r.value.isCorrect
    ensures r.None? <==> forall i :: 0 <= i < |answers| ==> !answers[i].isCorrect
  {
    if answers == [] then None
    else if answers[0].isCorrect then Some(answers[0])
    else
      var r := FindCorrect(answers[1..]);
      assert forall i :: 1 <= i < |answers| ==> answers[i] == answers[1..][i - 1];
      r
  }

  /** The answer found is the first one marked correct: with several, the earliest decides. */
  lemma {:induction false} FindCorrectIsFirst(answers: seq<Answer>, k: nat)
    requires k < |answers| && answers[k].isCorrect
    requires forall j :: 0 <= j < k ==> !answers[j].isCorrect
    ensures FindCorrect(answers) == Some(answers[k])
  {
    if k > 0 {
      FindCorrectIsFirst(answers[1..], k - 1);
    }
  }

  function Abs(x: real): real {
    if x < 0.0 then -x else x
  }

  /**
   * One typed answer against the correct answer: within 0.01 of `answer_numeric` when the
   * correct answer has one, otherwise equal to `answer_text` ignoring case. The typed answer
   * arrives trimmed; the stored text is compared as it is.
   */
  predicate Matches(typed: string, correct: Answer, parse: string -> Option<real>) {
    match correct.answerNumeric
    case Some(v) => parse(typed).Some? && Abs(parse(typed).value - v) < 0.01
    case None => Lower(typed) == Lower(correct.answerText)
  }

  /** What a multipart question's part was answered with, trimmed; unanswered parts count as ''. */
  function PartValue(p: Part, typed: map<int, string>): string {
    Trim(if p.questionId in typed then typed[p.questionId] else "")
  }

  /** A part that has a correct answer and whose typed value does not match it. */
  predicate PartFails(p: Part, typed: map<int, string>, parse: string -> Option<real>) {
    FindCorrect(p.answers).Some? && !Matches(PartValue(p, typed), FindCorrect(p.answers).value, parse)
  }

  /** The failing parts, in part order. */
  function FailingParts(parts: seq<Part>, typed: map<int, string>, parse: string -> Option<real>): seq<Part> {
    if parts == [] then []
    else
      var last := parts[|parts| - 1];
      FailingParts(parts[..|parts| - 1], typed, parse) + (if PartFails(last, typed, parse) then [last] else [])
  }

  /** A part is listed as failing exactly when it is one of the parts and fails. */
  lemma {:induction false} FailingPartsMembers(parts: seq<Part>, typed: map<int, string>, parse: string -> Option<real>)
    ensures forall p :: p in FailingParts(parts, typed, parse) <==> p in parts && PartFails(p, typed, parse)
    ensures IsSubsequence(FailingParts(parts, typed, parse), parts)
  {
    if parts != [] {
      var init := parts[..|parts| - 1];
      var last := parts[|parts| - 1];
      FailingPartsMembers(init, typed, parse);
      assert parts == init + [last];
      SubsequenceAppend(FailingParts(init, typed, parse), init, last, PartFails(last, typed, parse));
    }
  }

  /** The feedback line for a failing part (failing parts always have a correct answer). */
  function PartMessage(p: Part): string {
    var text := match FindCorrect(p.answers) case Some(c) => c.answerText case None => "";
    "Part (" + p.partLabel + "): correct answer is " + text + "."
  }

  function PartMessages(failing: seq<Part>): seq<string> {
    seq(|failing|, i requires 0 <= i < |failing| => PartMessage(failing[i]))
  }

  /** The multipart branch of checkAnswer, stated over the list of failing parts. */
  function MultipartFeedback(parts: seq<Part>, typed: map<int, string>, parse: string -> Option<real>): Feedback {
    var failing := FailingParts(parts, typed, parse);
    if failing == [] then Feedback(true, "Correct!")
    else Feedback(false, "Incorrect. " + Join(PartMessages(failing), " "))
  }

  /** The multiple-choice and true/false branch of checkAnswer. */
  function ChoiceFeedback(answers: seq<Answer>, selected: Option<int>): Feedback {
    match FindById(answers, selected)
    case None => Feedback(false, "Please select an answer.")
    case Some(a) =>
      var shown := match FindCorrect(answers) case Some(c) => c.answerText case None => "\U{2014}";
      Feedback(a.isCorrect, if a.isCorrect then "Correct!" else "Incorrect. The correct answer is: " + shown + ".")
  }

  /** The word-problem branch of checkAnswer. */
  function WordFeedback(answers: seq<Answer>, wordAnswer: string, parse: string -> Option<real>): Feedback {
    var trimmed := Trim(wordAnswer);
    if trimmed == "" then Feedback(false, "Please enter an answer.")
    else
      match FindCorrect(answers)
      case None => Feedback(false, "No correct answer defined.")
      case Some(c) =>
        var ok := Matches(trimmed, c, parse);
        Feedback(ok, if ok then "Correct!" else "Incorrect. The correct answer is: " + c.answerText + ".")
  }

  /** checkAnswer for the current question (None when the index is past the list). */
  function CheckAnswer(current: Option<Question>, selected: Option<int>, wordAnswer: string,
                       typed: map<int, string>, parse: string -> Option<real>): Feedback
  {
    if current.None? then Feedback(false, "No question.")
    else
      var q := current.value;
      if q.questionType == MultipleChoice || q.questionType == TrueFalse then ChoiceFeedback(q.answers, selected)
      else if q.questionType == WordProblem then WordFeedback(q.answers, wordAnswer, parse)
      else if q.questionType == Multipart && q.parts.Some? then MultipartFeedback(q.parts.value, typed, parse)
      else Feedback(false, "Unknown question type.")
  }

  predicate IsChoice(q: Question) {
    q.questionType == MultipleChoice || q.questionType == TrueFalse
  }

  predicate UniqueAnswerIds(answers: seq<Answer>) {
    forall i, j :: 0 <= i < j < |answers| ==> answers[i].answerId != answers[j].answerId
  }

  /**
   * A choice question is graded correct exactly when the chosen answer is marked correct, and
   * an id that names no answer is refused with 'Please select an answer.'.
   */
  lemma ChoiceGrading(q: Question, selected: Option<int>, w: string, typed: map<int, string>, parse: string -> Option<real>)
    requires IsChoice(q) && UniqueAnswerIds(q.answers)
    ensures CheckAnswer(Some(q), selected, w, typed, parse).correct <==>
      exists i :: 0 <= i < |q.answers| && selected == Some(q.answers[i].answerId) && q.answers[i].isCorrect
    ensures (forall i :: 0 <= i < |q.answers| ==> selected != Some(q.answers[i].answerId)) ==>
      CheckAnswer(Some(q), selected, w, typed, parse) == Feedback(false, "Please select an answer.")
  {
    var f := FindById(q.answers, selected);
    if f.Some? {
      var k :| 0 <= k < |q.answers| && q.answers[k] == f.value;
      assert forall i :: 0 <= i < |q.answers| && selected == Some(q.answers[i].answerId) ==> i == k;
    }
  }

  /** A word problem answered with nothing but white space, or without a correct answer, is refused with its message. */
  lemma WordProblemRefusals(q: Question, selected: Option<int>, w: string, typed: map<int, string>, parse: string -> Option<real>)
    requires q.questionType == WordProblem
    ensures IsBlank(w) ==> CheckAnswer(Some(q), selected, w, typed, parse) == Feedback(false, "Please enter an answer.")
    ensures !IsBlank(w) && (forall i :: 0 <= i < |q.answers| ==> !q.answers[i].isCorrect) ==>
      CheckAnswer(Some(q), selected, w, typed, parse) == Feedback(false, "No correct answer defined.")
  {
  }

  /**
   * A word problem whose correct answer has no number is graded by text: correct exactly when
   * the trimmed typed answer and the stored text agree letter for letter up to ASCII case.
   */
  lemma WordProblemText(q: Question, selected: Option<int>, w: string, typed: map<int, string>, parse: string -> Option<real>)
    requires q.questionType == WordProblem && !IsBlank(w)
    requires FindCorrect(q.answers).Some? && FindCorrect(q.answers).value.answerNumeric.None?
    ensures var t := Trim(w); var c := FindCorrect(q.answers).value.answerText;
      CheckAnswer(Some(q), selected, w, typed, parse).correct <==>
        |t| == |c| && forall i :: 0 <= i < |t| ==> LowerChar(t[i]) == LowerChar(c[i])
  {
    var t := Trim(w);
    var c := FindCorrect(q.answers).value.answerText;
    if |t| == |c| && forall i :: 0 <= i < |t| ==> LowerChar(t[i]) == LowerChar(c[i]) {
      assert Lower(t) == Lower(c);
    }
    if Lower(t) == Lower(c) {
      assert forall i :: 0 <= i < |t| ==> Lower(t)[i] == LowerChar(t[i]);
    }
  }

  /** The stored text is not trimmed: ' 42' is not matched by a typed '42'. */
  lemma StoredTextNotTrimmed(parse: string -> Option<real>)
    ensures var c := Answer(1, " 42", None, true);
      var q := Question(7, WordProblem, [c], None);
      !CheckAnswer(Some(q), None, "42", map[], parse).correct
  {
    var c := Answer(1, " 42", None, true);
    assert Trim("42") == "42" by {
      assert TrimStart("42") == "42";
    }
    assert Lower("42") != Lower(" 42");
  }

  /** The multipart grade is a pass exactly when no part with a correct answer fails to match it. */
  lemma MultipartFeedbackCorrect(parts: seq<Part>, typed: map<int, string>, parse: string -> Option<real>)
    ensures MultipartFeedback(parts, typed, parse).correct <==>
      forall i :: 0 <= i < |parts| && FindCorrect(parts[i].answers).Some? ==>
        Matches(PartValue(parts[i], typed), FindCorrect(parts[i].answers).value, parse)
  {
    FailingPartsMembers(parts, typed, parse);
    var failing := FailingParts(parts, typed, parse);
    if failing != [] {
      assert failing[0] in failing;
      var k :| 0 <= k < |parts| && parts[k] == failing[0];
      assert PartFails(parts[k], typed, parse);
    } else {
      forall i | 0 <= i < |parts| ensures !PartFails(parts[i], typed, parse) {
        assert parts[i] !in failing;
      }
    }
  }

  /** A multipart question is correct exactly when every part that has a correct answer matches. */
  lemma MultipartAllParts(q: Question, selected: Option<int>, w: string, typed: map<int, string>, parse: string -> Option<real>)
    requires q.questionType == Multipart && q.parts.Some?
    ensures var parts := q.parts.value;
      CheckAnswer(Some(q), selected, w, typed, parse).correct <==>
        forall i :: 0 <= i < |parts| && FindCorrect(parts[i].answers).Some? ==>
          Matches(PartValue(parts[i], typed), FindCorrect(parts[i].answers).value, parse)
  {
    MultipartFeedbackCorrect(q.parts.value, typed, parse);
  }

  /** In particular a multipart question none of whose parts has a correct answer is correct. */
  lemma MultipartNothingToGrade(q: Question, selected: Option<int>, w: string, typed: map<int, string>, parse: string -> Option<real>)
    requires q.questionType == Multipart && q.parts.Some?
    requires forall i :: 0 <= i < |q.parts.value| ==> FindCorrect(q.parts.value[i].answers).None?
    ensures CheckAnswer(Some(q), selected, w, typed, parse) == Feedback(true, "Correct!")
  {
    MultipartFeedbackCorrect(q.parts.value, typed, parse);
  }

  /**
   * The multipart loop: every part with a correct answer is graded, each failure appends its
   * line; the result is the failing parts' lines, in part order, and nothing else.
   */
  method GradeMultipart(parts: seq<Part>, typed: map<int, string>, parse: string -> Option<real>)
    returns (allCorrect: bool, messages: seq<string>)
    ensures var failing := FailingParts(parts, typed, parse);
      (allCorrect <==> failing == []) && messages == PartMessages(failing)
      && IsSubsequence(failing, parts) && forall p :: p in failing <==> p in parts && PartFails(p, typed, parse)
    ensures MultipartFeedback(parts, typed, parse) ==
      Feedback(allCorrect, if allCorrect then "Correct!" else "Incorrect. " + Join(messages, " "))
  {
    allCorrect := true;
    messages := [];
    var i := 0;
    while i < |parts|
      invariant 0 <= i <= |parts|
      invariant var failing := FailingParts(parts[..i], typed, parse);
        (allCorrect <==> failing == []) && messages == PartMessages(failing)
    {
      var part := parts[i];
      var partVal := PartValue(part, typed);
      var correctAnswer := FindCorrect(part.answers);
      assert parts[..i + 1][..i] == parts[..i];
      if correctAnswer.Some? {
        var correct := Matches(partVal, correctAnswer.value, parse);
        if !correct {
          allCorrect := false;
          messages := messages + [PartMessage(part)];
        }
      }
      i := i + 1;
    }
    assert parts[..|parts|] == parts;
    FailingPartsMembers(parts, typed, parse);
  }

  // ---------------------------------------------------------------- segment labels

  /** Code-point lexicographic order on strings. */
  predicate StrLess(a: string, b: string) {
    if a == [] then b != []
    else if b == [] then false
    else if a[0] != b[0] then a[0] < b[0]
    else StrLess(a[1..], b[1..])
  }

  lemma {:induction false} StrLessIrreflexive(a: string)
    ensures !StrLess(a, a)
  {
    if a != [] {
      StrLessIrreflexive(a[1..]);
    }
  }

  lemma {:induction false} StrLessTransitive(a: string, b: string, c: string)
    requires StrLess(a, b) && StrLess(b, c)
    ensures StrLess(a, c)
  {
    if a != [] && b != [] && c != [] && a[0] == b[0] && b[0] == c[0] {
      StrLessTransitive(a[1..], b[1..], c[1..]);
    }
  }

  lemma {:induction false} StrLessTotal(a: string, b: string)
    requires a != b
    ensures StrLess(a, b) || StrLess(b, a)
  {
    if a != [] && b != [] && a[0] == b[0] {
      assert a == [a[0]] + a[1..] && b == [b[0]] + b[1..];
      StrLessTotal(a[1..], b[1..]);
    }
  }

  predicate StrictlySorted(xs: seq<string>) {
    forall i, j :: 0 <= i < j < |xs| ==> StrLess(xs[i], xs[j])
  }

  /** Inserting into a sorted duplicate-free list, keeping it so. */
  function Insert(xs: seq<string>, x: string): (r: seq<string>)
    requires StrictlySorted(xs)
    ensures StrictlySorted(r)
    ensures forall y :: y in r <==> y in xs || y == x
  {
    if xs == [] then [x]
    else if x == xs[0] then xs
    else if StrLess(x, xs[0]) then
      forall j | 0 < j < |xs| ensures StrLess(x, xs[j]) {
        StrLessTransitive(x, xs[0], xs[j]);
      }
      [x] + xs
    else
      StrLessTotal(x, xs[0]);
      var rest := Insert(xs[1..], x);
      assert forall y :: y in xs <==> y == xs[0] || y in xs[1..] by {
        assert xs == [xs[0]] + xs[1..];
      }
      forall k | 0 <= k < |rest| ensures StrLess(xs[0], rest[k]) {
        assert rest[k] in rest;
        if rest[k] != x {
          var m :| 0 <= m < |xs[1..]| && xs[1..][m] == rest[k];
          assert xs[m + 1] == rest[k];
        }
      }
      [xs[0]] + rest
  }

  lemma {:induction false} StrLessAsymmetric(a: string, b: string)
    ensures !(StrLess(a, b) && StrLess(b, a))
  {
    if a != [] && b != [] && a[0] == b[0] {
      StrLessAsymmetric(a[1..], b[1..]);
    }
  }

  /** The first element of a sorted list is its least. */
  lemma SortedFirstIsLeast(xs: seq<string>, y: string)
    requires StrictlySorted(xs) && y in xs
    ensures y == xs[0] || StrLess(xs[0], y)
  {
    var i :| 0 <= i < |xs| && xs[i] == y;
    if i > 0 {
      assert StrLess(xs[0], xs[i]);
    }
  }

  /** Two sorted duplicate-free lists of the same strings are the same list. */
  lemma {:induction false} SortedUnique(a: seq<string>, b: seq<string>)
    requires StrictlySorted(a) && StrictlySorted(b)
    requires forall y :: y in a <==> y in b
    ensures a == b
  {
    assert a != [] ==> a[0] in b;
    assert b != [] ==> b[0] in a;
    if a != [] && b != [] {
      SortedFirstIsLeast(a, b[0]);
      SortedFirstIsLeast(b, a[0]);
      StrLessAsymmetric(a[0], b[0]);
      assert a[0] == b[0];
      StrLessIrreflexive(a[0]);
      forall y ensures y in a[1..] <==> y in b[1..] {
        if y in a[1..] {
          var i :| 0 <= i < |a[1..]| && a[1..][i] == y;
          assert StrLess(a[0], a[i + 1]);
          assert y != b[0] && y in b;
          var j :| 0 <= j < |b| && b[j] == y;
          assert b[1..][j - 1] == y;
        }
        if y in b[1..] {
          var i :| 0 <= i < |b[1..]| && b[1..][i] == y;
          assert StrLess(b[0], b[i + 1]);
          assert y != a[0] && y in a;
          var j :| 0 <= j < |a| && a[j] == y;
          assert a[1..][j - 1] == y;
        }
      }
      SortedUnique(a[1..], b[1..]);
      assert a == [a[0]] + a[1..] && b == [b[0]] + b[1..];
    }
  }

  /** A formula's segment label, trimmed; a missing one counts as ''. */
  function LabelOf(segmentLabel: Option<string>): string {
    Trim(if segmentLabel.Some? then segmentLabel.value else "")
  }

  /** `name` is the non-empty label of some formula. */
  predicate IsLabelOf(name: string, formulas: seq<Option<string>>) {
    name != "" && exists i :: 0 <= i < |formulas| && LabelOf(formulas[i]) == name
  }

  lemma IsLabelOfExtend(name: string, formulas: seq<Option<string>>, i: nat)
    requires i < |formulas|
    ensures IsLabelOf(name, formulas[..i + 1]) <==> IsLabelOf(name, formulas[..i]) || (name == LabelOf(formulas[i]) && name != "")
  {
    if IsLabelOf(name, formulas[..i + 1]) {
      var k :| 0 <= k < i + 1 && LabelOf(formulas[..i + 1][k]) == name;
      if k < i {
        assert formulas[..i][k] == formulas[k];
      }
    }
    if IsLabelOf(name, formulas[..i]) {
      var k :| 0 <= k < i && LabelOf(formulas[..i][k]) == name;
      assert formulas[..i + 1][k] == formulas[k];
    }
    if name == LabelOf(formulas[i]) && name != "" {
      assert formulas[..i + 1][i] == formulas[i];
    }
  }

  /**
   * The segment-label list: each formula's label (missing as ''), trimmed, kept when
   * non-empty; the collected set is listed sorted. The result holds every such label once,
   * in order, and nothing else; by SortedUnique it is the one list with that property.
   */
  method SegmentLabels(formulas: seq<Option<string>>) returns (labels: seq<string>)
    ensures StrictlySorted(labels)
    ensures forall y :: y in labels <==> IsLabelOf(y, formulas)
  {
    labels := [];
    var i := 0;
    while i < |formulas|
      invariant 0 <= i <= |formulas|
      invariant StrictlySorted(labels)
      invariant forall y :: y in labels <==> IsLabelOf(y, formulas[..i])
    {
      var l := LabelOf(formulas[i]);
      if l != "" {
        labels := Insert(labels, l);
      }
      forall y ensures IsLabelOf(y, formulas[..i + 1]) <==> IsLabelOf(y, formulas[..i]) || (y == l && l != "") {
        IsLabelOfExtend(y, formulas, i);
      }
      i := i + 1;
    }
    assert formulas[..|formulas|] == formulas;
  }

  // ---------------------------------------------------------------- the question request

  predicate IsSegmentType(t: string) {
    t == "chapter" || t == "module" || t == "examination"
  }

  /**
   * The query of the questions request: the segment type when it is a known one, then the label
   * when non-blank, trimmed; nothing else.
   */
  function QuizQuery(segmentType: string, segmentLabel: string): (r: Params)
    ensures r == (if IsSegmentType(segmentType) then [("segment_type", segmentType)] else [])
      + (if IsBlank(segmentLabel) then [] else [("segment_label", Trim(segmentLabel))])
    ensures Get(r, "segment_type") == (if IsSegmentType(segmentType) then Some(segmentType) else None)
    ensures Get(r, "segment_label") == (if IsBlank(segmentLabel) then None else Some(Trim(segmentLabel)))
  {
    var withType := if IsSegmentType(segmentType) then SetParam([], "segment_type", segmentType) else [];
    var trimmed := Trim(segmentLabel);
    if trimmed != "" then
      GetSetOther(withType, "segment_label", trimmed, "segment_type");
      assert SetParam(withType, "segment_label", trimmed) == withType + [("segment_label", trimmed)];
      SetParam(withType, "segment_label", trimmed)
    else withType
  }

  /**
   * The path requested: `/api/courses/<id>/questions`, followed by '?' and the serialized query
   * only when the query has a pair.
   */
  function QuestionsPath(courseId: int, segmentType: string, segmentLabel: string): (r: string)
    ensures !IsSegmentType(segmentType) && IsBlank(segmentLabel) ==>
      r == "/api/courses/" + IntToString(courseId) + "/questions"
    ensures IsSegmentType(segmentType) || !IsBlank(segmentLabel) ==>
      r == "/api/courses/" + IntToString(courseId) + "/questions?" + Serialize(QuizQuery(segmentType, segmentLabel))
  {
    WithQuery("/api/courses/" + IntToString(courseId) + "/questions", QuizQuery(segmentType, segmentLabel))
  }

  /** A chapter with a padded label sends the type first, then the trimmed label, and nothing else. */
  lemma QuizQueryExample()
    ensures QuizQuery("chapter", " Ch 1 ") == [("segment_type", "chapter"), ("segment_label", "Ch 1")]
  {
    var l := " Ch 1 ";
    assert l[1..] == "Ch 1 " && TrimStart(l) == TrimStart(l[1..]);
    assert TrimStart("Ch 1 ") == "Ch 1 ";
    assert "Ch 1 "[..4] == "Ch 1";
    assert TrimEnd("Ch 1 ") == "Ch 1";
    assert !IsBlank(l);
  }

  // ---------------------------------------------------------------- page state

  /** The answer of the questions request, after `res.json()`. */
  datatype QuestionsOutcome =
    | Received(error: Option<string>, questions: Option<seq<Question>>, courseName: Option<string>, courseCode: Option<string>)
      /** The request or the body parse threw; `message` is the Error's message, None for a non-Error. */
    | Threw(message: Option<string>)

  /** What the questions answer leaves in the page: the error, the list, and the course's name and code. */
  datatype QuestionsState = QuestionsState(error: Option<string>, questions: seq<Question>, courseName: string, courseCode: Option<string>)

  /**
   * The answer applied to the previous course name and code: a reported error or a thrown
   * request empties the list and keeps the course; otherwise the list (or none) and the course's
   * name and code replace them.
   */
  function ApplyQuestions(outcome: QuestionsOutcome, courseName: string, courseCode: Option<string>): (r: QuestionsState)
    ensures r.error.Some? <==> (outcome.Received? && Truthy(outcome.error)) || outcome.Threw?
    ensures r.error.Some? ==> r.questions == [] && r.courseName == courseName && r.courseCode == courseCode
    ensures outcome.Received? && Truthy(outcome.error) ==> r.error == outcome.error
    ensures outcome.Threw? ==> r.error == Some(if outcome.message.Some? then outcome.message.value else "Failed to load questions")
    ensures r.error.None? ==>
      (outcome.Received?
       && r.questions == (if outcome.questions.Some? then outcome.questions.value else [])
       && r.courseName == OrElse(outcome.courseName, "")
       && (r.courseCode.Some? <==> Truthy(outcome.courseCode))
       && (r.courseCode.Some? ==> r.courseCode == outcome.courseCode))
  {
    match outcome
    case Received(err, qs, name, code) =>
      if Truthy(err) then QuestionsState(err, [], courseName, courseCode)
      else QuestionsState(None, if qs.Some? then qs.value else [], OrElse(name, ""), if Truthy(code) then code else None)
    case Threw(message) =>
      QuestionsState(Some(if message.Some? then message.value else "Failed to load questions"), [], courseName, courseCode)
  }

  /** The answer to the current question: the option chosen, the text typed, the parts typed, and the graded result. */
  datatype AnswerState = AnswerState(
    selectedAnswerId: Option<int>, wordAnswer: string, multipartAnswers: map<int, string>,
    submitted: bool, feedback: Option<Feedback>)

  /** No answer chosen or typed, not submitted, no feedback. */
  const CLEARED_ANSWER := AnswerState(None, "", map[], false, None)

  class QuizPage {
    var selectedCourseId: Option<int>
    var segmentType: string
    var segmentLabel: string
    var questions: seq<Question>
    var questionsLoading: bool
    var error: Option<string>
    var currentIndex: nat
    var answer: AnswerState
    var courseName: string
    var courseCode: Option<string>
    var hasAttemptedFetch: bool

    constructor ()
      ensures selectedCourseId == None && segmentType == "" && segmentLabel == ""
      ensures questions == [] && !questionsLoading && error == None && currentIndex == 0
      ensures answer == CLEARED_ANSWER && courseName == "" && courseCode == None && !hasAttemptedFetch
    {
      selectedCourseId := None;
      segmentType := "";
      segmentLabel := "";
      questions := [];
      questionsLoading := false;
      error := None;
      currentIndex := 0;
      answer := CLEARED_ANSWER;
      courseName := "";
      courseCode := None;
      hasAttemptedFetch := false;
    }

    function Current(): Option<Question>
      reads this
    {
      if currentIndex < |questions| then Some(questions[currentIndex]) else None
    }

    /** A further question exists. */
    predicate HasNext()
      reads this
    {
      currentIndex < |questions| - 1
    }

    /** setCurrentIndex together with the effect keyed on it: a new index clears the answer state. */
    method SetCurrentIndex(i: nat)
      modifies this`currentIndex, this`answer
      ensures currentIndex == i
      ensures i != old(currentIndex) ==> answer == CLEARED_ANSWER
      ensures i == old(currentIndex) ==> answer == old(answer)
    {
      if i != currentIndex {
        currentIndex := i;
        answer := CLEARED_ANSWER;
      }
    }

    /** 'Next question', offered while HasNext holds: the next question is current, with a fresh answer state. */
    method NextQuestion()
      requires HasNext()
      modifies this`currentIndex, this`answer
      ensures currentIndex == old(currentIndex) + 1 && Current() == Some(questions[currentIndex])
      ensures answer == CLEARED_ANSWER
    {
      SetCurrentIndex(currentIndex + 1);
    }

    /** resetQuiz: back to course selection. The answer state is cleared only if the index moved. */
    method ResetQuiz()
      modifies this
      ensures questions == [] && currentIndex == 0 && courseName == "" && courseCode == None
      ensures error == None && !hasAttemptedFetch
      ensures old(currentIndex) != 0 ==> answer == CLEARED_ANSWER
      ensures old(currentIndex) == 0 ==> answer == old(answer)
      ensures selectedCourseId == old(selectedCourseId) && segmentType == old(segmentType)
        && segmentLabel == old(segmentLabel) && questionsLoading == old(questionsLoading)
    {
      SetCurrentIndex(0);
      questions, courseName, courseCode, error, hasAttemptedFetch := [], "", None, None, false;
    }

    /** handleSubmit: grades the current question and shows the result. */
    method Submit(parse: string -> Option<real>) returns (result: Feedback)
      modifies this`answer
      ensures result == CheckAnswer(Current(), answer.selectedAnswerId, answer.wordAnswer, answer.multipartAnswers, parse)
      ensures answer == old(answer).(submitted := true, feedback := Some(result))
    {
      var current := Current();
      if current.Some? && current.value.questionType == Multipart && current.value.parts.Some? {
        var allCorrect, messages := GradeMultipart(current.value.parts.value, answer.multipartAnswers, parse);
        result := Feedback(allCorrect, if allCorrect then "Correct!" else "Incorrect. " + Join(messages, " "));
      } else {
        result := CheckAnswer(current, answer.selectedAnswerId, answer.wordAnswer, answer.multipartAnswers, parse);
      }
      answer := answer.(submitted := true, feedback := Some(result));
    }

    /**
     * startQuiz with the answer of its request. Without a course nothing happens and no request
     * is made; otherwise the request path is returned and the outcome applied. The current index
     * is left as it is.
     */
    method StartQuiz(outcome: QuestionsOutcome) returns (requested: Option<string>)
      modifies this`error, this`hasAttemptedFetch, this`questionsLoading, this`questions, this`courseName, this`courseCode
      ensures old(selectedCourseId).None? ==> requested == None && unchanged(this)
      ensures old(selectedCourseId).Some? ==>
        (requested == Some(QuestionsPath(old(selectedCourseId).value, old(segmentType), old(segmentLabel)))
         && hasAttemptedFetch && !questionsLoading)
      ensures old(selectedCourseId).Some? ==>
        QuestionsState(error, questions, courseName, courseCode) == ApplyQuestions(outcome, old(courseName), old(courseCode))
    {
      if selectedCourseId.None? {
        return None;
      }
      requested := Some(QuestionsPath(selectedCourseId.value, segmentType, segmentLabel));
      var next := ApplyQuestions(outcome, courseName, courseCode);
      error, hasAttemptedFetch, questionsLoading := next.error, true, false;
      questions, courseName, courseCode := next.questions, next.courseName, next.courseCode;
    }
  }
}
