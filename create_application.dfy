/** The create-application form: required fields, the payload it posts, and its outcome. */
module CreateApplication {
  import opened Wrappers
  import opened JsStrings

  const REQUIRED_ERROR := "Title and problem text are required"

  /** The JSON body posted to /api/applications. */
  datatype ApplicationPayload = ApplicationPayload(
    title: string, problemText: string, subjectArea: Option<string>, difficultyLevel: Option<string>)

  /** The POST's fate: created, a non-OK status, or an Error thrown by the request or the body (its message), or a non-Error value. */
  datatype CreateOutcome = Created | HttpError(status: int) | Failed(message: Option<string>)

  /**
   * The payload: title and problem text trimmed, a blank subject area as null, an empty
   * difficulty level as null (it is chosen from a list, so it is not trimmed).
   */
  function Payload(title: string, problemText: string, subjectArea: string, difficultyLevel: string): (p: ApplicationPayload)
    ensures p.title == Trim(title) && p.problemText == Trim(problemText)
    ensures p.subjectArea.None? <==> IsBlank(subjectArea)
    ensures p.subjectArea.Some? ==> p.subjectArea.value == Trim(subjectArea) && p.subjectArea.value != ""
    ensures p.difficultyLevel.None? <==> difficultyLevel == ""
    ensures p.difficultyLevel.Some? ==> p.difficultyLevel.value == difficultyLevel
  {
    var subject := Trim(subjectArea);
    ApplicationPayload(Trim(title), Trim(problemText),
      if subject == "" then None else Some(subject),
      if difficultyLevel == "" then None else Some(difficultyLevel))
  }

  /** The error shown when the request fails: the status for a non-OK answer, the thrown error's message otherwise. */
  function FailureMessage(outcome: CreateOutcome): (r: string)
    requires !outcome.Created?
    ensures outcome.HttpError? ==> r == "HTTP error! Status: " + IntToString(outcome.status)
    ensures outcome.Failed? && outcome.message.Some? ==> r == outcome.message.value
    ensures outcome == Failed(None) ==> r == "An error occurred"
  {
    match outcome
    case HttpError(status) => "HTTP error! Status: " + IntToString(status)
    case Failed(message) => if message.Some? then message.value else "An error occurred"
  }

  class CreateApplicationForm {
    var title: string
    var problemText: string
    var subjectArea: string
    var difficultyLevel: string
    var loading: bool
    var error: Option<string>

    constructor()
      ensures title == "" && problemText == "" && subjectArea == "" && difficultyLevel == ""
      ensures !loading && error == None
    {
      title := "";
      problemText := "";
      subjectArea := "";
      difficultyLevel := "";
      loading := false;
      error := None;
    }

    /**
     * handleSubmit: blank required fields stop it before anything is sent; a missing API URL
     * fails before the request; success navigates to '/applications'.
     */
    method Submit(apiEnv: Option<string>, outcome: CreateOutcome) returns (sent: Option<ApplicationPayload>, navigateTo: Option<string>)
      modifies this
      ensures IsBlank(old(title)) || IsBlank(old(problemText)) ==>
        sent.None? && navigateTo.None? && error == Some(REQUIRED_ERROR) && loading == old(loading)
      ensures !IsBlank(old(title)) && !IsBlank(old(problemText)) ==> !loading
      ensures !IsBlank(old(title)) && !IsBlank(old(problemText)) && !Truthy(apiEnv) ==>
        sent.None? && navigateTo.None? && error == Some("API URL is not set")
      ensures !IsBlank(old(title)) && !IsBlank(old(problemText)) && Truthy(apiEnv) ==>
        sent == Some(Payload(title, problemText, subjectArea, difficultyLevel))
        && (outcome.Created? ==> navigateTo == Some("/applications") && error == None)
        && (!outcome.Created? ==> navigateTo.None? && error == Some(FailureMessage(outcome)))
      ensures title == old(title) && problemText == old(problemText)
      ensures subjectArea == old(subjectArea) && difficultyLevel == old(difficultyLevel)
    {
      sent := None;
      navigateTo := None;
      if Trim(title) == "" || Trim(problemText) == "" {
        error := Some(REQUIRED_ERROR);
        return;
      }
      loading := true;
      error := None;
      if !Truthy(apiEnv) {
        error := Some("API URL is not set");
      } else {
        sent := Some(Payload(title, problemText, subjectArea, difficultyLevel));
        if outcome.Created? {
          navigateTo := Some("/applications");
        } else {
          error := Some(FailureMessage(outcome));
        }
      }
      loading := false;
    }
  }

  /** Whatever is typed, nothing reaches the backend with a blank title or problem text. */
  lemma PayloadNeverBlank(title: string, problemText: string, subjectArea: string, difficultyLevel: string)
    requires !IsBlank(title) && !IsBlank(problemText)
    ensures Payload(title, problemText, subjectArea, difficultyLevel).title != ""
    ensures Payload(title, problemText, subjectArea, difficultyLevel).problemText != ""
  {
  }
}
