/**
 * The "New Feedback" form (src/components/FeedbackForm.tsx): the checks a
 * submit runs, the row it inserts and what the form shows afterwards.
 */
module FeedbackForm {
  import opened Types
  import opened JsText

  const TitleRequired: string := "Title is required"
  const NotConfigured: string := "Supabase not configured"

  /** The first check a submit fails, in the order the handler runs them, or `Proceed`. */
  datatype Gate = NeedsSignIn | Invalid(message: string) | Proceed

  /** Sign-in first, then a non-blank title, then a configured client. */
  function CheckSubmit(signedIn: bool, title: string, configured: bool): (g: Gate)
    ensures g == NeedsSignIn <==> !signedIn
    ensures g == Invalid(TitleRequired) <==> signedIn && AllWhitespace(title)
    ensures g == Invalid(NotConfigured) <==> signedIn && !AllWhitespace(title) && !configured
    ensures g == Proceed <==> signedIn && !AllWhitespace(title) && configured
  {
    TrimEmptyIffBlank(title);
    if !signedIn then NeedsSignIn
    else if Trim(title) == [] then Invalid(TitleRequired)
    else if !configured then Invalid(NotConfigured)
    else Proceed
  }

  /** `description.trim() || null`: the empty string is sent as null. */
  function OptionalText(s: string): (r: Option<string>)
    ensures r == None <==> AllWhitespace(s)
    ensures r.Some? ==> r.value == Trim(s) && r.value != []
  {
    TrimEmptyIffBlank(s);
    var t := Trim(s);
    if t == [] then None else Some(t)
  }

  /** The row a submit inserts: trimmed title, trimmed description or null, the author; id and date left to the database. */
  function Payload(title: string, description: string, userId: string): FeedbackInsert
  {
    FeedbackInsert(None, Trim(title), OptionalText(description), userId, None)
  }

  /**
   * A payload built after the checks passed carries a non-empty title with no
   * whitespace at either end, a description that is null or likewise trimmed and
   * non-empty, and the signed-in user as author; trimming it again changes nothing.
   */
  lemma PayloadIsClean(title: string, description: string, userId: string)
    requires CheckSubmit(true, title, true) == Proceed
    ensures var p := Payload(title, description, userId);
      && p.title != [] && !IsJsWhitespace(p.title[0]) && !IsJsWhitespace(p.title[|p.title| - 1])
      && Trim(p.title) == p.title
      && (p.description.Some? ==> p.description.value != [] && Trim(p.description.value) == p.description.value)
      && p.created_by == userId && p.id == None && p.created_at == None
  {
    var p := Payload(title, description, userId);
    TrimEmptyIffBlank(title);
    assert p.title == Trim(title) && p.title != [];
    TrimIdempotent(title);
    if p.description.Some? {
      assert p.description.value == Trim(description);
      TrimIdempotent(description);
    }
  }

  /** The submit button is disabled while submitting, for a blank title, or without a client. */
  predicate SubmitDisabled(isSubmitting: bool, title: string, configured: bool): (disabled: bool)
    ensures disabled <==> isSubmitting || AllWhitespace(title) || !configured
  {
    TrimEmptyIffBlank(title);
    isSubmitting || Trim(title) == [] || !configured
  }

  /**
   * The button and the handler agree: for a signed-in user an enabled button
   * always passes the checks, and a check failure other than sign-in always
   * comes with a disabled button.
   */
  lemma EnabledButtonPassesChecks(isSubmitting: bool, title: string, configured: bool)
    ensures !SubmitDisabled(isSubmitting, title, configured) ==> CheckSubmit(true, title, configured) == Proceed
    ensures CheckSubmit(true, title, configured).Invalid? ==> SubmitDisabled(isSubmitting, title, configured)
  {
    TrimEmptyIffBlank(title);
  }

  /**
   * How the awaited insert ended: it returned no error, it returned an error
   * with a message, or it threw (there is no `try` around it, so the throw
   * leaves the handler at once).
   */
  datatype InsertOutcome = InsertOk | InsertFailed(message: string) | InsertThrew

  /** The form's five state variables, as one value. */
  datatype Fields = Fields(title: string, description: string, isSubmitting: bool, error: string, success: bool)

  /**
   * The form after the insert, from the fields it had before the submit. On
   * success the inputs are cleared and the success message shown; on a
   * returned error its message is shown and the inputs kept; either way the
   * form stops submitting. A throw leaves the form submitting, with the error
   * cleared and the inputs kept.
   */
  function AfterInsert(f: Fields, insert: InsertOutcome): (g: Fields)
    ensures g.isSubmitting <==> insert == InsertThrew
    ensures insert == InsertOk ==> g.title == "" && g.description == "" && g.success
    ensures insert != InsertOk ==> g.title == f.title && g.description == f.description && g.success == f.success
    ensures g.error == (if insert.InsertFailed? then insert.message else "")
  {
    match insert
    case InsertOk => Fields("", "", false, "", true)
    case InsertFailed(message) => f.(isSubmitting := false, error := message)
    case InsertThrew => f.(isSubmitting := true, error := "")
  }

  /** What a submit hands to the outside: the sign-in prompt, nothing, or an insert request. */
  datatype SubmitEffect = AuthRequired | NoRequest | Requested(row: FeedbackInsert)

  /** The form's state; `error` is the empty string when no message is shown. */
  class FeedbackFormState {
    var title: string
    var description: string
    var isSubmitting: bool
    var error: string
    var success: bool

    /** The current state, as one value. */
    ghost function State(): Fields
      reads this
    {
      Fields(title, description, isSubmitting, error, success)
    }

    constructor()
      ensures title == "" && description == "" && !isSubmitting && error == "" && !success
    {
      title, description := "", "";
      isSubmitting, error, success := false, "", false;
    }

    /** The title input's change handler. */
    method SetTitle(value: string)
      modifies this
      ensures title == value
      ensures description == old(description) && isSubmitting == old(isSubmitting)
      ensures error == old(error) && success == old(success)
    {
      title := value;
    }

    /** The description input's change handler. */
    method SetDescription(value: string)
      modifies this
      ensures description == value
      ensures title == old(title) && isSubmitting == old(isSubmitting)
      ensures error == old(error) && success == old(success)
    {
      description := value;
    }

    /**
     * `handleSubmit`. `user` is the signed-in user's id, `configured` whether a
     * client exists, `insert` how the insert ends (if it is reached). Only the
     * first failing check has an effect; past the checks the error is cleared
     * and the insert is requested, and `Submit` gives the outcome.
     */
    method HandleSubmit(user: Option<string>, configured: bool, insert: InsertOutcome)
      returns (effect: SubmitEffect)
      modifies this
      ensures CheckSubmit(user.Some?, old(title), configured) == NeedsSignIn ==>
        effect == AuthRequired && error == old(error)
      ensures CheckSubmit(user.Some?, old(title), configured).Invalid? ==>
        effect == NoRequest && error == CheckSubmit(user.Some?, old(title), configured).message
      ensures CheckSubmit(user.Some?, old(title), configured) != Proceed ==>
        title == old(title) && description == old(description)
        && isSubmitting == old(isSubmitting) && success == old(success)
      ensures CheckSubmit(user.Some?, old(title), configured) == Proceed ==>
        && effect == Requested(Payload(old(title), old(description), user.value))
        && State() == AfterInsert(old(State()), insert)
    {
      var gate := CheckSubmit(user.Some?, title, configured);
      match gate {
        case NeedsSignIn =>
          return AuthRequired;
        case Invalid(message) =>
          error := message;
          return NoRequest;
        case Proceed =>
          var row := Payload(title, description, user.value);
          effect := Submit(row, insert);
      }
    }

    /**
     * The part of `handleSubmit` past the checks: raise `isSubmitting`, clear
     * the error and request the insert of `row`. On success the fields are
     * cleared and `success` set; on a returned error its message is shown; in
     * both cases `isSubmitting` is lowered. A throw skips all of that, so the
     * form stays submitting with no message.
     */
    method Submit(row: FeedbackInsert, insert: InsertOutcome) returns (effect: SubmitEffect)
      modifies this
      ensures effect == Requested(row)
      ensures State() == AfterInsert(old(State()), insert)
    {
      isSubmitting := true;
      error := "";
      effect := Requested(row);
      match insert {
        case InsertThrew =>
          return;
        case InsertFailed(message) =>
          error := message;
        case InsertOk =>
          title := "";
          description := "";
          success := true;
      }
      isSubmitting := false;
    }

    /** The timer that hides the success message three seconds after a submit. */
    method SuccessElapsed()
      modifies this
      ensures !success
      ensures title == old(title) && description == old(description)
      ensures isSubmitting == old(isSubmitting) && error == old(error)
    {
      success := false;
    }
  }
}
