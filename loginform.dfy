/**
 * The event handlers of the login form (components/features/LoginForm.tsx):
 * the message translator, the input-change handler and the submit handler over
 * the form's four state fields. What the submitter (the `onSubmit` prop or
 * `loginUser`) settles to is an input; the calls the form makes on the outside
 * world are recorded, in order, in `effects`.
 */
module LoginFormModel {
  import opened Results
  import opened Errors
  import opened Types
  import opened Validation

  const MsgInvalidCredentialsJa := "メールアドレスまたはパスワードが正しくありません"
  const MsgNetworkJa := "ネットワークエラーが発生しました"
  const MsgUnexpected := "予期しないエラーが発生しました"
  const DashboardPath := "/dashboard"

  /** `translateErrorMessage(message)`: two English messages become Japanese, all others pass through. */
  function TranslateErrorMessage(message: string): (r: string)
    ensures message == "Invalid credentials" ==> r == MsgInvalidCredentialsJa
    ensures message == "Network error" ==> r == MsgNetworkJa
    ensures message != "Invalid credentials" && message != "Network error" ==> r == message
  {
    if message == "Invalid credentials" then MsgInvalidCredentialsJa
    else if message == "Network error" then MsgNetworkJa
    else message
  }

  /** Translating twice is translating once: no translation is itself translated again. */
  lemma TranslateIdempotent(message: string)
    ensures TranslateErrorMessage(TranslateErrorMessage(message)) == TranslateErrorMessage(message)
  {
    assert MsgInvalidCredentialsJa != "Invalid credentials" && MsgInvalidCredentialsJa != "Network error";
    assert MsgNetworkJa != "Invalid credentials" && MsgNetworkJa != "Network error";
  }

  /** The login validator's messages are shown as they are. */
  lemma ValidationMessagesUntranslated(c: LoginCredentials)
    requires ValidateLoginCredentials(c).Err?
    ensures TranslateErrorMessage(ValidateLoginCredentials(c).error.message) == ValidateLoginCredentials(c).error.message
  {
  }

  /** The two inputs of the form, named "email" and "password". */
  datatype Field = EmailField | PasswordField

  function FieldName(f: Field): string {
    match f
    case EmailField => "email"
    case PasswordField => "password"
  }

  /** `formData` with the named input set to `value`. */
  function WithField(data: LoginCredentials, f: Field, value: string): (d: LoginCredentials)
    ensures f == EmailField ==> d.email == value && d.password == data.password
    ensures f == PasswordField ==> d.password == value && d.email == data.email
  {
    match f
    case EmailField => data.(email := value)
    case PasswordField => data.(password := value)
  }

  /** An error entry is cleared only when it is present and non-empty (truthy). */
  function ClearError(errors: map<string, string>, name: string): (r: map<string, string>)
    ensures r.Keys == errors.Keys
    ensures name in errors ==> r[name] == ""
    ensures forall k :: k in errors && k != name ==> r[k] == errors[k]
  {
    if name in errors && errors[name] != "" then errors[name := ""] else errors
  }

  /** A call the form makes on the outside world. */
  datatype Effect =
    | CalledOnSubmit(email: string, password: string)
    | CalledLoginUser(credentials: LoginCredentials)
    | CalledOnSuccess
    | Navigated(path: string)

  /** What the awaited submitter settles to: an ok result, an err result, or a thrown exception. */
  datatype SubmitOutcome = Succeeded | Failed(error: AppError) | Threw

  /**
   * The message the submit handler leaves in `generalError`, given what validation
   * of the form data returned.
   */
  function SubmitMessage(validation: Result<LoginCredentials, AppError>, outcome: SubmitOutcome): (m: string)
    ensures validation.Err? ==> m == TranslateErrorMessage(validation.error.message)
    ensures validation.Ok? && outcome.Succeeded? ==> m == ""
    ensures validation.Ok? && outcome.Failed? ==> m == TranslateErrorMessage(outcome.error.message)
    ensures validation.Ok? && outcome.Threw? ==> m == MsgUnexpected
  {
    match validation
    case Err(e) => TranslateErrorMessage(e.message)
    case Ok(_) =>
      match outcome
      case Succeeded => ""
      case Failed(e) => TranslateErrorMessage(e.message)
      case Threw => MsgUnexpected
  }

  /** The calls the submit handler makes, in order, given what validation of the form data returned. */
  function SubmitEffects(validation: Result<LoginCredentials, AppError>, hasOnSubmit: bool, hasOnSuccess: bool,
                         outcome: SubmitOutcome): (es: seq<Effect>)
    ensures validation.Err? ==> es == []
    ensures validation.Ok? ==>
      |es| >= 1 && es[0] == (if hasOnSubmit then CalledOnSubmit(validation.value.email, validation.value.password)
                             else CalledLoginUser(validation.value))
    ensures validation.Ok? && outcome.Succeeded? ==>
      es[1..] == [if hasOnSuccess then CalledOnSuccess else Navigated(DashboardPath)]
    ensures validation.Ok? && !outcome.Succeeded? ==> |es| == 1
    ensures !outcome.Succeeded? ==> Navigated(DashboardPath) !in es && CalledOnSuccess !in es
  {
    match validation
    case Err(_) => []
    case Ok(data) =>
      var call := if hasOnSubmit then CalledOnSubmit(data.email, data.password) else CalledLoginUser(data);
      if outcome.Succeeded? then [call, if hasOnSuccess then CalledOnSuccess else Navigated(DashboardPath)]
      else [call]
  }

  /** The form's state: `formData`, `errors`, `isSubmitting`, `generalError`, and its props. */
  class LoginForm {
    const hasOnSuccess: bool
    const hasOnSubmit: bool
    var formData: LoginCredentials
    var errors: map<string, string>
    var isSubmitting: bool
    var generalError: string
    var effects: seq<Effect>

    constructor (hasOnSuccess: bool, hasOnSubmit: bool)
      ensures this.hasOnSuccess == hasOnSuccess && this.hasOnSubmit == hasOnSubmit
      ensures formData == LoginCredentials("", "") && errors == map[]
      ensures !isSubmitting && generalError == "" && effects == []
    {
      this.hasOnSuccess := hasOnSuccess;
      this.hasOnSubmit := hasOnSubmit;
      formData := LoginCredentials("", "");
      errors := map[];
      isSubmitting := false;
      generalError := "";
      effects := [];
    }

    /** `handleInputChange`: store the typed value and clear the field's error and the general error. */
    method HandleInputChange(field: Field, value: string)
      modifies this
      ensures formData == WithField(old(formData), field, value)
      ensures errors == ClearError(old(errors), FieldName(field))
      ensures generalError == ""
      ensures isSubmitting == old(isSubmitting) && effects == old(effects)
    {
      formData := WithField(formData, field, value);
      var name := FieldName(field);
      if name in errors && errors[name] != "" {
        errors := errors[name := ""];
      }
      if generalError != "" {
        generalError := "";
      }
    }

    /**
     * `handleSubmit`: validate the form data, then call the submitter with it and
     * act on what it settles to; `isSubmitting` is reset on every path.
     */
    method HandleSubmit(outcome: SubmitOutcome)
      modifies this
      ensures formData == old(formData) && errors == map[] && !isSubmitting
      ensures generalError == SubmitMessage(ValidateLoginCredentials(old(formData)), outcome)
      ensures effects == old(effects)
                         + SubmitEffects(ValidateLoginCredentials(old(formData)), hasOnSubmit, hasOnSuccess, outcome)
    {
      var validation := ValidateLoginCredentials(formData);
      Proceed(validation, outcome);
    }

    /** The handler's steps once validation of the current form data has returned `validation`. */
    method Proceed(validation: Result<LoginCredentials, AppError>, outcome: SubmitOutcome)
      requires validation.Ok? ==> validation.value == formData
      modifies this
      ensures formData == old(formData) && errors == map[] && !isSubmitting
      ensures generalError == SubmitMessage(validation, outcome)
      ensures effects == old(effects) + SubmitEffects(validation, hasOnSubmit, hasOnSuccess, outcome)
    {
      isSubmitting := true;
      errors := map[];
      generalError := "";
      if validation.Err? {
        generalError := TranslateErrorMessage(validation.error.message);
        isSubmitting := false;
        return;
      }
      Submit(outcome);
      isSubmitting := false;
    }

    /**
     * The `try` block after validation passed: call `onSubmit(email, password)` if
     * given, else `loginUser(formData)`, then react to what it settles to.
     */
    method Submit(outcome: SubmitOutcome)
      requires generalError == ""
      modifies this`effects, this`generalError
      ensures generalError == SubmitMessage(Ok(formData), outcome)
      ensures effects == old(effects) + SubmitEffects(Ok(formData), hasOnSubmit, hasOnSuccess, outcome)
    {
      ghost var before := effects;
      var call := if hasOnSubmit then CalledOnSubmit(formData.email, formData.password) else CalledLoginUser(formData);
      effects := effects + [call];
      match outcome {
        case Succeeded =>
          var next := if hasOnSuccess then CalledOnSuccess else Navigated(DashboardPath);
          effects := effects + [next];
          assert effects == before + [call, next];
        case Failed(e) =>
          generalError := TranslateErrorMessage(e.message);
        case Threw =>
          generalError := MsgUnexpected;
      }
    }
  }

  /** A validation failure shows the validator's own message and calls nothing. */
  lemma InvalidFormCallsNothing(data: LoginCredentials, hasOnSubmit: bool, hasOnSuccess: bool, outcome: SubmitOutcome)
    requires ValidateLoginCredentials(data).Err?
    ensures SubmitEffects(ValidateLoginCredentials(data), hasOnSubmit, hasOnSuccess, outcome) == []
    ensures SubmitMessage(ValidateLoginCredentials(data), outcome) in {MsgEmailRequired, MsgEmailFormat, MsgPasswordRequired}
  {
  }

  /**
   * Typing into the form after a failed submission clears the shown error and
   * keeps the other field's value.
   */
  method TypeAfterFailedSubmit(email: string, password: string, error: AppError, retyped: string)
    returns (shownAfterSubmit: string, shownAfterTyping: string, data: LoginCredentials)
    requires ValidateLoginCredentials(LoginCredentials(email, password)).Ok?
    ensures shownAfterSubmit == TranslateErrorMessage(error.message)
    ensures shownAfterTyping == ""
    ensures data == LoginCredentials(retyped, password)
  {
    var form := new LoginForm(false, true);
    form.HandleInputChange(EmailField, email);
    form.HandleInputChange(PasswordField, password);
    form.HandleSubmit(Failed(error));
    shownAfterSubmit := form.generalError;
    form.HandleInputChange(EmailField, retyped);
    shownAfterTyping := form.generalError;
    data := form.formData;
  }
}
