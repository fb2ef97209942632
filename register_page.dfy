/** The registration page of the React front end
    (frontend/src/pages/Register.jsx): its form state, the field update of
    `handleChange`, and the ordered validation and store updates of
    `handleSubmit`. The call to the back end is a parameter: its reply. */
module Register {
  import opened Json
  import opened Optional
  import opened Auth

  const PasswordsDoNotMatch := "Passwords do not match"
  const PasswordTooShort := "Password must be at least 8 characters"
  const RegistrationFailed := "Registration failed"
  const MinPasswordLength := 8

  /** The form's three inputs. */
  datatype FormData = FormData(email: string, password: string, passwordConfirm: string)

  /** The `name` attributes of the three inputs (Register.jsx:62, 75, 88). */
  datatype FieldName = Email | Password | PasswordConfirm

  function FieldOf(form: FormData, name: FieldName): string {
    match name
    case Email => form.email
    case Password => form.password
    case PasswordConfirm => form.passwordConfirm
  }

  /** `{ ...prev, [name]: value }` (Register.jsx:14): the named field takes the
      new value and the other two keep theirs. */
  function WithField(form: FormData, name: FieldName, value: string): (r: FormData)
    ensures FieldOf(r, name) == value
    ensures forall other :: other != name ==> FieldOf(r, other) == FieldOf(form, other)
  {
    match name
    case Email => form.(email := value)
    case Password => form.(password := value)
    case PasswordConfirm => form.(passwordConfirm := value)
  }

  /** The checks of Register.jsx:23-31, in order: a mismatch is reported
      first, then a password shorter than eight characters. The form passes
      exactly when both passwords agree and have at least eight characters. */
  function Validate(form: FormData): (r: Option<string>)
    ensures r == None <==> form.password == form.passwordConfirm && |form.password| >= MinPasswordLength
    ensures form.password != form.passwordConfirm ==> r == Some(PasswordsDoNotMatch)
    ensures form.password == form.passwordConfirm && |form.password| < MinPasswordLength ==> r == Some(PasswordTooShort)
  {
    if form.password != form.passwordConfirm then Some(PasswordsDoNotMatch)
    else if |form.password| < MinPasswordLength then Some(PasswordTooShort)
    else None
  }

  /** The boundary: seven matching characters are refused, eight pass; and a
      short pair that also differs reports the mismatch. */
  lemma ValidateBoundary(email: string)
    ensures Validate(FormData(email, "1234567", "1234567")) == Some(PasswordTooShort)
    ensures Validate(FormData(email, "12345678", "12345678")) == None
    ensures Validate(FormData(email, "abc", "abd")) == Some(PasswordsDoNotMatch)
  {
  }

  /** The reply of `authApi.register`: the fields of a successful response, or
      a failure with the `detail` of the error response when there is one. */
  datatype RegisterReply =
    | Registered(accessToken: Option<string>, userId: Value)
    | Failed(detail: Option<string>)

  /** The text `setError` receives on a failure (Register.jsx:43): the
      server's detail when it is a non-empty string, else the fixed text. */
  function FailureText(detail: Option<string>): (r: string)
    ensures r != []
    ensures detail.Some? && detail.value != [] ==> r == detail.value
    ensures detail.None? || detail.value == [] ==> r == RegistrationFailed
  {
    if detail.Some? && detail.value != [] then detail.value else RegistrationFailed
  }

  /** One call of the back end: the credentials sent, and the store's
      `loading` flag while it was in flight. */
  datatype RegisterCall = RegisterCall(email: string, password: string, loadingDuringCall: bool)

  class RegisterPage {
    const auth: AuthStore
    var formData: FormData
    var formError: Option<string>
    /** Every call of `authApi.register`, in order. */
    ghost var calls: seq<RegisterCall>
    /** Every `navigate(...)` target, in order. */
    ghost var navigations: seq<string>

    /** The page as first rendered (Register.jsx:9-10). */
    constructor (auth: AuthStore)
      ensures this.auth == auth
      ensures formData == FormData("", "", "") && formError == None
      ensures calls == [] && navigations == []
    {
      this.auth := auth;
      formData := FormData("", "", "");
      formError := None;
      calls, navigations := [], [];
    }

    /** `handleChange` (Register.jsx:12-16): the named field takes the typed
        value, the form error is cleared, and nothing else changes. */
    method HandleChange(name: FieldName, value: string)
      modifies this`formData, this`formError
      ensures formData == WithField(old(formData), name, value)
      ensures formError == None
    {
      formData := WithField(formData, name, value);
      formError := None;
    }

    /** `handleSubmit` (Register.jsx:18-47) with the back end's reply. Both
        errors are cleared first. A form that fails validation gets its
        message and stops: no loading, no call, no change to the session. A
        valid form sets loading, makes one call with the form's credentials,
        and on success stores the token and the user and moves to /chat, on
        failure records the error text; loading is off after either. */
    method HandleSubmit(reply: RegisterReply)
      modifies this, auth, auth.storage
      ensures formData == old(formData)
      ensures formError == Validate(old(formData))
      ensures Validate(formData).Some? ==>
        && auth.error == None
        && auth.loading == old(auth.loading)
        && auth.user == old(auth.user) && auth.token == old(auth.token)
        && auth.storage.items == old(auth.storage.items)
        && calls == old(calls) && navigations == old(navigations)
      ensures Validate(formData).None? ==>
        && calls == old(calls) + [RegisterCall(formData.email, formData.password, true)]
        && !auth.loading
      ensures Validate(formData).None? && reply.Registered? ==>
        && auth.token == reply.accessToken
        && auth.user == Some(User(reply.userId, formData.email))
        && auth.error == None
        && (TokenTruthy(reply.accessToken) ==> auth.storage.items == old(auth.storage.items)[TokenKey := reply.accessToken.value])
        && (!TokenTruthy(reply.accessToken) ==> auth.storage.items == old(auth.storage.items) - {TokenKey})
        && navigations == old(navigations) + ["/chat"]
      ensures Validate(formData).None? && reply.Failed? ==>
        && auth.error == Some(FailureText(reply.detail))
        && auth.user == old(auth.user) && auth.token == old(auth.token)
        && auth.storage.items == old(auth.storage.items)
        && navigations == old(navigations)
    {
      auth.SetError(None);
      formError := None;

      if formData.password != formData.passwordConfirm {
        formError := Some(PasswordsDoNotMatch);
        return;
      }

      if |formData.password| < MinPasswordLength {
        formError := Some(PasswordTooShort);
        return;
      }

      auth.SetLoading(true);
      calls := calls + [RegisterCall(formData.email, formData.password, auth.loading)];

      match reply {
        case Registered(accessToken, userId) =>
          auth.SetToken(accessToken);
          auth.SetUser(Some(User(userId, formData.email)));
          navigations := navigations + ["/chat"];
        case Failed(detail) =>
          auth.SetError(Some(FailureText(detail)));
      }
      auth.SetLoading(false);
    }
  }
}
