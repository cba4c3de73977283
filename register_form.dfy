/**
 * The registration form of `src/components/auth/Register.tsx`: the field
 * update, the password checks, the guarded call of the auth store's
 * `register`, and the condition that disables the submit button.
 */
module RegisterForm {
  import opened Strings
  import AuthStore

  datatype Field = Username | Email | Password | ConfirmPassword

  datatype FormData = FormData(username: string, email: string, password: string, confirmPassword: string)

  datatype FormErrors = FormErrors(password: string, confirmPassword: string)

  const EmptyForm := FormData("", "", "", "")
  const NoErrors := FormErrors("", "")

  const MinPasswordLength: nat := 6
  const TooShort := "Password must be at least 6 characters"
  const Mismatch := "Passwords do not match"

  /** `validatePasswords`: a fresh error record filled in check by check. */
  method ValidatePasswords(form: FormData) returns (isValid: bool, errors: FormErrors)
    ensures errors.password == (if |form.password| < MinPasswordLength then TooShort else "")
    ensures errors.confirmPassword == (if form.password != form.confirmPassword then Mismatch else "")
    ensures isValid <==> |form.password| >= MinPasswordLength && form.password == form.confirmPassword
    ensures isValid <==> errors == NoErrors
  {
    isValid := true;
    errors := NoErrors;
    if |form.password| < MinPasswordLength {
      errors := errors.(password := TooShort);
      isValid := false;
    }
    if form.password != form.confirmPassword {
      errors := errors.(confirmPassword := Mismatch);
      isValid := false;
    }
  }

  /** `{...formData, [name]: value}`. */
  function SetField(form: FormData, field: Field, value: string): FormData {
    match field
    case Username => form.(username := value)
    case Email => form.(email := value)
    case Password => form.(password := value)
    case ConfirmPassword => form.(confirmPassword := value)
  }

  function GetField(form: FormData, field: Field): string {
    match field
    case Username => form.username
    case Email => form.email
    case Password => form.password
    case ConfirmPassword => form.confirmPassword
  }

  /** `handleChange`: clear a pending store error, update the field, clear that field's error if it has one. */
  function HandleChange(auth: AuthStore.AuthState, form: FormData, errors: FormErrors, field: Field, value: string)
    : (AuthStore.AuthState, FormData, FormErrors)
  {
    var auth' := if auth.error.Some? && auth.error.value != "" then AuthStore.ClearErrorStep(auth) else auth;
    var errors' := match field
      case Password => errors.(password := "")
      case ConfirmPassword => errors.(confirmPassword := "")
      case _ => errors;
    (auth', SetField(form, field, value), errors')
  }

  /**
   * A change leaves the store without an error and otherwise untouched, sets
   * exactly the named field, and clears only the named field's error and only
   * for the two password fields.
   */
  lemma HandleChangeEffect(auth: AuthStore.AuthState, form: FormData, errors: FormErrors, field: Field, value: string)
    ensures var (a, f, e) := HandleChange(auth, form, errors, field, value);
      && (a.error.None? || a.error == Some("")) && a.(error := auth.error) == auth
      && GetField(f, field) == value
      && (forall other: Field :: other != field ==> GetField(f, other) == GetField(form, other))
      && e.password == (if field == Password then "" else errors.password)
      && e.confirmPassword == (if field == ConfirmPassword then "" else errors.confirmPassword)
  {
  }

  /** The submit button's `disabled` expression. */
  predicate SubmitDisabled(isLoading: bool, form: FormData) {
    isLoading || form.username == "" || form.email == "" || form.password == "" || form.confirmPassword == ""
  }

  /** The button is enabled exactly when nothing is loading and all four fields are filled in. */
  lemma SubmitEnabledIff(isLoading: bool, form: FormData)
    ensures !SubmitDisabled(isLoading, form) <==> !isLoading && forall f: Field :: GetField(form, f) != ""
  {
    if !isLoading && forall f: Field :: GetField(form, f) != "" {
      assert GetField(form, Username) != "" && GetField(form, Email) != "";
      assert GetField(form, Password) != "" && GetField(form, ConfirmPassword) != "";
    }
  }

  /**
   * `handleSubmit`: validate, show the new errors, and call `register` only
   * when validation passed; a failed validation leaves the store as it was.
   */
  method HandleSubmit(form: FormData, store: AuthStore.Store, token: string) returns (errors: FormErrors)
    modifies store
    ensures errors == NoErrors ==>
      store.State() == AuthStore.RegisterStep(old(store.State()), form.username, form.email, form.password, token)
    ensures errors != NoErrors ==> store.State() == old(store.State())
    ensures errors == NoErrors <==> |form.password| >= MinPasswordLength && form.password == form.confirmPassword
  {
    var isValid;
    isValid, errors := ValidatePasswords(form);
    if isValid {
      store.Register(form.username, form.email, form.password, token);
    }
  }
}
