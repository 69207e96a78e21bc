/** The registration page: the checks made before the form is sent, the error map
    they produce, the clearing of one field's error on input, and when the submit
    button is enabled. */
module RegisterPage {
  import opened Common

  /** `/\S+@\S+\.\S+/.test(s)`: somewhere in `s`, a non-space, an '@', one or more
      non-spaces, a '.', and a non-space (the pattern is not anchored). */
  predicate EmailLike(s: string) {
    exists at, dot | 0 <= at < dot < |s| :: EmailAt(s, at, dot)
  }

  /** The '@' at `at` and the '.' at `dot` make `s` pass the test. */
  predicate EmailAt(s: string, at: int, dot: int) {
    0 < at && at + 1 < dot && dot + 1 < |s|
    && s[at] == '@' && s[dot] == '.' && !IsJsWhitespace(s[at - 1]) && !IsJsWhitespace(s[dot + 1])
    && forall k | at < k < dot :: !IsJsWhitespace(s[k])
  }

  predicate NoSpace(s: string) {
    forall i | 0 <= i < |s| :: !IsJsWhitespace(s[i])
  }

  /** Any local part, domain and suffix without spaces make an address the test accepts. */
  lemma EmailLikeOfPieces(user: string, domain: string, suffix: string)
    requires user != [] && domain != [] && suffix != []
    requires NoSpace(user) && NoSpace(domain) && NoSpace(suffix)
    ensures EmailLike(user + "@" + domain + "." + suffix)
  {
    var s := user + "@" + domain + "." + suffix;
    var at := |user|;
    var dot := |user| + 1 + |domain|;
    assert s[at] == '@' && s[dot] == '.';
    assert s[at - 1] == user[|user| - 1];
    assert s[dot + 1] == suffix[0];
    assert forall k | at < k < dot :: s[k] == domain[k - at - 1];
    assert 0 <= at < dot < |s| && EmailAt(s, at, dot);
  }

  /** Text around an accepted address does not matter. */
  lemma EmailLikeUnanchored(prefix: string, s: string, suffix: string)
    requires EmailLike(s)
    ensures EmailLike(prefix + s + suffix)
  {
    var at, dot :| 0 <= at < dot < |s| && EmailAt(s, at, dot);
    var t := prefix + s + suffix;
    var n := |prefix|;
    assert 0 < at && at + 1 < dot && dot + 1 < |s|;
    assert forall k | 0 <= k < |s| :: t[n + k] == s[k];
    forall k | n + at < k < n + dot
      ensures !IsJsWhitespace(t[k])
    {
      assert t[n + (k - n)] == s[k - n];
      assert at < k - n < dot;
    }
    assert EmailAt(t, n + at, n + dot);
  }

  /** An address needs a dot after the '@': "a@b" is refused. */
  lemma EmailNeedsDot()
    ensures !EmailLike("a@b")
  {
  }

  /** The error `validateForm` records under one key, if any. */
  function FieldError(key: string, username: string, email: string, password: string, confirmPassword: string,
                      agreedToTerms: bool): Option<string>
  {
    if key == "username" then (if IsBlank(username) then Some("Username is required") else None)
    else if key == "email" then
      (if IsBlank(email) then Some("Email is required")
       else if !EmailLike(email) then Some("Email is invalid") else None)
    else if key == "password" then
      (if password == "" then Some("Password is required")
       else if JsLength(password) < 6 then Some("Password must be at least 6 characters") else None)
    else if key == "confirmPassword" then (if password != confirmPassword then Some("Passwords do not match") else None)
    else if key == "terms" then (if !agreedToTerms then Some("You must agree to the terms and privacy policy") else None)
    else None
  }

  const ErrorKeys: set<string> := {"username", "email", "password", "confirmPassword", "terms"}

  /** `validateForm`'s error map; keys as in the source. */
  function RegisterErrors(username: string, email: string, password: string, confirmPassword: string,
                          agreedToTerms: bool): (errors: map<string, string>)
    ensures errors.Keys <= ErrorKeys
  {
    map key | key in ErrorKeys && FieldError(key, username, email, password, confirmPassword, agreedToTerms).Some? ::
      FieldError(key, username, email, password, confirmPassword, agreedToTerms).value
  }

  /** The username is required. */
  lemma UsernameChecked(username: string, email: string, password: string, confirmPassword: string, agreedToTerms: bool)
    ensures var errors := RegisterErrors(username, email, password, confirmPassword, agreedToTerms);
      ("username" in errors <==> IsBlank(username))
      && ("username" in errors ==> errors["username"] == "Username is required")
  {
    assert FieldError("username", username, email, password, confirmPassword, agreedToTerms)
      == (if IsBlank(username) then Some("Username is required") else None);
  }

  /** The e-mail is required and must look like an address. */
  lemma EmailChecked(username: string, email: string, password: string, confirmPassword: string, agreedToTerms: bool)
    ensures var errors := RegisterErrors(username, email, password, confirmPassword, agreedToTerms);
      ("email" in errors <==> IsBlank(email) || !EmailLike(email))
      && ("email" in errors ==>
            errors["email"] == (if IsBlank(email) then "Email is required" else "Email is invalid"))
  {
    assert "email" != "username";
    assert FieldError("email", username, email, password, confirmPassword, agreedToTerms)
      == (if IsBlank(email) then Some("Email is required") else if !EmailLike(email) then Some("Email is invalid") else None);
  }

  /** The password is required and must be at least 6 UTF-16 code units long. */
  lemma PasswordChecked(username: string, email: string, password: string, confirmPassword: string, agreedToTerms: bool)
    ensures var errors := RegisterErrors(username, email, password, confirmPassword, agreedToTerms);
      ("password" in errors <==> password == "" || JsLength(password) < 6)
      && ("password" in errors ==>
            errors["password"] == (if password == "" then "Password is required" else "Password must be at least 6 characters"))
  {
    assert "password" != "username" && "password" != "email";
    assert FieldError("password", username, email, password, confirmPassword, agreedToTerms)
      == (if password == "" then Some("Password is required")
          else if JsLength(password) < 6 then Some("Password must be at least 6 characters") else None);
  }

  /** The confirmation must repeat the password. */
  lemma ConfirmationChecked(username: string, email: string, password: string, confirmPassword: string, agreedToTerms: bool)
    ensures var errors := RegisterErrors(username, email, password, confirmPassword, agreedToTerms);
      ("confirmPassword" in errors <==> password != confirmPassword)
      && ("confirmPassword" in errors ==> errors["confirmPassword"] == "Passwords do not match")
  {
    assert "confirmPassword" != "username" && "confirmPassword" != "email" && "confirmPassword" != "password";
    assert FieldError("confirmPassword", username, email, password, confirmPassword, agreedToTerms)
      == (if password != confirmPassword then Some("Passwords do not match") else None);
  }

  /** The terms must be accepted. */
  lemma TermsChecked(username: string, email: string, password: string, confirmPassword: string, agreedToTerms: bool)
    ensures var errors := RegisterErrors(username, email, password, confirmPassword, agreedToTerms);
      ("terms" in errors <==> !agreedToTerms)
      && ("terms" in errors ==> errors["terms"] == "You must agree to the terms and privacy policy")
  {
    assert "terms" != "username" && "terms" != "email" && "terms" != "password" && "terms" != "confirmPassword";
    assert FieldError("terms", username, email, password, confirmPassword, agreedToTerms)
      == (if !agreedToTerms then Some("You must agree to the terms and privacy policy") else None);
  }

  /** `validateForm` returns true exactly when every field passes. */
  lemma ValidIffNoErrors(username: string, email: string, password: string, confirmPassword: string, agreedToTerms: bool)
    ensures |RegisterErrors(username, email, password, confirmPassword, agreedToTerms)| == 0 <==>
      (!IsBlank(username) && !IsBlank(email) && EmailLike(email) && password != "" && JsLength(password) >= 6
       && password == confirmPassword && agreedToTerms)
  {
    var errors := RegisterErrors(username, email, password, confirmPassword, agreedToTerms);
    UsernameChecked(username, email, password, confirmPassword, agreedToTerms);
    EmailChecked(username, email, password, confirmPassword, agreedToTerms);
    PasswordChecked(username, email, password, confirmPassword, agreedToTerms);
    ConfirmationChecked(username, email, password, confirmPassword, agreedToTerms);
    TermsChecked(username, email, password, confirmPassword, agreedToTerms);
    if |errors| == 0 {
      assert errors.Keys == {};
    } else {
      var key :| key in errors;
    }
  }

  const Fields: set<string> := {"username", "email", "password", "confirmPassword"}

  class RegisterForm {
    var formData: map<string, string>
    var errors: map<string, string>
    var agreedToTerms: bool
    var isLoading: bool

    ghost predicate Valid()
      reads this
    {
      Fields <= formData.Keys
    }

    constructor()
      ensures Valid()
      ensures formData == map["username" := "", "email" := "", "password" := "", "confirmPassword" := ""]
      ensures errors == map[] && !agreedToTerms && !isLoading
    {
      formData := map["username" := "", "email" := "", "password" := "", "confirmPassword" := ""];
      errors := map[];
      agreedToTerms := false;
      isLoading := false;
    }

    /** `handleChange`: one field takes the new value and only its error is cleared. */
    method HandleChange(name: string, value: string)
      requires Valid()
      modifies this
      ensures Valid()
      ensures formData == old(formData)[name := value]
      ensures errors == ClearFieldError(old(errors), name)
      ensures agreedToTerms == old(agreedToTerms) && isLoading == old(isLoading)
    {
      formData := formData[name := value];
      errors := ClearFieldError(errors, name);
    }

    /** The terms checkbox. */
    method SetAgreedToTerms(checked: bool)
      modifies this
      ensures agreedToTerms == checked
      ensures formData == old(formData) && errors == old(errors) && isLoading == old(isLoading)
    {
      agreedToTerms := checked;
    }

    /** `validateForm`: the error map replaced by this check's, and whether it is empty. */
    method ValidateForm() returns (ok: bool)
      requires Valid()
      modifies this
      ensures Valid()
      ensures errors == RegisterErrors(formData["username"], formData["email"], formData["password"],
                                       formData["confirmPassword"], agreedToTerms)
      ensures ok <==> |errors| == 0
      ensures formData == old(formData) && agreedToTerms == old(agreedToTerms) && isLoading == old(isLoading)
    {
      errors := RegisterErrors(formData["username"], formData["email"], formData["password"],
                               formData["confirmPassword"], agreedToTerms);
      ok := |errors| == 0;
    }

    /** `disabled={isLoading || !agreedToTerms}`. */
    predicate SubmitDisabled()
      reads this
    {
      isLoading || !agreedToTerms
    }
  }

  /** Submitting is possible only once the terms are accepted, and then validation does
      not add a terms error. */
  lemma EnabledSubmitHasNoTermsError(f: RegisterForm)
    requires f.Valid() && !f.SubmitDisabled()
    ensures "terms" !in RegisterErrors(f.formData["username"], f.formData["email"], f.formData["password"],
                                       f.formData["confirmPassword"], f.agreedToTerms)
  {
    TermsChecked(f.formData["username"], f.formData["email"], f.formData["password"],
                 f.formData["confirmPassword"], f.agreedToTerms);
  }
}
