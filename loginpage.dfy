/** The login page: the checks made before the credentials are sent and the clearing
    of one field's error on input. */
module LoginPage {
  import opened Common

  /** `validateForm`'s error map: a blank e-mail and an empty password are the only
      errors; the password has no length rule here. */
  function LoginErrors(email: string, password: string): (errors: map<string, string>)
    ensures "email" in errors <==> IsBlank(email)
    ensures "password" in errors <==> password == ""
    ensures errors.Keys <= {"email", "password"}
    ensures "email" in errors ==> errors["email"] == "Email is required"
    ensures "password" in errors ==> errors["password"] == "Password is required"
  {
    var e1: map<string, string> := if IsBlank(email) then map["email" := "Email is required"] else map[];
    if password == "" then e1["password" := "Password is required"] else e1
  }

  /** `validateForm` returns true exactly when the e-mail is not blank and a password
      is given, however short. */
  lemma LoginValidIff(email: string, password: string)
    ensures |LoginErrors(email, password)| == 0 <==> !IsBlank(email) && password != ""
  {
    var errors := LoginErrors(email, password);
    if |errors| == 0 {
      assert errors.Keys == {};
    }
  }

  class LoginForm {
    var credentials: map<string, string>
    var errors: map<string, string>
    var rememberMe: bool

    ghost predicate Valid()
      reads this
    {
      "email" in credentials && "password" in credentials
    }

    constructor()
      ensures Valid()
      ensures credentials == map["email" := "", "password" := ""] && errors == map[] && !rememberMe
    {
      credentials := map["email" := "", "password" := ""];
      errors := map[];
      rememberMe := false;
    }

    /** `handleChange`: only the named field changes and only its error is cleared. */
    method HandleChange(name: string, value: string)
      requires Valid()
      modifies this
      ensures Valid()
      ensures credentials == old(credentials)[name := value]
      ensures errors == ClearFieldError(old(errors), name)
      ensures rememberMe == old(rememberMe)
    {
      credentials := credentials[name := value];
      errors := ClearFieldError(errors, name);
    }

    /** `validateForm`. */
    method ValidateForm() returns (ok: bool)
      requires Valid()
      modifies this
      ensures Valid()
      ensures errors == LoginErrors(credentials["email"], credentials["password"])
      ensures ok <==> |errors| == 0
      ensures credentials == old(credentials) && rememberMe == old(rememberMe)
    {
      errors := LoginErrors(credentials["email"], credentials["password"]);
      ok := |errors| == 0;
    }
  }
}
