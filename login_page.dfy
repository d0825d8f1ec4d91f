/** The demo login page: each submit handler either sets an error and calls nothing, or
    calls `onLogin` with the username, the password and an admin flag and then clears the
    error. The login flag is whether the lower-cased username contains "admin"; the
    signup flag whether the chosen role is "admin". */
module LoginPage {
  import opened Wrappers
  import opened JsString

  /** The arguments of `onLogin`. */
  datatype LoginCall = LoginCall(username: string, password: string, isAdmin: bool)

  /** What a submit leaves behind: the `onLogin` call it made, if any, and the value of
      the `error` cell afterwards. Unlike the edit forms, the page clears its error after
      a successful submit. */
  datatype SubmitEffect = SubmitEffect(call: Option<LoginCall>, error: string)

  const LoginRequired: string := "Please enter both username and password"
  const SignupRequired: string := "Please fill in all required fields"
  const InitialRole: string := "member"

  /** `handleLoginSubmit`. */
  function HandleLoginSubmit(username: string, password: string): (r: SubmitEffect)
    ensures r.call.None? <==> username == "" || password == ""
    ensures r.call.None? ==> r.error == LoginRequired
    ensures r.call.Some? ==> r.error == ""
    ensures r.call.Some? ==> && r.call.value.username == username && r.call.value.password == password
                             && (r.call.value.isAdmin <==> Includes(ToLowerAscii(username), "admin"))
  {
    if username == "" || password == "" then SubmitEffect(None, LoginRequired)
    else SubmitEffect(Some(LoginCall(username, password, Includes(ToLowerAscii(username), "admin"))), "")
  }

  /** `handleSignupSubmit`: the email is required but not passed on. */
  function HandleSignupSubmit(username: string, password: string, email: string, role: string)
    : (r: SubmitEffect)
    ensures r.call.None? <==> username == "" || password == "" || email == ""
    ensures r.call.None? ==> r.error == SignupRequired
    ensures r.call.Some? ==> r.error == ""
    ensures r.call.Some? ==> && r.call.value.username == username && r.call.value.password == password
                             && (r.call.value.isAdmin <==> role == "admin")
  {
    if username == "" || password == "" || email == "" then SubmitEffect(None, SignupRequired)
    else SubmitEffect(Some(LoginCall(username, password, role == "admin")), "")
  }

  /** "admin" in any ASCII letter case anywhere in the username makes the login an admin one. */
  lemma {:induction false} AdminAnyCase(prefix: string, word: string, suffix: string, password: string)
    requires |word| == 5 && ToLowerAscii(word) == "admin" && password != ""
    ensures HandleLoginSubmit(prefix + word + suffix, password).call.Some?
    ensures HandleLoginSubmit(prefix + word + suffix, password).call.value.isAdmin
  {
    var u := prefix + word + suffix;
    var l := ToLowerAscii(u);
    assert l[|prefix|..|prefix| + 5] == "admin" by {
      forall i | 0 <= i < 5 ensures l[|prefix| + i] == "admin"[i] {
        assert u[|prefix| + i] == word[i];
        assert ToLowerAscii(word)[i] == ToLowerChar(word[i]);
      }
    }
    assert OccursAt(l, "admin", |prefix|);
  }

  /** "SuperAdmin" logs in as an admin; "jane", shorter than "admin", does not. */
  lemma LoginAdminExamples()
    ensures HandleLoginSubmit("SuperAdmin", "secret").call.value.isAdmin
    ensures !HandleLoginSubmit("jane", "secret").call.value.isAdmin
  {
    AdminAnyCase("Super", "Admin", "", "secret");
    assert "Super" + "Admin" + "" == "SuperAdmin";
    assert ToLowerAscii("jane") == "jane";
  }

  /** The signup tab starts on the "member" role, which signs up as no admin. */
  lemma InitialRoleIsMember(username: string, password: string, email: string)
    requires username != "" && password != "" && email != ""
    ensures !HandleSignupSubmit(username, password, email, InitialRole).call.value.isAdmin
  {
  }
}
