/** The `User` schema: required, trimmed, length-bounded and pattern-checked fields, the
    role enum with its default, and the password left out of ordinary reads. */
module UserModel {
  import opened Wrappers
  import opened JsString
  import opened IdLists
  import opened Schema

  /** A stored user; `password` stands for the stored (hashed) value. */
  datatype User = User(username: string, email: string, password: string, role: string)

  /** A user as every query except the login lookup reads it: the password path is `select: false`. */
  datatype Profile = Profile(username: string, email: string, role: string)

  function ProfileOf(u: User): Profile {
    Profile(u.username, u.email, u.role)
  }

  const Roles: set<string> := {"Admin", "Member"}
  const DefaultRole: string := "Member"
  const MinUsername: nat := 3
  const MinPassword: nat := 6

  // ---- the email pattern /^\w+([\.-]?\w+)*@\w+([\.-]?\w+)*(\.\w{2,3})+$/ ----

  /** `\w`. */
  predicate IsWordChar(c: char) {
    ('a' <= c <= 'z') || ('A' <= c <= 'Z') || ('0' <= c <= '9') || c == '_'
  }

  predicate IsDotOrDash(c: char) {
    c == '.' || c == '-'
  }

  /** The strings `\w+([\.-]?\w+)*` matches: word characters, with single dots or dashes
      between them, starting and ending with a word character. */
  predicate IsDottedWord(s: string) {
    && |s| > 0 && IsWordChar(s[0]) && IsWordChar(s[|s| - 1])
    && (forall i :: 0 <= i < |s| ==> IsWordChar(s[i]) || IsDotOrDash(s[i]))
    && (forall i :: 0 <= i < |s| - 1 ==> IsWordChar(s[i]) || IsWordChar(s[i + 1]))
  }

  /** One `\.\w{2,3}` group. */
  predicate IsSuffixGroup(s: string) {
    (|s| == 3 || |s| == 4) && s[0] == '.' && forall i :: 1 <= i < |s| ==> IsWordChar(s[i])
  }

  /** The strings `\w+([\.-]?\w+)*(\.\w{2,3})+` matches: a dotted word followed by one or
      more suffix groups, peeled off here from the right. */
  predicate IsDomain(s: string)
    decreases |s|
  {
    || (|s| > 3 && IsSuffixGroup(s[|s| - 3..]) && (IsDottedWord(s[..|s| - 3]) || IsDomain(s[..|s| - 3])))
    || (|s| > 4 && IsSuffixGroup(s[|s| - 4..]) && (IsDottedWord(s[..|s| - 4]) || IsDomain(s[..|s| - 4])))
  }

  /** `s` splits at `s[i] == '@'` into a dotted-word local part and a domain. */
  predicate SplitsAt(s: string, i: int) {
    0 <= i < |s| && s[i] == '@' && IsDottedWord(s[..i]) && IsDomain(s[i + 1..])
  }

  /** The whole string matches the schema's email pattern. */
  predicate IsEmail(s: string) {
    exists i :: 0 <= i < |s| && SplitsAt(s, i)
  }

  /** A dotted word followed by one suffix group is a domain. */
  lemma DomainOfParts(host: string, suffix: string)
    requires IsDottedWord(host) && IsSuffixGroup(suffix)
    ensures IsDomain(host + suffix)
  {
    var d := host + suffix;
    assert d[|d| - |suffix|..] == suffix && d[..|d| - |suffix|] == host;
  }

  /** A dotted word, '@' and a domain make an address. */
  lemma EmailOfParts(local: string, domain: string)
    requires IsDottedWord(local) && IsDomain(domain)
    ensures IsEmail(local + "@" + domain)
  {
    var s := local + "@" + domain;
    assert s[..|local|] == local && s[|local| + 1..] == domain;
    assert SplitsAt(s, |local|);
  }

  /** A non-empty run of word characters is a dotted word. */
  lemma WordIsDotted(w: string)
    requires |w| > 0 && forall i :: 0 <= i < |w| ==> IsWordChar(w[i])
    ensures IsDottedWord(w)
  {
  }

  /** Two dotted words joined by one dot or dash make a dotted word. */
  lemma JoinDotted(a: string, c: char, b: string)
    requires IsDottedWord(a) && IsDotOrDash(c) && IsDottedWord(b)
    ensures IsDottedWord(a + [c] + b)
  {
    var s := a + [c] + b;
    forall i | 0 <= i < |s| ensures IsWordChar(s[i]) || IsDotOrDash(s[i]) {
      if i < |a| { assert s[i] == a[i]; } else if i > |a| { assert s[i] == b[i - |a| - 1]; }
    }
    forall i | 0 <= i < |s| - 1 ensures IsWordChar(s[i]) || IsWordChar(s[i + 1]) {
      if i < |a| - 1 {
        assert s[i] == a[i] && s[i + 1] == a[i + 1];
      } else if i == |a| - 1 {
        assert s[i] == a[|a| - 1];
      } else if i == |a| {
        assert s[i + 1] == b[0];
      } else {
        assert s[i] == b[i - |a| - 1] && s[i + 1] == b[i - |a|];
      }
    }
  }

  /** "jane.doe" is a dotted word. */
  lemma LocalPartExample()
    ensures IsDottedWord("jane.doe")
  {
    WordIsDotted("jane");
    WordIsDotted("doe");
    JoinDotted("jane", '.', "doe");
    assert "jane" + ['.'] + "doe" == "jane.doe";
  }

  /** "mail.example.com" is a domain. */
  lemma DomainExample()
    ensures IsDomain("mail.example.com")
  {
    WordIsDotted("mail");
    WordIsDotted("example");
    JoinDotted("mail", '.', "example");
    assert "mail" + ['.'] + "example" == "mail.example";
    assert IsSuffixGroup(".com");
    DomainOfParts("mail.example", ".com");
    assert "mail.example" + ".com" == "mail.example.com";
  }

  /** A typical address matches. */
  lemma EmailAccepted(s: string)
    requires s == "jane.doe@mail.example.com"
    ensures IsEmail(s)
  {
    assert s == "jane.doe" + ['@'] + "mail.example.com";
    LocalPartExample();
    DomainExample();
    EmailOfParts("jane.doe", "mail.example.com");
  }

  /** A domain without a dot-suffix of two or three word characters does not. */
  lemma EmailRejected()
    ensures !IsEmail("jane@localhost")
  {
    var t := "jane@localhost";
    forall i | 0 <= i < |t| ensures !SplitsAt(t, i) {
      if i == 4 {
        var d := t[5..];
        assert d == "localhost";
        assert d[|d| - 3..][0] == 'o' && d[|d| - 4..][0] == 'h';
      } else {
        assert t[i] != '@';
      }
    }
  }

  // ---- the schema's validators, one error per path in schema order ----

  function UsernameFailure(username: string): Option<string> {
    if username == "" then Some("Please add a username")
    else if |username| < MinUsername then Some("Username must be at least 3 characters")
    else None
  }

  function EmailFailure(email: string): Option<string> {
    if email == "" then Some("Please add an email")
    else if !IsEmail(email) then Some("Please add a valid email")
    else None
  }

  function PasswordFailure(password: string): Option<string> {
    if password == "" then Some("Please add a password")
    else if |password| < MinPassword then Some("Password must be at least 6 characters")
    else None
  }

  function RoleFailure(role: string): Option<string> {
    if role in Roles then None else Some(EnumMessage(role, "role"))
  }

  function UserErrors(u: User): seq<FieldError> {
    ErrorAt("username", UsernameFailure(u.username))
      + ErrorAt("email", EmailFailure(u.email))
      + ErrorAt("password", PasswordFailure(u.password))
      + ErrorAt("role", RoleFailure(u.role))
  }

  /** What the schema demands of a stored user. */
  predicate ValidUser(u: User)
    ensures ValidUser(u) ==> && UsernameFailure(u.username).None? && EmailFailure(u.email).None?
                             && PasswordFailure(u.password).None? && RoleFailure(u.role).None?
  {
    && IsTrimmed(u.username) && |u.username| >= MinUsername
    && IsEmail(u.email)
    && |u.password| >= MinPassword
    && u.role in Roles
  }

  /** A trimmed user passes validation exactly when it is valid. */
  lemma UserErrorsEmptyIff(u: User)
    requires IsTrimmed(u.username)
    ensures UserErrors(u) == [] <==> ValidUser(u)
  {
    assert UsernameFailure(u.username).None? <==> |u.username| >= MinUsername;
    assert EmailFailure(u.email).None? <==> IsEmail(u.email);
    assert PasswordFailure(u.password).None? <==> |u.password| >= MinPassword;
    assert RoleFailure(u.role).None? <==> u.role in Roles;
  }

  /** `User.create`: trim the username, default the role, then validate. The result is
      a valid user exactly when validation passes, and otherwise the validation error. */
  function CreateUser(username: string, email: string, password: string, role: Option<string>): (r: Result<User>)
    ensures var u := User(Trim(username), email, password, if role.None? then DefaultRole else role.value);
      && (r.Ok? <==> ValidUser(u))
      && (r.Ok? ==> r.value == u)
      && (r.Err? ==> r.msg == ValidationMessage("User", UserErrors(u)) && UserErrors(u) != [])
  {
    var u := User(Trim(username), email, password, if role.None? then DefaultRole else role.value);
    var errs := UserErrors(u);
    UserErrorsEmptyIff(u);
    if errs == [] then Ok(u) else Err(ValidationMessage("User", errs))
  }

  /** A valid user is accepted unchanged when created from its own fields. */
  lemma CreateUserAcceptsValid(u: User)
    requires ValidUser(u)
    ensures CreateUser(u.username, u.email, u.password, Some(u.role)) == Ok(u)
  {
    TrimOfTrimmed(u.username);
  }

  /** With no role given, the created user is a Member. */
  lemma CreateUserDefaultsRole(username: string, email: string, password: string)
    ensures var r := CreateUser(username, email, password, None);
      r.Ok? ==> r.value.role == DefaultRole
  {
  }
}
