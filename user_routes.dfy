/** The signup and login routes of the API server: the email format test,
    the ordered chain of validation checks with the first failing one
    deciding the response, the mapping of storage errors, and the login
    response with its default role. Hashing, storage and the HTTP layer are
    parameters. */
module UserRoutes {
  import opened Wrappers
  import opened Text

  const INVALID_EMAIL: string := "Invalid email format"
  const SHORT_PASSWORD: string := "Password must be at least 6 characters long"
  const PASSWORD_MISMATCH: string := "Passwords do not match"
  const EMAIL_EXISTS: string := "Email already exists"
  const CREATE_ERROR: string := "Error creating user"
  const CREATED: string := "User created successfully"
  const BAD_CREDENTIALS: string := "Invalid email or password"
  const DEFAULT_ROLE: string := "user"

  /** MongoDB's duplicate-key error code. */
  const DUPLICATE_KEY: int := 11000

  const MIN_PASSWORD_LENGTH: nat := 6

  /** A character `[^\s@]` admits. */
  predicate Plain(c: char)
  {
    c != '@' && !IsSpace(c)
  }

  /** `/^[^\s@]+@[^\s@]+\.[^\s@]+$/.test(s)`, read off the pattern: `s`
      is a non-empty run of plain characters, '@', a non-empty run, '.',
      and a non-empty run. ('.' is itself plain, so the domain may hold
      further dots.) */
  ghost predicate EmailPattern(s: string)
  {
    exists i, j :: 0 < i && i + 1 < j && j + 1 < |s| && s[i] == '@' && s[j] == '.' &&
      PlainExcept(s, i, j)
  }

  /** The position of the first `c` in `s`, or -1. */
  function IndexOf(s: string, c: char): (r: int)
    ensures -1 <= r < |s|
    ensures r == -1 <==> c !in s
    ensures r >= 0 ==> s[r] == c && c !in s[..r]
  {
    if s == [] then -1
    else if s[0] == c then 0
    else
      var r := IndexOf(s[1..], c);
      assert r >= 0 ==> s[..r + 1] == [s[0]] + s[1..][..r];
      if r == -1 then -1 else r + 1
  }

  predicate NoSpace(s: string)
  {
    forall k :: 0 <= k < |s| ==> !IsSpace(s[k])
  }

  /** The decision the route makes: no whitespace, a first '@' that is not
      the first character and is the only one, and a '.' strictly inside
      the part after it. */
  predicate ValidEmail(s: string)
    ensures ValidEmail(s) ==> 5 <= |s| && s[0] != '@' && '@' in s && NoSpace(s)
  {
    var at := IndexOf(s, '@');
    var domain := if at >= 0 then s[at + 1..] else [];
    NoSpace(s) && at > 0 && '@' !in domain &&
    |domain| >= 3 && '.' in domain[1..|domain| - 1]
  }

  lemma ValidEmailIsPattern(s: string)
    requires ValidEmail(s)
    ensures EmailPattern(s)
  {
    var at := IndexOf(s, '@');
    var domain := s[at + 1..];
    var inner := domain[1..|domain| - 1];
    var p :| 0 <= p < |inner| && inner[p] == '.';
    var j := at + 2 + p;
    assert s[j] == '.';
    forall k | 0 <= k < |s| && k != at && k != j ensures Plain(s[k]) {
      if k < at {
        assert s[k] == s[..at][k];
      } else {
        assert s[k] == domain[k - at - 1];
      }
    }
    assert 0 < at && at + 1 < j && j + 1 < |s| && s[at] == '@' && PlainExcept(s, at, j);
  }

  /** A `c` with none before it is the first one. */
  lemma IndexOfIsFirst(s: string, c: char, i: nat)
    requires i < |s| && s[i] == c
    requires forall k :: 0 <= k < i ==> s[k] != c
    ensures IndexOf(s, c) == i
  {
  }

  /** The characters of a matched string other than its '@' and its
      separating '.' are plain. */
  predicate PlainExcept(s: string, i: int, j: int)
  {
    forall k :: 0 <= k < |s| && k != i && k != j ==> Plain(s[k])
  }

  lemma MatchHasNoSpace(s: string, i: nat, j: nat)
    requires i < |s| && j < |s| && s[i] == '@' && s[j] == '.' && PlainExcept(s, i, j)
    ensures NoSpace(s)
  {
    forall k | 0 <= k < |s| ensures !IsSpace(s[k]) {
      if k != i && k != j {
        assert Plain(s[k]);
      }
    }
  }

  lemma MatchHasOneAt(s: string, i: nat, j: nat)
    requires i < j < |s| && s[i] == '@' && s[j] == '.' && PlainExcept(s, i, j)
    ensures IndexOf(s, '@') == i
    ensures '@' !in s[i + 1..]
  {
    forall k | 0 <= k < i ensures s[k] != '@' {
      assert Plain(s[k]);
    }
    IndexOfIsFirst(s, '@', i);
    var domain := s[i + 1..];
    forall k | 0 <= k < |domain| ensures domain[k] != '@' {
      assert domain[k] == s[i + 1 + k];
      if i + 1 + k != j {
        assert Plain(s[i + 1 + k]);
      }
    }
  }

  lemma MatchIsValid(s: string, i: nat, j: nat)
    requires 0 < i && i + 1 < j && j + 1 < |s| && s[i] == '@' && s[j] == '.'
    requires PlainExcept(s, i, j)
    ensures ValidEmail(s)
  {
    MatchHasNoSpace(s, i, j);
    MatchHasOneAt(s, i, j);
    var domain := s[i + 1..];
    var inner := domain[1..|domain| - 1];
    assert inner[j - i - 2] == '.';
    assert '.' in inner;
  }

  lemma PatternIsValidEmail(s: string)
    requires EmailPattern(s)
    ensures ValidEmail(s)
  {
    var i, j :| 0 < i && i + 1 < j && j + 1 < |s| && s[i] == '@' && s[j] == '.' &&
      PlainExcept(s, i, j);
    MatchIsValid(s, i, j);
  }

  /** The decision function accepts exactly the strings the pattern
      matches. */
  lemma ValidEmailMatchesPattern(s: string)
    ensures ValidEmail(s) <==> EmailPattern(s)
  {
    if ValidEmail(s) {
      ValidEmailIsPattern(s);
    }
    if EmailPattern(s) {
      PatternIsValidEmail(s);
    }
  }

  /** Example: a well-formed address passes. */
  lemma EmailAccepted()
    ensures ValidEmail("a@b.co")
  {
    var s := "a@b.co";
    assert s[1] == '@' && s[3] == '.';
    assert PlainExcept(s, 1, 3);
    MatchIsValid(s, 1, 3);
  }

  /** Example: a dot at the end of the domain fails. */
  lemma EmailTrailingDotRejected()
    ensures !ValidEmail("a@b.")
  {
    var s := "a@b.";
    IndexOfIsFirst(s, '@', 1);
    assert s[2..] == "b.";
  }

  /** Example: a second '@' fails. */
  lemma EmailSecondAtRejected()
    ensures !ValidEmail("a@@b.co")
  {
    var s := "a@@b.co";
    IndexOfIsFirst(s, '@', 1);
    assert s[2..][0] == '@';
  }

  /** The fields of a signup request the route checks. */
  datatype SignupRequest = SignupRequest(email: string, password: string, passwordConfirm: string)

  /** What saving the new user does: it succeeds, or fails with an error
      code. */
  datatype SaveOutcome = Saved | SaveFailed(code: int)

  datatype Reply = Reply(status: int, message: string)

  /** `POST /auth/signup`: the email format, then the password length, then
      the confirmation; the first failing check is answered with 400 and its
      message. Past the checks, the save outcome decides: success, a
      duplicate email (400), or any other failure (500). */
  function Signup(req: SignupRequest, save: SaveOutcome): (r: Reply)
    ensures !ValidEmail(req.email) ==> r == Reply(400, INVALID_EMAIL)
    ensures ValidEmail(req.email) && |req.password| < MIN_PASSWORD_LENGTH ==> r == Reply(400, SHORT_PASSWORD)
    ensures ValidEmail(req.email) && |req.password| >= MIN_PASSWORD_LENGTH && req.password != req.passwordConfirm ==>
      r == Reply(400, PASSWORD_MISMATCH)
    ensures r.status == 200 <==>
      ValidEmail(req.email) && |req.password| >= MIN_PASSWORD_LENGTH &&
      req.password == req.passwordConfirm && save.Saved?
    ensures r.status == 500 <==>
      ValidEmail(req.email) && |req.password| >= MIN_PASSWORD_LENGTH &&
      req.password == req.passwordConfirm && save.SaveFailed? && save.code != DUPLICATE_KEY
  {
    if !ValidEmail(req.email) then Reply(400, INVALID_EMAIL)
    else if |req.password| < MIN_PASSWORD_LENGTH then Reply(400, SHORT_PASSWORD)
    else if req.password != req.passwordConfirm then Reply(400, PASSWORD_MISMATCH)
    else match save
      case Saved => Reply(200, CREATED)
      case SaveFailed(code) =>
        if code == DUPLICATE_KEY then Reply(400, EMAIL_EXISTS) else Reply(500, CREATE_ERROR)
  }

  /** The length bound is inclusive at six: five characters fail it, six
      pass it, whatever the confirmation. */
  lemma PasswordLengthBoundary(email: string, save: SaveOutcome)
    requires ValidEmail(email)
    ensures Signup(SignupRequest(email, "12345", "12345"), save) == Reply(400, SHORT_PASSWORD)
    ensures Signup(SignupRequest(email, "123456", "123456"), save).message != SHORT_PASSWORD
    ensures Signup(SignupRequest(email, "123456", "654321"), save) == Reply(400, PASSWORD_MISMATCH)
  {
  }

  /** A duplicate key is reported as an existing email, and only then. */
  lemma DuplicateKeyIsExistingEmail(req: SignupRequest, save: SaveOutcome)
    requires ValidEmail(req.email) && |req.password| >= MIN_PASSWORD_LENGTH && req.password == req.passwordConfirm
    ensures Signup(req, save) == Reply(400, EMAIL_EXISTS) <==> save == SaveFailed(DUPLICATE_KEY)
  {
  }

  /** A stored user; `role` is "" when unset. */
  datatype User = User(id: string, name: string, lastName: string, email: string,
                       department: string, passwordHash: string, role: string)

  /** The `data` of a successful login. */
  datatype Profile = Profile(id: string, name: string, lastName: string, email: string,
                             department: string, role: string)

  datatype LoginResult = LoginFailed(reply: Reply) | LoggedIn(profile: Profile)

  /** `POST /auth/login`: the email format (400), then the lookup by email
      and the password comparison, which fail with one and the same 401;
      on success the user's profile, with role "user" when none is set.
      `users` is the user collection keyed by email and `matches` stands
      for the hash comparison. */
  function Login(email: string, password: string, users: map<string, User>,
                 matches: (string, string) -> bool): (r: LoginResult)
    ensures !ValidEmail(email) ==> r == LoginFailed(Reply(400, INVALID_EMAIL))
    ensures ValidEmail(email) && (email !in users || !matches(password, users[email].passwordHash)) ==>
      r == LoginFailed(Reply(401, BAD_CREDENTIALS))
    ensures r.LoggedIn? <==> ValidEmail(email) && email in users && matches(password, users[email].passwordHash)
    ensures r.LoggedIn? ==> r.profile.role != "" && r.profile.email == users[email].email
  {
    if !ValidEmail(email) then LoginFailed(Reply(400, INVALID_EMAIL))
    else if email !in users then LoginFailed(Reply(401, BAD_CREDENTIALS))
    else
      var user := users[email];
      if !matches(password, user.passwordHash) then LoginFailed(Reply(401, BAD_CREDENTIALS))
      else LoggedIn(Profile(user.id, user.name, user.lastName, user.email, user.department,
                            if user.role != "" then user.role else DEFAULT_ROLE))
  }

  /** The login answer does not tell an unknown email from a wrong
      password. */
  lemma LoginDoesNotRevealAccounts(email: string, password: string, users: map<string, User>,
                                   matches: (string, string) -> bool, other: string)
    requires ValidEmail(email) && email in users && !matches(password, users[email].passwordHash)
    requires ValidEmail(other) && other !in users
    ensures Login(email, password, users, matches) == Login(other, password, users, matches)
  {
  }

  /** The profile's role is the stored role, or "user" when none is set. */
  lemma LoginDefaultRole(email: string, password: string, users: map<string, User>,
                         matches: (string, string) -> bool)
    requires Login(email, password, users, matches).LoggedIn?
    ensures var role := Login(email, password, users, matches).profile.role;
      (users[email].role == "" ==> role == DEFAULT_ROLE) &&
      (users[email].role != "" ==> role == users[email].role)
  {
  }
}
