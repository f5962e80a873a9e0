/** The auth service: the username and password rules, the generated
    username, login, token verification, password change, admin user
    creation and student self-registration. Password hashing and JWT
    verification are given as functions; the service signs the payloads
    the model returns. */
module Accounts {
  import opened Common
  import opened Records
  import opened SharedAuth

  const AUTH_DEFAULT_SECRET := "school-management-secret-key-change-in-production"
  const LOGIN_REQUIRED := "Username and password are required"
  const INVALID_CREDENTIALS := "Invalid credentials"
  const TOKEN_REQUIRED := "Token is required"
  const TOKEN_EXPIRED := "Token expired"
  const INVALID_TOKEN := "Invalid token"
  const NO_TOKEN := "No token provided"
  const PASSWORDS_REQUIRED := "Current and new passwords are required"
  const NEW_PASSWORD_SHORT := "New password must be at least 6 characters"
  const INTERNAL := "Internal server error"
  const USER_NOT_FOUND := "User not found"
  const WRONG_PASSWORD := "Current password is incorrect"
  const FORBIDDEN := "Forbidden: Admin access required"
  const CREATE_REQUIRED := "Username, email, password, and role are required"
  const DUPLICATE_USER := "Username or email already exists"
  const USERNAME_SHORT := "Username must be at least 3 characters"
  const USERNAME_CHARS := "Username can only contain letters, numbers, dots, underscores, and hyphens"
  const REGISTER_REQUIRED := "First name, last name, email, and password are required"
  const PASSWORD_SHORT := "Password must be at least 6 characters"
  const EMAIL_TAKEN := "Email already registered"
  const USERNAME_TAKEN := "Username already taken"
  const ACTIVE := "active"
  const ADMIN := "admin"
  const TEACHER := "teacher"
  const STUDENT := "student"
  const MIN_USERNAME := 3
  const MIN_PASSWORD := 6

  /** `process.env.JWT_SECRET || <the auth service's own default>`. */
  function AuthSecret(jwtSecret: Option<string>): (s: string)
    ensures TextGiven(jwtSecret) ==> s == jwtSecret.value
    ensures !TextGiven(jwtSecret) ==> s == AUTH_DEFAULT_SECRET
  {
    if TextGiven(jwtSecret) then jwtSecret.value else AUTH_DEFAULT_SECRET
  }

  /** Without `JWT_SECRET`, outside production, the auth service signs with
      one default and the shared middleware of the other services verifies
      with another. */
  lemma DefaultSecretsDiffer(nodeEnv: Option<string>)
    requires nodeEnv != Some(PRODUCTION)
    ensures EffectiveSecret(None, nodeEnv).Secret?
    ensures AuthSecret(None) != EffectiveSecret(None, nodeEnv).value
  {
    assert |AUTH_DEFAULT_SECRET| != |DEV_SECRET|;
  }

  // ---------------------------------------------------------------------
  // Rows.

  /** A row of `users`. */
  datatype User = User(
    id: int,
    username: string,
    email: string,
    passwordHash: string,
    role: string,
    relatedId: Option<int>,
    status: string)

  /** A row of `students`, with the columns the service writes. */
  datatype Student = Student(
    id: int,
    firstName: string,
    lastName: string,
    email: string,
    phone: Option<string>,
    address: Option<string>,
    status: string)

  /** Ids increase along the table, so no two rows share one. */
  predicate IncreasingIds(users: seq<User>)
  {
    forall i, j :: 0 <= i < j < |users| ==> users[i].id < users[j].id
  }

  predicate IncreasingStudentIds(students: seq<Student>)
  {
    forall i, j :: 0 <= i < j < |students| ==> students[i].id < students[j].id
  }

  /** `SELECT ... FROM users WHERE id = ? AND status = "active"`, `rows[0]`. */
  function FindActiveUser(users: seq<User>, id: int): (r: Option<User>)
    ensures r.Some? ==> r.value in users && r.value.id == id && r.value.status == ACTIVE
    ensures r.None? <==> forall k :: 0 <= k < |users| ==> !(users[k].id == id && users[k].status == ACTIVE)
  {
    First(users, (u: User) => u.id == id && u.status == ACTIVE)
  }

  /** With distinct ids, the lookup by id finds the one active row that
      has it. */
  lemma FindActiveUserUnique(users: seq<User>, u: User)
    requires IncreasingIds(users)
    requires u in users && u.status == ACTIVE
    ensures FindActiveUser(users, u.id) == Some(u)
  {
    var r := FindActiveUser(users, u.id);
    var k :| 0 <= k < |users| && users[k] == u;
    var j :| 0 <= j < |users| && users[j] == r.value;
    assert j == k;
  }

  // ---------------------------------------------------------------------
  // Username and password rules.

  /** One character of the class `[a-zA-Z0-9._-]`. */
  predicate UsernameChar(c: char)
  {
    ('a' <= c <= 'z') || ('A' <= c <= 'Z') || ('0' <= c <= '9') || c == '.' || c == '_' || c == '-'
  }

  /** `/^[a-zA-Z0-9._-]+$/.test(s)`, read the way the pattern is built:
      one character of the class, then either the end or another match. */
  predicate MatchesUsernamePattern(s: string)
    decreases |s|
  {
    s != [] && UsernameChar(s[0]) && (|s| == 1 || MatchesUsernamePattern(s[1..]))
  }

  /** The pattern accepts exactly the non-empty strings over the class. */
  lemma {:induction false} PatternMeansCharset(s: string)
    ensures MatchesUsernamePattern(s) <==> |s| >= 1 && forall i :: 0 <= i < |s| ==> UsernameChar(s[i])
    decreases |s|
  {
    if |s| > 1 {
      PatternMeansCharset(s[1..]);
      assert forall i :: 1 <= i < |s| ==> s[i] == s[1..][i - 1];
    }
  }

  /** The two checks `check-username` and registration apply, in order. */
  function UsernameProblem(u: string): (r: Option<string>)
    ensures r.None? <==> |u| >= MIN_USERNAME && forall i :: 0 <= i < |u| ==> UsernameChar(u[i])
    ensures |u| < MIN_USERNAME ==> r == Some(USERNAME_SHORT)
    ensures |u| >= MIN_USERNAME && !(forall i :: 0 <= i < |u| ==> UsernameChar(u[i])) ==> r == Some(USERNAME_CHARS)
  {
    PatternMeansCharset(u);
    if |u| < MIN_USERNAME then Some(USERNAME_SHORT)
    else if !MatchesUsernamePattern(u) then Some(USERNAME_CHARS)
    else None
  }

  /** The answer of `GET /check-username/:username`. */
  datatype CheckReply = CheckRejected(error: string) | CheckAnswer(available: bool, username: string)

  /** `SELECT id FROM users WHERE email = ?` finds a row. */
  predicate EmailTaken(users: seq<User>, email: string)
  {
    exists k :: 0 <= k < |users| && users[k].email == email
  }

  /** `LOWER(username) = LOWER(?)` against the users table. */
  predicate UsernameTaken(users: seq<User>, u: string)
  {
    exists k :: 0 <= k < |users| && Lower(users[k].username) == Lower(u)
  }

  function CheckUsername(users: seq<User>, u: string): (r: CheckReply)
    ensures r.CheckRejected? <==> UsernameProblem(u).Some?
    ensures r.CheckRejected? ==> r.error == UsernameProblem(u).value
    ensures r.CheckAnswer? ==> r.username == u && (r.available <==> !UsernameTaken(users, u))
  {
    match UsernameProblem(u)
    case Some(e) => CheckRejected(e)
    case None => CheckAnswer(!UsernameTaken(users, u), u)
  }

  /** Case-insensitively equal names are taken together. */
  lemma TakenIgnoresCase(users: seq<User>, u: string)
    ensures UsernameTaken(users, Lower(u)) <==> UsernameTaken(users, u)
  {
    LowerIdempotent(u);
  }

  /** The body of `POST /register/student`. */
  datatype Registration = Registration(
    firstName: Option<string>,
    lastName: Option<string>,
    email: Option<string>,
    phone: Option<string>,
    address: Option<string>,
    password: Option<string>,
    username: Option<string>)

  predicate RegistrationComplete(req: Registration)
  {
    TextGiven(req.firstName) && TextGiven(req.lastName) && TextGiven(req.email) && TextGiven(req.password)
  }

  /** The request checks of registration, reported first-failure-first. */
  function RegistrationProblem(req: Registration): (r: Option<string>)
    ensures !RegistrationComplete(req) ==> r == Some(REGISTER_REQUIRED)
    ensures RegistrationComplete(req) && |req.password.value| < MIN_PASSWORD ==> r == Some(PASSWORD_SHORT)
    ensures RegistrationComplete(req) && |req.password.value| >= MIN_PASSWORD && TextGiven(req.username) ==>
      r == UsernameProblem(req.username.value)
    ensures r.None? <==>
      RegistrationComplete(req) && |req.password.value| >= MIN_PASSWORD
      && (TextGiven(req.username) ==> UsernameProblem(req.username.value).None?)
  {
    if !RegistrationComplete(req) then Some(REGISTER_REQUIRED)
    else if |req.password.value| < MIN_PASSWORD then Some(PASSWORD_SHORT)
    else if TextGiven(req.username) then UsernameProblem(req.username.value)
    else None
  }

  /** A chosen username passes registration exactly when `check-username`
      would not reject it, and with the same message when it would. */
  lemma RegistrationAgreesWithCheck(req: Registration, users: seq<User>)
    requires RegistrationComplete(req) && |req.password.value| >= MIN_PASSWORD && TextGiven(req.username)
    ensures RegistrationProblem(req).None? <==> CheckUsername(users, req.username.value).CheckAnswer?
    ensures RegistrationProblem(req).Some? ==>
      CheckUsername(users, req.username.value) == CheckRejected(RegistrationProblem(req).value)
  {
  }

  /** `${firstName.toLowerCase()}.${lastName.toLowerCase()}${studentId}`. */
  function GeneratedUsername(first: string, last: string, studentId: nat): (u: string)
    ensures |u| == |first| + 1 + |last| + |Decimal(studentId)|
    ensures u[..|first|] == Lower(first) && u[|first|] == '.'
    ensures u[|first| + 1..|first| + 1 + |last|] == Lower(last)
    ensures u[|u| - |Decimal(studentId)|..] == Decimal(studentId)
  {
    Lower(first) + "." + Lower(last) + Decimal(studentId)
  }

  /** The generated name ends in the student id, which can be read back. */
  lemma GeneratedUsernameEndsWithId(first: string, last: string, studentId: nat)
    ensures ParseDecimal(GeneratedUsername(first, last, studentId)[|GeneratedUsername(first, last, studentId)| - |Decimal(studentId)|..]) == studentId
  {
    DecimalRoundTrip(studentId);
  }

  /** Names made of username characters give a name `check-username`
      accepts. */
  lemma {:induction false} GeneratedUsernameValid(first: string, last: string, studentId: nat)
    requires first != [] && last != []
    requires forall i :: 0 <= i < |first| ==> UsernameChar(first[i])
    requires forall i :: 0 <= i < |last| ==> UsernameChar(last[i])
    ensures UsernameProblem(GeneratedUsername(first, last, studentId)).None?
  {
    var u := GeneratedUsername(first, last, studentId);
    var d := Decimal(studentId);
    assert u == Lower(first) + "." + Lower(last) + d;
    forall i | 0 <= i < |u|
      ensures UsernameChar(u[i])
    {
      if i < |first| {
        assert u[i] == LowerChar(first[i]);
      } else if i == |first| {
      } else if i < |first| + 1 + |last| {
        assert u[i] == LowerChar(last[i - |first| - 1]);
      } else {
        assert u[i] == d[i - |first| - 1 - |last|];
      }
    }
  }

  /** The generated name is not checked against the username rule: a first
      name with a space gives a name `check-username` would refuse. */
  lemma GeneratedUsernameCanBreakRule()
    ensures UsernameProblem(GeneratedUsername("Mary Ann", "Lee", 7)) == Some(USERNAME_CHARS)
  {
    var u := GeneratedUsername("Mary Ann", "Lee", 7);
    assert u[4] == ' ';
  }

  // ---------------------------------------------------------------------
  // Login and token verification.

  /** The extra record attached to a login answer. */
  datatype Profile = NoProfile | TeacherProfile(teacher: Teacher) | StudentProfile(student: Student)

  /** `SELECT ... FROM students WHERE id = ?`, `rows[0]`. */
  function FindStudent(students: seq<Student>, id: int): (r: Option<Student>)
    ensures r.Some? ==> r.value in students && r.value.id == id
    ensures r.None? <==> forall k :: 0 <= k < |students| ==> students[k].id != id
  {
    First(students, (s: Student) => s.id == id)
  }

  /** A teacher user with a truthy `related_id` gets the teacher row, a
      student user the student row, when the row exists; anyone else
      nothing. */
  function ProfileFor(u: User, teachers: seq<Teacher>, students: seq<Student>): (p: Profile)
    ensures p.TeacherProfile? <==>
      u.role == TEACHER && IdGiven(u.relatedId) && FindTeacher(teachers, u.relatedId.value).Some?
    ensures p.TeacherProfile? ==> p.teacher in teachers && p.teacher.id == u.relatedId.value
    ensures p.StudentProfile? <==>
      u.role == STUDENT && IdGiven(u.relatedId) && FindStudent(students, u.relatedId.value).Some?
    ensures p.StudentProfile? ==> p.student in students && p.student.id == u.relatedId.value
  {
    if u.role == TEACHER && IdGiven(u.relatedId) then
      match FindTeacher(teachers, u.relatedId.value)
      case Some(t) => TeacherProfile(t)
      case None => NoProfile
    else if u.role == STUDENT && IdGiven(u.relatedId) then
      match FindStudent(students, u.relatedId.value)
      case Some(s) => StudentProfile(s)
      case None => NoProfile
    else NoProfile
  }

  /** `(username = ? OR email = ?) AND status = "active"`. */
  predicate LoginName(u: User, name: string)
  {
    (u.username == name || u.email == name) && u.status == ACTIVE
  }

  function FindLoginUser(users: seq<User>, name: string): (r: Option<User>)
    ensures r.Some? ==> r.value in users && LoginName(r.value, name)
    ensures r.None? <==> forall k :: 0 <= k < |users| ==> !LoginName(users[k], name)
  {
    First(users, (u: User) => LoginName(u, name))
  }

  /** The payload `jwt.sign` receives at login. */
  function ClaimsOf(u: User): (c: Claims)
    ensures c.userId == u.id && c.username == u.username && c.role == u.role && c.relatedId == u.relatedId
  {
    Claims(u.id, u.username, u.role, u.relatedId)
  }

  datatype LoginReply = LoginRejected(code: int, error: string) | LoggedIn(claims: Claims, user: User, profile: Profile)

  /** `POST /login`. `matches(password, hash)` is `bcrypt.compare`. */
  function Login(users: seq<User>, teachers: seq<Teacher>, students: seq<Student>,
                 username: Option<string>, password: Option<string>,
                 matches: (string, string) -> bool): (r: LoginReply)
    ensures !(TextGiven(username) && TextGiven(password)) ==> r == LoginRejected(400, LOGIN_REQUIRED)
    ensures TextGiven(username) && TextGiven(password) && FindLoginUser(users, username.value).None? ==>
      r == LoginRejected(401, INVALID_CREDENTIALS)
    ensures TextGiven(username) && TextGiven(password) && FindLoginUser(users, username.value).Some?
            && !matches(password.value, FindLoginUser(users, username.value).value.passwordHash) ==>
      r == LoginRejected(401, INVALID_CREDENTIALS)
    ensures r.LoggedIn? <==>
      TextGiven(username) && TextGiven(password) && FindLoginUser(users, username.value).Some?
      && matches(password.value, FindLoginUser(users, username.value).value.passwordHash)
    ensures r.LoginRejected? && r.code == 401 ==> r.error == INVALID_CREDENTIALS
    ensures r.LoggedIn? ==>
      r.user in users && LoginName(r.user, username.value) && matches(password.value, r.user.passwordHash)
      && r.claims == ClaimsOf(r.user) && r.profile == ProfileFor(r.user, teachers, students)
  {
    if !(TextGiven(username) && TextGiven(password)) then LoginRejected(400, LOGIN_REQUIRED)
    else
      match FindLoginUser(users, username.value)
      case None => LoginRejected(401, INVALID_CREDENTIALS)
      case Some(u) =>
        if !matches(password.value, u.passwordHash) then LoginRejected(401, INVALID_CREDENTIALS)
        else LoggedIn(ClaimsOf(u), u, ProfileFor(u, teachers, students))
  }

  datatype VerifyReply = VerifyRejected(code: int, error: string) | VerifyOk(user: User)

  /** `POST /verify`. `jwt` is `jwt.verify` under the service's secret. */
  function VerifyEndpoint(users: seq<User>, jwt: string -> JwtResult, token: Option<string>): (r: VerifyReply)
    ensures !TextGiven(token) ==> r == VerifyRejected(400, TOKEN_REQUIRED)
    ensures TextGiven(token) && jwt(token.value).JwtExpired? ==> r == VerifyRejected(401, TOKEN_EXPIRED)
    ensures TextGiven(token) && jwt(token.value).JwtMalformed? ==> r == VerifyRejected(401, INVALID_TOKEN)
    ensures TextGiven(token) && jwt(token.value).JwtOk? && FindActiveUser(users, jwt(token.value).claims.userId).None? ==>
      r == VerifyRejected(401, INVALID_TOKEN)
    ensures r.VerifyOk? <==>
      TextGiven(token) && jwt(token.value).JwtOk? && FindActiveUser(users, jwt(token.value).claims.userId).Some?
    ensures r.VerifyOk? ==> r.user == FindActiveUser(users, jwt(token.value).claims.userId).value
    ensures r.VerifyRejected? && r.code == 401 && r.error != TOKEN_EXPIRED ==> r.error == INVALID_TOKEN
  {
    if !TextGiven(token) then VerifyRejected(400, TOKEN_REQUIRED)
    else
      match jwt(token.value)
      case JwtExpired => VerifyRejected(401, TOKEN_EXPIRED)
      case JwtMalformed => VerifyRejected(401, INVALID_TOKEN)
      case JwtOk(c) =>
        match FindActiveUser(users, c.userId)
        case None => VerifyRejected(401, INVALID_TOKEN)
        case Some(u) => VerifyOk(u)
  }

  /** A token carrying the login payload verifies to the user who logged
      in, as long as the table has not changed. */
  lemma LoginTokenVerifies(users: seq<User>, teachers: seq<Teacher>, students: seq<Student>,
                           username: Option<string>, password: Option<string>,
                           matches: (string, string) -> bool, jwt: string -> JwtResult, token: string)
    requires IncreasingIds(users)
    requires Login(users, teachers, students, username, password, matches).LoggedIn?
    requires token != "" && jwt(token) == JwtOk(Login(users, teachers, students, username, password, matches).claims)
    ensures VerifyEndpoint(users, jwt, Some(token)) == VerifyOk(Login(users, teachers, students, username, password, matches).user)
  {
    var u := Login(users, teachers, students, username, password, matches).user;
    FindActiveUserUnique(users, u);
  }

  // ---------------------------------------------------------------------
  // Password change and admin user creation.

  /** `pat` occurs in `s` starting at position `k`. */
  predicate OccursAt(s: string, pat: string, k: int)
  {
    0 <= k && k + |pat| <= |s| && s[k..k + |pat|] == pat
  }

  /** `k` is the first position where `pat` occurs in `s`. */
  predicate FirstOccurrence(s: string, pat: string, k: int)
  {
    OccursAt(s, pat, k) && forall j :: 0 <= j < k ==> !OccursAt(s, pat, j)
  }

  /** `req.headers.authorization?.replace('Bearer ', '')`: the first
      occurrence of the pattern, wherever it is, is replaced (see
      `ReplaceFirstMeaning`). */
  function ReplaceFirst(s: string, pat: string, rep: string): (r: string)
    requires pat != []
    ensures StartsWith(s, pat) ==> r == rep + s[|pat|..]
    ensures |s| < |pat| ==> r == s
    decreases |s|
  {
    if |s| < |pat| then s
    else if s[..|pat|] == pat then rep + s[|pat|..]
    else [s[0]] + ReplaceFirst(s[1..], pat, rep)
  }

  /** Occurrences in `s[1..]` are the occurrences in `s` one place on. */
  lemma OccursShift(s: string, pat: string, k: int)
    requires s != [] && 0 < k
    ensures OccursAt(s, pat, k) <==> OccursAt(s[1..], pat, k - 1)
  {
    if k + |pat| <= |s| {
      assert s[1..][k - 1..k - 1 + |pat|] == s[k..k + |pat|];
    }
  }

  /** `replace` with a string pattern: a string without the pattern is
      kept, and otherwise its first occurrence, wherever it is, becomes the
      replacement. */
  lemma ReplaceFirstMeaning(s: string, pat: string, rep: string)
    requires pat != []
    ensures (forall k :: !OccursAt(s, pat, k)) ==> ReplaceFirst(s, pat, rep) == s
    ensures forall k :: FirstOccurrence(s, pat, k) ==> ReplaceFirst(s, pat, rep) == s[..k] + rep + s[k + |pat|..]
  {
    if forall k :: !OccursAt(s, pat, k) {
      ReplaceFirstAbsent(s, pat, rep);
    }
    forall k | FirstOccurrence(s, pat, k)
      ensures ReplaceFirst(s, pat, rep) == s[..k] + rep + s[k + |pat|..]
    {
      ReplaceFirstAt(s, pat, rep, k);
    }
  }

  lemma {:induction false} ReplaceFirstAbsent(s: string, pat: string, rep: string)
    requires pat != []
    requires forall k :: !OccursAt(s, pat, k)
    ensures ReplaceFirst(s, pat, rep) == s
    decreases |s|
  {
    if |s| >= |pat| {
      assert !OccursAt(s, pat, 0);
      var t := s[1..];
      forall k | 0 <= k
        ensures !OccursAt(t, pat, k)
      {
        OccursShift(s, pat, k + 1);
      }
      ReplaceFirstAbsent(t, pat, rep);
      assert s == [s[0]] + t;
    }
  }

  lemma {:induction false} ReplaceFirstAt(s: string, pat: string, rep: string, k: int)
    requires pat != []
    requires FirstOccurrence(s, pat, k)
    ensures ReplaceFirst(s, pat, rep) == s[..k] + rep + s[k + |pat|..]
    decreases |s|
  {
    if k == 0 {
      assert s[..|pat|] == pat;
      assert s[..k] + rep + s[k + |pat|..] == rep + s[|pat|..];
    } else {
      ReplaceFirstSkips(s, pat, rep);
      FirstOccurrenceShift(s, pat, k);
      ReplaceFirstAt(s[1..], pat, rep, k - 1);
      SpliceShift(s, pat, rep, k);
    }
  }

  /** When the pattern does not start the string, the first character is
      kept and the search goes on in the rest. */
  lemma ReplaceFirstSkips(s: string, pat: string, rep: string)
    requires pat != [] && |pat| <= |s| && !OccursAt(s, pat, 0)
    ensures ReplaceFirst(s, pat, rep) == [s[0]] + ReplaceFirst(s[1..], pat, rep)
  {
    assert s[0..|pat|] == s[..|pat|];
  }

  lemma FirstOccurrenceShift(s: string, pat: string, k: int)
    requires FirstOccurrence(s, pat, k) && 0 < k
    ensures FirstOccurrence(s[1..], pat, k - 1)
    ensures |pat| <= |s| && !OccursAt(s, pat, 0)
  {
    OccursShift(s, pat, k);
    forall j | 0 <= j < k - 1
      ensures !OccursAt(s[1..], pat, j)
    {
      OccursShift(s, pat, j + 1);
    }
  }

  lemma SpliceShift(s: string, pat: string, rep: string, k: int)
    requires 0 < k && k + |pat| <= |s|
    ensures [s[0]] + (s[1..][..k - 1] + rep + s[1..][k - 1 + |pat|..]) == s[..k] + rep + s[k + |pat|..]
  {
    assert s[..k] == [s[0]] + s[1..][..k - 1];
    assert s[1..][k - 1 + |pat|..] == s[k + |pat|..];
  }

  /** The token the password and user endpoints read. */
  function HeaderToken(header: Option<string>): (t: Option<string>)
    ensures header.None? <==> t.None?
    ensures header.Some? ==> t == Some(ReplaceFirst(header.value, BEARER, ""))
    ensures header.Some? && StartsWith(header.value, BEARER) ==> t == Some(ExtractToken(header.value))
  {
    if header.None? then None
    else
      var t := ReplaceFirst(header.value, BEARER, "");
      assert StartsWith(header.value, BEARER) ==> t == header.value[|BEARER|..];
      Some(t)
  }

  /** For a header that starts with `Bearer `, this service and the shared
      middleware read the same token (see `HeaderToken`). Elsewhere they
      differ: `replace` also strips the text from the middle of a header,
      while the middleware passes such a header on whole. */
  lemma HeaderTokenVersusShared(c: char, token: string)
    requires c != 'B'
    ensures HeaderToken(Some([c] + BEARER + token)) == Some([c] + token)
    ensures ExtractToken([c] + BEARER + token) == [c] + BEARER + token
  {
    var h := [c] + BEARER + token;
    assert !StartsWith(h, BEARER) by { assert h[0] != BEARER[0]; }
    assert h[1..] == BEARER + token;
    assert StartsWith(h[1..], BEARER);
    assert ReplaceFirst(h[1..], BEARER, "") == token by {
      assert (BEARER + token)[|BEARER|..] == token;
    }
  }

  /** The outcome of a guard chain: an error answer, or go ahead. */
  datatype Guard<T> = Refuse(code: int, error: string) | Proceed(value: T)

  /** The checks of `POST /change-password` before its one UPDATE. */
  function PasswordGuard(users: seq<User>, header: Option<string>, current: Option<string>, newPassword: Option<string>,
                         jwt: string -> JwtResult, matches: (string, string) -> bool): (g: Guard<User>)
    ensures !TextGiven(HeaderToken(header)) ==> g == Refuse(401, NO_TOKEN)
    ensures TextGiven(HeaderToken(header)) && !(TextGiven(current) && TextGiven(newPassword)) ==>
      g == Refuse(400, PASSWORDS_REQUIRED)
    ensures (TextGiven(HeaderToken(header)) && TextGiven(current) && TextGiven(newPassword)
             && |newPassword.value| < MIN_PASSWORD) ==> g == Refuse(400, NEW_PASSWORD_SHORT)
    ensures TextGiven(HeaderToken(header)) && TextGiven(current) && TextGiven(newPassword)
            && |newPassword.value| >= MIN_PASSWORD && !jwt(HeaderToken(header).value).JwtOk? ==>
      g == Refuse(500, INTERNAL)
    ensures TextGiven(HeaderToken(header)) && TextGiven(current) && TextGiven(newPassword)
            && |newPassword.value| >= MIN_PASSWORD && jwt(HeaderToken(header).value).JwtOk?
            && FindActiveUser(users, jwt(HeaderToken(header).value).claims.userId).None? ==>
      g == Refuse(401, USER_NOT_FOUND)
    ensures TextGiven(HeaderToken(header)) && TextGiven(current) && TextGiven(newPassword)
            && |newPassword.value| >= MIN_PASSWORD && jwt(HeaderToken(header).value).JwtOk?
            && FindActiveUser(users, jwt(HeaderToken(header).value).claims.userId).Some?
            && !matches(current.value, FindActiveUser(users, jwt(HeaderToken(header).value).claims.userId).value.passwordHash) ==>
      g == Refuse(401, WRONG_PASSWORD)
    ensures g.Proceed? <==>
      TextGiven(HeaderToken(header)) && TextGiven(current) && TextGiven(newPassword)
      && |newPassword.value| >= MIN_PASSWORD && jwt(HeaderToken(header).value).JwtOk?
      && FindActiveUser(users, jwt(HeaderToken(header).value).claims.userId).Some?
      && matches(current.value, FindActiveUser(users, jwt(HeaderToken(header).value).claims.userId).value.passwordHash)
    ensures g.Proceed? ==>
      g.value == FindActiveUser(users, jwt(HeaderToken(header).value).claims.userId).value
      && g.value in users && g.value.status == ACTIVE && matches(current.value, g.value.passwordHash)
    ensures g.Refuse? && g.code == 401 && TextGiven(HeaderToken(header)) ==>
      g.error == USER_NOT_FOUND || g.error == WRONG_PASSWORD
  {
    var token := HeaderToken(header);
    if !TextGiven(token) then Refuse(401, NO_TOKEN)
    else if !(TextGiven(current) && TextGiven(newPassword)) then Refuse(400, PASSWORDS_REQUIRED)
    else if |newPassword.value| < MIN_PASSWORD then Refuse(400, NEW_PASSWORD_SHORT)
    else
      match jwt(token.value)
      case JwtOk(c) =>
        (match FindActiveUser(users, c.userId)
         case None => Refuse(401, USER_NOT_FOUND)
         case Some(u) =>
           if !matches(current.value, u.passwordHash) then Refuse(401, WRONG_PASSWORD) else Proceed(u))
      case _ => Refuse(500, INTERNAL)
  }

  /** The body checks come before the token is verified: a request that
      fails them gets the same answer whatever the token and the table. */
  lemma PasswordBodyCheckedFirst(users1: seq<User>, users2: seq<User>, header: Option<string>,
                                 current: Option<string>, newPassword: Option<string>,
                                 jwt1: string -> JwtResult, jwt2: string -> JwtResult,
                                 m1: (string, string) -> bool, m2: (string, string) -> bool)
    requires !(TextGiven(current) && TextGiven(newPassword) && |newPassword.value| >= MIN_PASSWORD)
    ensures PasswordGuard(users1, header, current, newPassword, jwt1, m1)
         == PasswordGuard(users2, header, current, newPassword, jwt2, m2)
    ensures PasswordGuard(users1, header, current, newPassword, jwt1, m1).Refuse?
  {
  }

  /** `UPDATE users SET password_hash = ? WHERE id = ?`. */
  function SetHash(users: seq<User>, id: int, hash: string): (r: seq<User>)
    ensures |r| == |users|
    ensures forall k :: 0 <= k < |users| && users[k].id == id ==> r[k] == users[k].(passwordHash := hash)
    ensures forall k :: 0 <= k < |users| && users[k].id != id ==> r[k] == users[k]
  {
    seq(|users|, k requires 0 <= k < |users| =>
      if users[k].id == id then users[k].(passwordHash := hash) else users[k])
  }

  /** After the update, looking the user up by id gives the same row with
      the new hash, and the id order is kept. */
  lemma SetHashFindsUpdated(users: seq<User>, u: User, hash: string)
    requires IncreasingIds(users) && u in users && u.status == ACTIVE
    ensures IncreasingIds(SetHash(users, u.id, hash))
    ensures FindActiveUser(SetHash(users, u.id, hash), u.id) == Some(u.(passwordHash := hash))
  {
    var r := SetHash(users, u.id, hash);
    var k :| 0 <= k < |users| && users[k] == u;
    assert r[k] == u.(passwordHash := hash);
    FindActiveUserUnique(r, u.(passwordHash := hash));
  }

  /** The body of the admin `POST /users`. */
  datatype NewUser = NewUser(
    username: Option<string>,
    email: Option<string>,
    password: Option<string>,
    role: Option<string>,
    relatedId: Option<int>)

  predicate NewUserComplete(req: NewUser)
  {
    TextGiven(req.username) && TextGiven(req.email) && TextGiven(req.password) && TextGiven(req.role)
  }

  /** The checks of the admin `POST /users` before its INSERT. */
  function CreateUserGuard(header: Option<string>, req: NewUser, jwt: string -> JwtResult): (g: Guard<Claims>)
    ensures !TextGiven(HeaderToken(header)) ==> g == Refuse(401, NO_TOKEN)
    ensures TextGiven(HeaderToken(header)) && !jwt(HeaderToken(header).value).JwtOk? ==> g == Refuse(500, INTERNAL)
    ensures (TextGiven(HeaderToken(header)) && jwt(HeaderToken(header).value).JwtOk?
             && jwt(HeaderToken(header).value).claims.role != ADMIN) ==> g == Refuse(403, FORBIDDEN)
    ensures TextGiven(HeaderToken(header)) && jwt(HeaderToken(header).value).JwtOk?
            && jwt(HeaderToken(header).value).claims.role == ADMIN && !NewUserComplete(req) ==>
      g == Refuse(400, CREATE_REQUIRED)
    ensures g.Proceed? <==>
      TextGiven(HeaderToken(header)) && jwt(HeaderToken(header).value).JwtOk?
      && jwt(HeaderToken(header).value).claims.role == ADMIN && NewUserComplete(req)
    ensures g.Proceed? ==> g.value == jwt(HeaderToken(header).value).claims
  {
    var token := HeaderToken(header);
    if !TextGiven(token) then Refuse(401, NO_TOKEN)
    else
      match jwt(token.value)
      case JwtOk(c) =>
        if c.role != ADMIN then Refuse(403, FORBIDDEN)
        else if !NewUserComplete(req) then Refuse(400, CREATE_REQUIRED)
        else Proceed(c)
      case _ => Refuse(500, INTERNAL)
  }

  /** The role check precedes field validation: a non-admin caller gets 403
      whatever the body holds. */
  lemma NonAdminRefusedBeforeFields(header: Option<string>, req1: NewUser, req2: NewUser, jwt: string -> JwtResult)
    requires TextGiven(HeaderToken(header)) && jwt(HeaderToken(header).value).JwtOk?
    requires jwt(HeaderToken(header).value).claims.role != ADMIN
    ensures CreateUserGuard(header, req1, jwt) == CreateUserGuard(header, req2, jwt) == Refuse(403, FORBIDDEN)
  {
  }

  /** The row the admin INSERT writes. */
  function AdminRow(id: int, req: NewUser, hash: string -> string): (u: User)
    requires NewUserComplete(req)
    ensures u.id == id && u.username == req.username.value && u.email == req.email.value
    ensures u.passwordHash == hash(req.password.value) && u.role == req.role.value && u.status == ACTIVE
    ensures u.relatedId == if IdGiven(req.relatedId) then req.relatedId else None
  {
    User(id, req.username.value, req.email.value, hash(req.password.value), req.role.value,
         if IdGiven(req.relatedId) then req.relatedId else None, ACTIVE)
  }

  // ---------------------------------------------------------------------
  // The token handed out at registration.

  /** The payload registration signs, as written: the `userId` claim is
      the new student's id. */
  function AsWrittenRegistrationClaims(studentId: int, userId: int, username: string): (c: Claims)
    ensures c.userId == studentId && c.relatedId == Some(studentId)
    ensures c.username == username && c.role == STUDENT
  {
    Claims(studentId, username, STUDENT, Some(studentId))
  }

  /** The payload as login would sign it for the new user row. */
  function RegistrationClaims(studentId: int, userId: int, username: string): (c: Claims)
    ensures c.userId == userId && c.relatedId == Some(studentId)
    ensures c.username == username && c.role == STUDENT
  {
    ClaimsOf(User(userId, username, "", "", STUDENT, Some(studentId), ACTIVE))
  }

  /** With an administrator as user 1 and no students yet, the first
      registered student gets student id 1 and user id 2; the token as
      written verifies as the administrator. */
  lemma AsWrittenTokenNamesAnotherUser()
    ensures
      var admin := User(1, "admin", "admin@school.example", "h0", ADMIN, None, ACTIVE);
      var newcomer := User(2, "ana.lee1", "ana@school.example", "h1", STUDENT, Some(1), ACTIVE);
      var c := AsWrittenRegistrationClaims(1, 2, "ana.lee1");
      VerifyEndpoint([admin, newcomer], (t: string) => JwtOk(c), Some("t")) == VerifyOk(admin)
      && admin.role == ADMIN && c.userId != newcomer.id
  {
    var admin := User(1, "admin", "admin@school.example", "h0", ADMIN, None, ACTIVE);
    var newcomer := User(2, "ana.lee1", "ana@school.example", "h1", STUDENT, Some(1), ACTIVE);
    FindActiveUserUnique([admin, newcomer], admin);
  }

  /** Appending a user whose id is above every stored one: the token with
      the corrected payload verifies to that user. */
  lemma RegistrationTokenVerifies(users: seq<User>, u: User, studentId: int, jwt: string -> JwtResult, token: string)
    requires forall k :: 0 <= k < |users| ==> users[k].id < u.id
    requires u.status == ACTIVE && u.role == STUDENT && u.relatedId == Some(studentId)
    requires token != "" && jwt(token) == JwtOk(RegistrationClaims(studentId, u.id, u.username))
    ensures VerifyEndpoint(users + [u], jwt, Some(token)) == VerifyOk(u)
  {
    FirstOfAppended(users, u, (x: User) => x.id == u.id && x.status == ACTIVE);
  }

  /** What the write endpoints answer. */
  datatype AuthReply =
    | Failed(code: int, error: string)
    | PasswordChanged
    | UserCreated(id: int, username: string, email: string, role: string)
    | Registered(claims: Claims, user: User, student: Student)

  /** The `users` and `students` tables with their AUTO_INCREMENT
      counters, rows in insertion order. */
  class AuthStore {
    var users: seq<User>
    var nextUserId: int
    var students: seq<Student>
    var nextStudentId: nat

    predicate Valid()
      reads this
    {
      IncreasingIds(users) && (forall k :: 0 <= k < |users| ==> users[k].id < nextUserId)
      && IncreasingStudentIds(students) && (forall k :: 0 <= k < |students| ==> students[k].id < nextStudentId)
    }

    constructor ()
      ensures Valid() && users == [] && students == [] && nextUserId == 1 && nextStudentId == 1
    {
      users := [];
      students := [];
      nextUserId := 1;
      nextStudentId := 1;
    }

    /** `POST /change-password`. `hash` is `bcrypt.hash`. */
    method ChangePassword(header: Option<string>, current: Option<string>, newPassword: Option<string>,
                          jwt: string -> JwtResult, matches: (string, string) -> bool, hash: string -> string)
      returns (r: AuthReply)
      requires Valid()
      modifies this
      ensures Valid()
      ensures PasswordGuard(old(users), header, current, newPassword, jwt, matches).Refuse? ==>
        r == Failed(PasswordGuard(old(users), header, current, newPassword, jwt, matches).code,
                    PasswordGuard(old(users), header, current, newPassword, jwt, matches).error)
        && unchanged(this)
      ensures PasswordGuard(old(users), header, current, newPassword, jwt, matches).Proceed? ==>
        var u := PasswordGuard(old(users), header, current, newPassword, jwt, matches).value;
        r == PasswordChanged
        && users == SetHash(old(users), u.id, hash(newPassword.value))
        && FindActiveUser(users, u.id) == Some(u.(passwordHash := hash(newPassword.value)))
        && students == old(students) && nextUserId == old(nextUserId) && nextStudentId == old(nextStudentId)
    {
      var g := PasswordGuard(users, header, current, newPassword, jwt, matches);
      if g.Refuse? {
        return Failed(g.code, g.error);
      }
      var u := g.value;
      SetHashFindsUpdated(users, u, hash(newPassword.value));
      users := SetHash(users, u.id, hash(newPassword.value));
      r := PasswordChanged;
    }

    /** The admin `POST /users`. `duplicate` is the unique-key violation
        the INSERT raises for a username or email already stored. */
    method CreateUser(header: Option<string>, req: NewUser, jwt: string -> JwtResult,
                      hash: string -> string, duplicate: bool) returns (r: AuthReply)
      requires Valid()
      modifies this
      ensures Valid()
      ensures CreateUserGuard(header, req, jwt).Refuse? ==>
        r == Failed(CreateUserGuard(header, req, jwt).code, CreateUserGuard(header, req, jwt).error) && unchanged(this)
      ensures CreateUserGuard(header, req, jwt).Proceed? && duplicate ==> r == Failed(409, DUPLICATE_USER) && unchanged(this)
      ensures CreateUserGuard(header, req, jwt).Proceed? && !duplicate ==>
        r == UserCreated(old(nextUserId), req.username.value, req.email.value, req.role.value)
        && users == old(users) + [AdminRow(old(nextUserId), req, hash)]
        && nextUserId == old(nextUserId) + 1
        && students == old(students) && nextStudentId == old(nextStudentId)
    {
      var g := CreateUserGuard(header, req, jwt);
      if g.Refuse? {
        return Failed(g.code, g.error);
      }
      if duplicate {
        return Failed(409, DUPLICATE_USER);
      }
      var row := AdminRow(nextUserId, req, hash);
      users := users + [row];
      nextUserId := nextUserId + 1;
      r := UserCreated(row.id, row.username, row.email, row.role);
    }

    /** `POST /register/student`. The two INSERTs are not in a
        transaction: when the user INSERT fails (`userInsertFails`, a
        unique-key violation on the name) the student row stays. */
    method RegisterStudent(req: Registration, hash: string -> string, userInsertFails: bool) returns (r: AuthReply)
      requires Valid()
      modifies this
      ensures Valid()
      ensures RegistrationProblem(req).Some? ==> r == Failed(400, RegistrationProblem(req).value) && unchanged(this)
      ensures RegistrationProblem(req).None? && EmailTaken(old(users), req.email.value) ==>
        r == Failed(409, EMAIL_TAKEN) && unchanged(this)
      ensures RegistrationProblem(req).None? && !EmailTaken(old(users), req.email.value)
              && TextGiven(req.username) && UsernameTaken(old(users), req.username.value) ==>
        r == Failed(409, USERNAME_TAKEN) && unchanged(this)
      ensures r.Registered? ==>
        r.student == Student(old(nextStudentId), req.firstName.value, req.lastName.value, req.email.value,
                             if TextGiven(req.phone) then req.phone else None,
                             if TextGiven(req.address) then req.address else None, ACTIVE)
        && students == old(students) + [r.student]
        && nextStudentId == old(nextStudentId) + 1 && nextUserId == old(nextUserId) + 1
        && r.user.id == old(nextUserId) && users == old(users) + [r.user]
        && r.user.role == STUDENT && r.user.relatedId == Some(r.student.id) && r.user.email == req.email.value
        && r.user.passwordHash == hash(req.password.value)
        && r.user.username == (if TextGiven(req.username) then req.username.value
                               else GeneratedUsername(req.firstName.value, req.lastName.value, old(nextStudentId)))
        && r.claims == RegistrationClaims(r.student.id, r.user.id, r.user.username)
        && FindActiveUser(users, r.claims.userId) == Some(r.user)
      ensures r.Registered? <==>
        RegistrationProblem(req).None? && !EmailTaken(old(users), req.email.value)
        && !(TextGiven(req.username) && UsernameTaken(old(users), req.username.value)) && !userInsertFails
      ensures RegistrationProblem(req).None? && !EmailTaken(old(users), req.email.value)
              && !(TextGiven(req.username) && UsernameTaken(old(users), req.username.value)) && userInsertFails ==>
        r == Failed(500, INTERNAL) && users == old(users) && nextUserId == old(nextUserId)
        && students == old(students) + [Student(old(nextStudentId), req.firstName.value, req.lastName.value,
                                                req.email.value,
                                                if TextGiven(req.phone) then req.phone else None,
                                                if TextGiven(req.address) then req.address else None, ACTIVE)]
        && nextStudentId == old(nextStudentId) + 1
      ensures r.Failed? && r.code == 500 ==>
        userInsertFails && users == old(users) && |students| == |old(students)| + 1
    {
      var problem := RegistrationProblem(req);
      if problem.Some? {
        return Failed(400, problem.value);
      }
      if EmailTaken(users, req.email.value) {
        return Failed(409, EMAIL_TAKEN);
      }
      if TextGiven(req.username) && UsernameTaken(users, req.username.value) {
        return Failed(409, USERNAME_TAKEN);
      }
      var student := InsertStudent(req.firstName.value, req.lastName.value, req.email.value,
                                   if TextGiven(req.phone) then req.phone else None,
                                   if TextGiven(req.address) then req.address else None);
      var sid := student.id;
      var name := if TextGiven(req.username) then req.username.value
                  else GeneratedUsername(req.firstName.value, req.lastName.value, sid);
      if userInsertFails {
        return Failed(500, INTERNAL);
      }
      var user := InsertUser(name, req.email.value, hash(req.password.value), STUDENT, Some(sid));
      var uid := user.id;
      r := Registered(RegistrationClaims(sid, uid, name), user, student);
    }

    /** The students INSERT: the next id, status `active`. */
    method InsertStudent(first: string, last: string, email: string, phone: Option<string>, address: Option<string>)
      returns (st: Student)
      requires Valid()
      modifies this
      ensures Valid()
      ensures st == Student(old(nextStudentId), first, last, email, phone, address, ACTIVE)
      ensures students == old(students) + [st] && nextStudentId == old(nextStudentId) + 1
      ensures users == old(users) && nextUserId == old(nextUserId)
    {
      st := Student(nextStudentId, first, last, email, phone, address, ACTIVE);
      students := students + [st];
      nextStudentId := nextStudentId + 1;
    }

    /** The users INSERT: the next id, status `active`; the new row is the
        one a lookup by its id finds. */
    method InsertUser(name: string, email: string, passwordHash: string, role: string, relatedId: Option<int>)
      returns (u: User)
      requires Valid()
      modifies this
      ensures Valid()
      ensures u == User(old(nextUserId), name, email, passwordHash, role, relatedId, ACTIVE)
      ensures users == old(users) + [u] && nextUserId == old(nextUserId) + 1
      ensures FindActiveUser(users, u.id) == Some(u)
      ensures students == old(students) && nextStudentId == old(nextStudentId)
    {
      u := User(nextUserId, name, email, passwordHash, role, relatedId, ACTIVE);
      FirstOfAppended(users, u, (x: User) => x.id == u.id && x.status == ACTIVE);
      users := users + [u];
      nextUserId := nextUserId + 1;
    }
  }
}
