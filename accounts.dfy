/** Account rules of the authentication controller: the email and phone shapes,
    the length minimums, registration with its uniqueness check, and the
    checks of password and email change. Hashing and tokens are not modelled;
    where a handler compares a password with bcrypt, the outcome is a parameter. */
module Accounts {
  import opened Common
  import opened Text
  import opened Database

  /** JavaScript's `[^\s@]`. */
  predicate EmailChar(c: char) {
    !IsSpace(c) && c != '@'
  }

  predicate EmailChars(s: string) {
    forall i :: 0 <= i < |s| ==> EmailChar(s[i])
  }

  /** The language of `/^[^\s@]+@[^\s@]+\.[^\s@]+$/`: three non-empty runs of
      `[^\s@]`, the first two separated by '@', the last two by '.'. */
  ghost predicate MatchesEmailPattern(s: string) {
    exists at, dot ::
      && 0 < at && at + 1 < dot && dot + 1 < |s|
      && s[at] == '@' && s[dot] == '.'
      && EmailChars(s[..at]) && EmailChars(s[at + 1..dot]) && EmailChars(s[dot + 1..])
  }

  /** The domain part holds a '.' with text on both sides of it. */
  predicate HasInnerDot(d: string) {
    exists k | 0 < k < |d| - 1 :: d[k] == '.'
  }

  /** The email test shared by register, changeEmail, createOrder and addRating:
      a non-empty local part, an '@', and a domain holding an inner '.', neither
      part containing white space or another '@'. */
  predicate IsEmail(s: string) {
    exists at | 0 < at < |s| ::
      s[at] == '@' && EmailChars(s[..at]) && EmailChars(s[at + 1..]) && HasInnerDot(s[at + 1..])
  }

  lemma EmailCharsSlice(s: string, i: int, j: int)
    requires EmailChars(s) && 0 <= i <= j <= |s|
    ensures EmailChars(s[i..j])
  {
    forall n | 0 <= n < j - i ensures EmailChar(s[i..j][n]) {
      assert s[i..j][n] == s[i + n];
    }
  }

  lemma EmailCharsJoin(a: string, c: char, b: string)
    requires EmailChars(a) && EmailChar(c) && EmailChars(b)
    ensures EmailChars(a + [c] + b)
  {
    var w := a + [c] + b;
    forall n | 0 <= n < |w| ensures EmailChar(w[n]) {
      if n < |a| {
        assert w[n] == a[n];
      } else if n > |a| {
        assert w[n] == b[n - |a| - 1];
      }
    }
  }

  lemma {:induction false} EmailMatchesPattern(s: string)
    requires IsEmail(s)
    ensures MatchesEmailPattern(s)
  {
    var at :| 0 < at < |s| && s[at] == '@' && EmailChars(s[..at]) && EmailChars(s[at + 1..])
              && HasInnerDot(s[at + 1..]);
    var d := s[at + 1..];
    var k :| 0 < k < |d| - 1 && d[k] == '.';
    var dot := at + 1 + k;
    assert s[at + 1..dot] == d[0..k];
    assert s[dot + 1..] == d[k + 1..|d|];
    EmailCharsSlice(d, 0, k);
    EmailCharsSlice(d, k + 1, |d|);
    assert s[dot] == d[k];
  }

  lemma {:induction false} PatternIsEmail(s: string)
    requires MatchesEmailPattern(s)
    ensures IsEmail(s)
  {
    var at, dot :|
      && 0 < at && at + 1 < dot && dot + 1 < |s|
      && s[at] == '@' && s[dot] == '.'
      && EmailChars(s[..at]) && EmailChars(s[at + 1..dot]) && EmailChars(s[dot + 1..]);
    var d := s[at + 1..];
    var k := dot - at - 1;
    assert d == s[at + 1..dot] + [s[dot]] + s[dot + 1..];
    EmailCharsJoin(s[at + 1..dot], s[dot], s[dot + 1..]);
    assert d[k] == '.';
    assert HasInnerDot(d);
  }

  /** IsEmail accepts exactly the strings the regular expression matches. */
  lemma EmailIsPattern(s: string)
    ensures IsEmail(s) <==> MatchesEmailPattern(s)
  {
    if IsEmail(s) { EmailMatchesPattern(s); }
    if MatchesEmailPattern(s) { PatternIsEmail(s); }
  }

  /** `/^[0-9+\-\s()]+$/`. */
  predicate PhoneChar(c: char) {
    ('0' <= c <= '9') || c == '+' || c == '-' || IsSpace(c) || c == '(' || c == ')'
  }

  /** The phone test of register: non-empty, and every character a digit, '+',
      '-', white space or a parenthesis. */
  predicate IsPhone(s: string) {
    |s| > 0 && forall i :: 0 <= i < |s| ==> PhoneChar(s[i])
  }

  const MinPasswordLength := 6
  const MinUsernameLength := 3

  /** The body of a registration request; "" stands for an absent field. */
  datatype Registration = Registration(firstName: string, lastName: string, username: string,
                                       phone: string, email: string, password: string,
                                       userType: string)

  /** An existing account has the same email, username or phone. */
  predicate Taken(users: map<nat, User>, email: string, username: string, phone: string) {
    exists k | k in users :: users[k].email == email || users[k].username == username || users[k].phone == phone
  }

  /** Every field of the body is truthy. */
  predicate AllGiven(req: Registration) {
    && req.firstName != "" && req.lastName != "" && req.username != "" && req.phone != ""
    && req.email != "" && req.password != "" && req.userType != ""
  }

  /** The checks of register, in the handler's order, and the row it inserts
      under the next serial `id`. The length minimums count UTF-16 code units,
      as JavaScript's `length` does. */
  function CheckRegistration(users: map<nat, User>, req: Registration, id: nat): (r: Result<User>)
    ensures !AllGiven(req) ==> r == Err(Error(400, AllFieldsRequired))
    ensures AllGiven(req) && ParseUserType(req.userType).None? ==> r == Err(Error(400, InvalidUserType))
    ensures (AllGiven(req) && ParseUserType(req.userType).Some? && !IsEmail(req.email))
            ==> r == Err(Error(400, InvalidEmail))
    ensures (AllGiven(req) && ParseUserType(req.userType).Some? && IsEmail(req.email) && !IsPhone(req.phone))
            ==> r == Err(Error(400, InvalidPhone))
    ensures (AllGiven(req) && ParseUserType(req.userType).Some? && IsEmail(req.email) && IsPhone(req.phone)
             && Utf16Length(req.password) < MinPasswordLength) ==> r == Err(Error(400, PasswordTooShort))
    ensures (AllGiven(req) && ParseUserType(req.userType).Some? && IsEmail(req.email) && IsPhone(req.phone)
             && Utf16Length(req.password) >= MinPasswordLength && Utf16Length(req.username) < MinUsernameLength)
            ==> r == Err(Error(400, UsernameTooShort))
    ensures (AllGiven(req) && ParseUserType(req.userType).Some? && IsEmail(req.email) && IsPhone(req.phone)
             && Utf16Length(req.password) >= MinPasswordLength && Utf16Length(req.username) >= MinUsernameLength
             && Taken(users, req.email, req.username, req.phone))
            ==> r == Err(Error(409, AlreadyRegistered))
    ensures r.Ok? <==>
              && AllGiven(req) && ParseUserType(req.userType).Some?
              && IsEmail(req.email) && IsPhone(req.phone)
              && Utf16Length(req.password) >= MinPasswordLength && Utf16Length(req.username) >= MinUsernameLength
              && !Taken(users, req.email, req.username, req.phone)
    ensures r.Ok? ==> r.value == User(id, req.firstName, req.lastName, req.username, req.phone,
                                      req.email, ParseUserType(req.userType).value, true)
  {
    if !AllGiven(req) then Err(Error(400, AllFieldsRequired))
    else if ParseUserType(req.userType).None? then Err(Error(400, InvalidUserType))
    else if !IsEmail(req.email) then Err(Error(400, InvalidEmail))
    else if !IsPhone(req.phone) then Err(Error(400, InvalidPhone))
    else if Utf16Length(req.password) < MinPasswordLength then Err(Error(400, PasswordTooShort))
    else if Utf16Length(req.username) < MinUsernameLength then Err(Error(400, UsernameTooShort))
    else if Taken(users, req.email, req.username, req.phone) then Err(Error(409, AlreadyRegistered))
    else Ok(User(id, req.firstName, req.lastName, req.username, req.phone, req.email,
                 ParseUserType(req.userType).value, true))
  }

  /** Only the uniqueness refusal answers 409; every other refusal is a 400. */
  lemma RegistrationStatuses(users: map<nat, User>, req: Registration, id: nat)
    ensures var r := CheckRegistration(users, req, id);
            r.Err? ==> (r.error.status == 409 <==> r.error.reason == AlreadyRegistered)
                       && (r.error.status == 400 <==> r.error.reason != AlreadyRegistered)
  {
  }

  /** A two-character username outside the Basic Multilingual Plane is four
      UTF-16 units long, so it meets the three-unit minimum. */
  lemma AstralUsernameIsLongEnough()
    ensures Utf16Length("\U{1F600}\U{1F600}") == 4 >= MinUsernameLength
  {
    assert "\U{1F600}\U{1F600}"[..1] == "\U{1F600}";
  }

  /** A registration that passes the checks keeps every email, username and
      phone unique. */
  lemma RegistrationKeepsAccountsUnique(users: map<nat, User>, req: Registration, id: nat)
    requires UniqueAccounts(users) && id !in users
    requires CheckRegistration(users, req, id).Ok?
    ensures UniqueAccounts(users[id := CheckRegistration(users, req, id).value])
  {
  }

  /** register: validates, then inserts exactly one account (active, as the
      column default has it). */
  method Register(db: Store, req: Registration) returns (r: Result<User>)
    requires db.Valid()
    modifies db`users, db`nextUser
    ensures db.Valid()
    ensures r == CheckRegistration(old(db.users), req, old(db.nextUser))
    ensures r.Ok? ==> db.users == old(db.users)[r.value.id := r.value] && r.value.id !in old(db.users)
    ensures r.Err? ==> db.users == old(db.users) && db.nextUser == old(db.nextUser)
  {
    r := CheckRegistration(db.users, req, db.nextUser);
    if r.Ok? {
      RegistrationKeepsAccountsUnique(db.users, req, db.nextUser);
      db.users := db.users[db.nextUser := r.value];
      db.nextUser := db.nextUser + 1;
    }
  }

  /** The body of a password change; "" stands for an absent field. */
  datatype PasswordChange = PasswordChange(currentPassword: string, newPassword: string,
                                           confirmPassword: string)

  /** changePassword's decision. The three field checks come before any lookup;
      `currentMatches` and `newMatchesOld` are the outcomes of the two bcrypt
      comparisons against the stored hash, which agree when the two passwords
      sent are the same text. */
  function CheckPasswordChange(users: map<nat, User>, userId: nat, req: PasswordChange,
                               currentMatches: bool, newMatchesOld: bool): (r: Result<()>)
    requires req.currentPassword == req.newPassword ==> currentMatches == newMatchesOld
    ensures (req.currentPassword == "" || req.newPassword == "" || req.confirmPassword == "")
            ==> r == Err(Error(400, AllFieldsRequired))
    ensures (req.currentPassword != "" && req.newPassword != "" && req.confirmPassword != ""
             && req.newPassword != req.confirmPassword) ==> r == Err(Error(400, PasswordsDiffer))
    ensures (req.currentPassword != "" && req.newPassword != "" && req.newPassword == req.confirmPassword
             && Utf16Length(req.newPassword) < MinPasswordLength) ==> r == Err(Error(400, PasswordTooShort))
    ensures (req.currentPassword != "" && req.newPassword != "" && req.newPassword == req.confirmPassword
             && Utf16Length(req.newPassword) >= MinPasswordLength && userId !in users)
            ==> r == Err(Error(404, UserNotFound))
    ensures (req.currentPassword != "" && req.newPassword != "" && req.newPassword == req.confirmPassword
             && Utf16Length(req.newPassword) >= MinPasswordLength && userId in users && !currentMatches)
            ==> r == Err(Error(401, WrongPassword))
    ensures r.Ok? <==>
              && req.currentPassword != "" && req.newPassword == req.confirmPassword
              && Utf16Length(req.newPassword) >= MinPasswordLength
              && userId in users && currentMatches && !newMatchesOld
    ensures (req.currentPassword != "" && req.newPassword != "" && req.newPassword == req.confirmPassword
             && Utf16Length(req.newPassword) >= MinPasswordLength && userId in users && currentMatches
             && newMatchesOld) ==> r == Err(Error(400, SamePassword))
    ensures req.currentPassword == req.newPassword ==> r.Err?
  {
    if req.currentPassword == "" || req.newPassword == "" || req.confirmPassword == "" then
      Err(Error(400, AllFieldsRequired))
    else if req.newPassword != req.confirmPassword then Err(Error(400, PasswordsDiffer))
    else if Utf16Length(req.newPassword) < MinPasswordLength then Err(Error(400, PasswordTooShort))
    else if userId !in users then Err(Error(404, UserNotFound))
    else if !currentMatches then Err(Error(401, WrongPassword))
    else if newMatchesOld then Err(Error(400, SamePassword))
    else Ok(())
  }

  /** Another account already uses `email`. */
  predicate EmailUsedByOther(users: map<nat, User>, userId: nat, email: string) {
    exists k | k in users :: k != userId && users[k].email == email
  }

  /** changeEmail's decision and the updated account. `passwordMatches` is the
      outcome of the bcrypt comparison. */
  function CheckEmailChange(users: map<nat, User>, userId: nat, newEmail: string,
                            password: string, passwordMatches: bool): (r: Result<User>)
    ensures (newEmail == "" || password == "") ==> r == Err(Error(400, EmailAndPasswordRequired))
    ensures (newEmail != "" && password != "" && !IsEmail(newEmail)) ==> r == Err(Error(400, InvalidEmail))
    ensures (password != "" && IsEmail(newEmail) && userId !in users) ==> r == Err(Error(404, UserNotFound))
    ensures (password != "" && IsEmail(newEmail) && userId in users && !passwordMatches)
            ==> r == Err(Error(401, WrongPassword))
    ensures (password != "" && IsEmail(newEmail) && userId in users && passwordMatches
             && ToLower(newEmail) == ToLower(users[userId].email)) ==> r == Err(Error(400, SameEmail))
    ensures (password != "" && IsEmail(newEmail) && userId in users && passwordMatches
             && ToLower(newEmail) != ToLower(users[userId].email)
             && EmailUsedByOther(users, userId, ToLower(newEmail))) ==> r == Err(Error(409, EmailInUse))
    ensures r.Ok? <==>
              && password != "" && IsEmail(newEmail) && userId in users && passwordMatches
              && ToLower(newEmail) != ToLower(users[userId].email)
              && !EmailUsedByOther(users, userId, ToLower(newEmail))
    ensures userId in users && users[userId].email == newEmail ==> r.Err?
    ensures r.Ok? ==> r.value == users[userId].(email := ToLower(newEmail))
  {
    if newEmail == "" || password == "" then Err(Error(400, EmailAndPasswordRequired))
    else if !IsEmail(newEmail) then Err(Error(400, InvalidEmail))
    else if userId !in users then Err(Error(404, UserNotFound))
    else if !passwordMatches then Err(Error(401, WrongPassword))
    else if ToLower(newEmail) == ToLower(users[userId].email) then Err(Error(400, SameEmail))
    else if EmailUsedByOther(users, userId, ToLower(newEmail)) then Err(Error(409, EmailInUse))
    else Ok(users[userId].(email := ToLower(newEmail)))
  }

  /** changeEmail: on success only the caller's email changes, to the lower-cased
      new address, and account emails stay unique. */
  method ChangeEmail(db: Store, userId: nat, newEmail: string, password: string,
                     passwordMatches: bool) returns (r: Result<User>)
    requires db.Valid()
    modifies db`users
    ensures db.Valid()
    ensures r == CheckEmailChange(old(db.users), userId, newEmail, password, passwordMatches)
    ensures r.Ok? ==> db.users == old(db.users)[userId := r.value]
    ensures r.Err? ==> db.users == old(db.users)
  {
    r := CheckEmailChange(db.users, userId, newEmail, password, passwordMatches);
    if r.Ok? {
      db.users := db.users[userId := r.value];
    }
  }
}
