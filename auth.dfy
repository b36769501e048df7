/**
 * The decisions of server/routes/auth.js: how `/register` and `/login` normalise the email,
 * which emails `/register` accepts, and the order of the login outcomes. The user collection is
 * a parameter, and so is bcrypt's password comparison.
 */
module Auth {
  import opened Wrappers
  import opened Text

  const BadRequest: int := 400
  const Unauthorized: int := 401
  const Forbidden: int := 403
  const Conflict: int := 409
  const CreatedStatus: int := 201

  const InvalidEmailMessage := "Please provide a valid email address"
  const ExistingUserMessage := "User already exists with this email"
  const InvalidCredentials := "Invalid credentials"
  const DeactivatedMessage := "Account is deactivated"

  /** `email.trim().toLowerCase()` */
  function NormalizeEmail(email: string): (r: string)
    ensures |r| <= |email|
    ensures forall k :: 0 <= k < |r| ==> !('A' <= r[k] <= 'Z')
  {
    TrimStartSpec(email);
    TrimEndSpec(TrimStart(email));
    Lower(Trim(email))
  }

  /** A normalised email normalises to itself. */
  lemma NormalizeEmailIdempotent(email: string)
    ensures NormalizeEmail(NormalizeEmail(email)) == NormalizeEmail(email)
  {
    var t := Trim(email);
    TrimLowerCommute(t);
    TrimIdempotent(email);
    LowerIdempotent(t);
  }

  /** A normalised email neither starts nor ends with whitespace. */
  lemma NormalizedHasNoOuterBlanks(email: string)
    ensures var n := NormalizeEmail(email); n != [] ==> !IsWhitespace(n[0]) && !IsWhitespace(n[|n| - 1])
  {
    var u := TrimStart(email);
    var t := TrimEnd(u);
    TrimStartSpec(email);
    TrimEndSpec(u);
    if t != [] {
      assert t[0] == u[0];
    }
  }

  /** One character of the class `[^\s@]`. */
  predicate PlainChar(c: char)
  {
    !IsWhitespace(c) && c != '@'
  }

  /** A match of `[^\s@]+`. */
  predicate Plain(t: string)
  {
    t != [] && forall k :: 0 <= k < |t| ==> PlainChar(t[k])
  }

  /** `^[^\s@]+@[^\s@]+\.[^\s@]+$` matches `s`: some '@' at `i` and '.' at `j` split it into three runs of plain characters. */
  predicate MatchesEmailPattern(s: string): (r: bool)
    ensures r ==> 5 <= |s| && PlainChar(s[0]) && PlainChar(s[|s| - 1])
  {
    exists i, j :: 0 <= i < j < |s| && s[i] == '@' && s[j] == '.' && Plain(s[..i]) && Plain(s[i + 1..j]) && Plain(s[j + 1..])
  }

  /** '@' occurs in `s` at `i` and nowhere else. */
  predicate OnlyAtSignAt(s: string, i: int)
  {
    0 <= i < |s| && s[i] == '@' && forall k :: 0 <= k < |s| && s[k] == '@' ==> k == i
  }

  /** The domain after the '@' at `i` has a '.' that is neither its first nor its last character. */
  predicate DottedDomain(s: string, i: int)
  {
    0 <= i && exists j :: i + 1 < j < |s| - 1 && s[j] == '.'
  }

  /** The shape of an accepted email: no whitespace, a single '@' after a non-empty local part, a dotted domain. */
  predicate WellFormedEmail(s: string)
  {
    && (forall k :: 0 <= k < |s| ==> !IsWhitespace(s[k]))
    && exists i :: 0 < i < |s| && OnlyAtSignAt(s, i) && DottedDomain(s, i)
  }

  lemma EmailPatternSound(s: string)
    requires MatchesEmailPattern(s)
    ensures WellFormedEmail(s)
  {
    var i, j :| 0 <= i < j < |s| && s[i] == '@' && s[j] == '.' && Plain(s[..i]) && Plain(s[i + 1..j]) && Plain(s[j + 1..]);
    forall k | 0 <= k < |s| && k != i && k != j
      ensures PlainChar(s[k])
    {
      if k < i {
        assert s[k] == s[..i][k];
      } else if k < j {
        assert s[k] == s[i + 1..j][k - i - 1];
      } else {
        assert s[k] == s[j + 1..][k - j - 1];
      }
    }
    assert i + 1 < j < |s| - 1 && s[j] == '.';
    assert 0 < i < |s| && OnlyAtSignAt(s, i) && DottedDomain(s, i);
  }

  lemma EmailPatternComplete(s: string)
    requires WellFormedEmail(s)
    ensures MatchesEmailPattern(s)
  {
    var i :| 0 < i < |s| && OnlyAtSignAt(s, i) && DottedDomain(s, i);
    var j :| i + 1 < j < |s| - 1 && s[j] == '.';
    var local, domain, top := s[..i], s[i + 1..j], s[j + 1..];
    assert Plain(local) by {
      forall k | 0 <= k < |local| ensures PlainChar(local[k]) {
        assert local[k] == s[k];
      }
    }
    assert Plain(domain) by {
      forall k | 0 <= k < |domain| ensures PlainChar(domain[k]) {
        assert domain[k] == s[i + 1 + k];
      }
    }
    assert Plain(top) by {
      forall k | 0 <= k < |top| ensures PlainChar(top[k]) {
        assert top[k] == s[j + 1 + k];
      }
    }
  }

  /** The registration pattern accepts exactly the well-formed emails. */
  lemma EmailPatternIff(s: string)
    ensures MatchesEmailPattern(s) <==> WellFormedEmail(s)
  {
    if MatchesEmailPattern(s) {
      EmailPatternSound(s);
    }
    if WellFormedEmail(s) {
      EmailPatternComplete(s);
    }
  }

  /** The user document `/register` creates (the password hash is not modelled). */
  datatype NewUser = NewUser(name: string, email: string, phone: Option<string>)

  datatype RegisterReply = RegisterRejected(status: int, message: string) | RegisterCreated(user: NewUser)

  /** `phone?.trim()` */
  function TrimOptional(phone: Option<string>): Option<string>
  {
    match phone
    case None => None
    case Some(p) => Some(Trim(p))
  }

  /** `/register`: `registered` holds the emails of the existing users. */
  function Register(name: string, email: string, phone: Option<string>, registered: set<string>): (r: RegisterReply)
    ensures r.RegisterRejected? ==> r.status == BadRequest || r.status == Conflict
    ensures r.RegisterCreated? ==> r.user.email !in registered && MatchesEmailPattern(r.user.email)
  {
    var normalized := NormalizeEmail(email);
    if !MatchesEmailPattern(normalized) then RegisterRejected(BadRequest, InvalidEmailMessage)
    else if normalized in registered then RegisterRejected(Conflict, ExistingUserMessage)
    else RegisterCreated(NewUser(Trim(name), normalized, TrimOptional(phone)))
  }

  /**
   * An invalid email gets 400 whatever users exist (it is rejected before the lookup); a valid one
   * already registered gets 409; otherwise the user is created with a well-formed normalised
   * email, a trimmed name and a phone trimmed only when one was given.
   */
  lemma RegisterDecision(name: string, email: string, phone: Option<string>, registered: set<string>)
    ensures var e := NormalizeEmail(email);
      !WellFormedEmail(e) ==> Register(name, email, phone, registered) == RegisterRejected(BadRequest, InvalidEmailMessage)
    ensures var e := NormalizeEmail(email);
      WellFormedEmail(e) && e in registered ==> Register(name, email, phone, registered) == RegisterRejected(Conflict, ExistingUserMessage)
    ensures Register(name, email, phone, registered).RegisterCreated? <==> WellFormedEmail(NormalizeEmail(email)) && NormalizeEmail(email) !in registered
    ensures var r := Register(name, email, phone, registered);
      r.RegisterCreated? ==>
        && r.user.email == NormalizeEmail(email) && NormalizeEmail(r.user.email) == r.user.email
        && WellFormedEmail(r.user.email) && r.user.email !in registered
        && r.user.name == Trim(name)
        && (r.user.phone.Some? <==> phone.Some?)
        && (phone.Some? ==> r.user.phone.value == Trim(phone.value))
  {
    EmailPatternIff(NormalizeEmail(email));
    NormalizeEmailIdempotent(email);
  }

  /** Whether an email is valid is decided before, and independently of, the user lookup. */
  lemma InvalidEmailIgnoresUsers(name: string, email: string, phone: Option<string>, registered: set<string>, others: set<string>)
    requires !WellFormedEmail(NormalizeEmail(email))
    ensures Register(name, email, phone, registered) == Register(name, email, phone, others)
  {
    EmailPatternIff(NormalizeEmail(email));
  }

  /** A stored user: the bcrypt hash of the password and the optional `isActive` flag. */
  datatype Account = Account(passwordHash: string, isActive: Option<bool>)

  datatype LoginReply = LoginRejected(status: int, message: string) | LoginSucceeded(email: string)

  /**
   * `/login`. `users` maps each stored email to its account; `passwordMatches(password, hash)`
   * stands for `bcrypt.compare`.
   */
  function Login(users: map<string, Account>, email: string, password: string, passwordMatches: (string, string) -> bool): (r: LoginReply)
    ensures r.LoginRejected? ==> r.status == Unauthorized || r.status == Forbidden
    ensures r.LoginSucceeded? ==> r.email in users && users[r.email].isActive != Some(false)
  {
    var normalized := NormalizeEmail(email);
    if normalized !in users then LoginRejected(Unauthorized, InvalidCredentials)
    else if users[normalized].isActive == Some(false) then LoginRejected(Forbidden, DeactivatedMessage)
    else if !passwordMatches(password, users[normalized].passwordHash) then LoginRejected(Unauthorized, InvalidCredentials)
    else LoginSucceeded(normalized)
  }

  /**
   * The login outcomes in order: unknown user 401; explicitly deactivated 403 whatever the
   * password; wrong password 401; otherwise success. Only `isActive == false` blocks.
   */
  lemma LoginDecision(users: map<string, Account>, email: string, password: string, passwordMatches: (string, string) -> bool)
    ensures var e := NormalizeEmail(email);
      e !in users ==> Login(users, email, password, passwordMatches) == LoginRejected(Unauthorized, InvalidCredentials)
    ensures var e := NormalizeEmail(email);
      e in users && users[e].isActive == Some(false) ==>
        forall check: (string, string) -> bool :: Login(users, email, password, check) == LoginRejected(Forbidden, DeactivatedMessage)
    ensures var e := NormalizeEmail(email);
      e in users && users[e].isActive != Some(false) && !passwordMatches(password, users[e].passwordHash) ==>
        Login(users, email, password, passwordMatches) == LoginRejected(Unauthorized, InvalidCredentials)
    ensures var e := NormalizeEmail(email);
      Login(users, email, password, passwordMatches).LoginSucceeded? <==>
        e in users && users[e].isActive != Some(false) && passwordMatches(password, users[e].passwordHash)
    ensures Login(users, email, password, passwordMatches).LoginSucceeded? ==>
      Login(users, email, password, passwordMatches).email == NormalizeEmail(email)
  {
  }

  /** An unknown email and a wrong password are indistinguishable to the client. */
  lemma UnknownEmailLooksLikeWrongPassword(
    users: map<string, Account>, email: string, password: string, check: (string, string) -> bool,
    users': map<string, Account>, email': string, password': string, check': (string, string) -> bool)
    requires NormalizeEmail(email) !in users
    requires var e := NormalizeEmail(email');
      e in users' && users'[e].isActive != Some(false) && !check'(password', users'[e].passwordHash)
    ensures Login(users, email, password, check) == Login(users', email', password', check')
    ensures Login(users, email, password, check).LoginRejected?
  {
  }
}
