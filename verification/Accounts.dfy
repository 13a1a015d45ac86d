/** Users, logins and sessions: src/auth/service.py, src/auth/repository.py,
    src/auth/session.py, src/auth/session_repository.py, src/auth/dependencies.py. */
module Accounts {
  import opened Text
  import opened Lockout
  import opened Passphrase

  /** One-way functions; nothing is assumed about them. */
  datatype AuthPrims = AuthPrims(hashToken: string -> string, verify: (string, string) -> bool)

  /** The settings of a deployment. */
  datatype Settings = Settings(limits: Limits, sessionTtl: int)

  datatype User = User(id: int, passwordHash: string, account: Account)

  /** The users table with its two indexes: UNIQUE(email) and the primary key. */
  datatype Users = Users(rows: map<string, User>, emails: map<int, string>, nextId: int)

  /** A sessions row; UNIQUE(token_hash) is the map it sits in. */
  datatype Session = Session(userId: int, expires: int, revokedAt: Option<int>)

  datatype State = State(users: Users, sessions: map<string, Session>)

  const START := State(Users(map[], map[], 1), map[])

  datatype AuthError =
    | PassphraseMismatch | WeakPassphrase | DuplicateEmail | InvalidCredentials | AccountLocked | Unauthenticated
    | Internal  // an exception no handler of the service names

  datatype Reply =
    | Registered(email: string)
    | LoggedIn(token: string, expires: int)
    | LoggedOut
    | Caller(userId: int, email: string)
    | Refused(error: AuthError)

  /** A request with the clock readings and randomness of its handling: `looked` when
      the lock is checked, `ended` after a failed check, `granted` for the expiry. */
  datatype Request =
    | Register(email: string, passphrase: string, confirmation: string, stored: string)
    | Login(email: string, passphrase: string, looked: int, ended: int, granted: int, token: string)
    | Logout(token: string, now: int)
    | Identify(credentials: string, now: int)

  /** `normalize_email`. */
  function Normalize(email: string): string {
    Lower(Strip(email))
  }

  // ----------------------------------------------------------------- the users table

  ghost predicate Indexed(u: Users) {
    && (forall e :: e in u.rows ==> u.rows[e].id in u.emails && u.emails[u.rows[e].id] == e && u.rows[e].id < u.nextId)
    && (forall i :: i in u.emails ==> u.emails[i] in u.rows && u.rows[u.emails[i]].id == i)
  }

  /** `create`; None is DuplicateEmailError. */
  function CreateUser(u: Users, email: string, passwordHash: string): Option<Users> {
    var e := Normalize(email);
    if e in u.rows then None
    else Some(Users(u.rows[e := User(u.nextId, passwordHash, NEW_ACCOUNT)], u.emails[u.nextId := e], u.nextId + 1))
  }

  /** `UPDATE users SET failed_attempts, locked_until WHERE id`. */
  function SetAccount(u: Users, id: int, account: Account): (after: Users)
    ensures forall e :: e in after.rows <==> e in u.rows
  {
    if id in u.emails && u.emails[id] in u.rows then
      u.(rows := u.rows[u.emails[id] := u.rows[u.emails[id]].(account := account)])
    else u
  }

  /** Only the account of that row changes, and only the last change counts. */
  lemma SetOne(u: Users, e: string, account: Account, again: Account)
    requires Indexed(u) && e in u.rows
    ensures var u' := SetAccount(u, u.rows[e].id, account);
            && Indexed(u') && u' == u.(rows := u.rows[e := u.rows[e].(account := account)])
            && SetAccount(u', u.rows[e].id, again) == SetAccount(u, u.rows[e].id, again)
  {
    var u' := SetAccount(u, u.rows[e].id, account);
    assert u'.rows[e := u'.rows[e].(account := again)] == u.rows[e := u.rows[e].(account := again)];
  }

  class UserRepository {
    var rows: map<string, User>
    var emails: map<int, string>
    var nextId: int

    function Table(): Users
      reads this
    {
      Users(rows, emails, nextId)
    }

    constructor ()
      ensures Table() == START.users
    {
      rows, emails, nextId := map[], map[], 1;
    }

    method GetByEmail(email: string) returns (user: Option<User>)
      ensures user == if Normalize(email) in rows then Some(rows[Normalize(email)]) else None
    {
      var e := Normalize(email);
      user := if e in rows then Some(rows[e]) else None;
    }

    method Create(email: string, passwordHash: string) returns (created: bool)
      modifies this
      ensures created == CreateUser(old(Table()), email, passwordHash).Some?
      ensures Table() == if created then CreateUser(old(Table()), email, passwordHash).value else old(Table())
    {
      var e := Normalize(email);
      if e in rows {
        return false;
      }
      rows := rows[e := User(nextId, passwordHash, NEW_ACCOUNT)];
      emails := emails[nextId := e];
      nextId := nextId + 1;
      return true;
    }

    method UpdateAfterFailedLogin(userId: int, failedAttempts: int, lockedUntil: Option<int>)
      modifies this`rows
      ensures Table() == SetAccount(old(Table()), userId, Account(failedAttempts, lockedUntil))
    {
      if userId in emails && emails[userId] in rows {
        var e := emails[userId];
        rows := rows[e := rows[e].(account := Account(failedAttempts, lockedUntil))];
      }
    }

    method ResetLoginFailures(userId: int)
      modifies this`rows
      ensures Table() == SetAccount(old(Table()), userId, NEW_ACCOUNT)
    {
      if userId in emails && emails[userId] in rows {
        var e := emails[userId];
        rows := rows[e := rows[e].(account := NEW_ACCOUNT)];
      }
    }
  }

  // -------------------------------------------------------------- the sessions table

  /** `find_active_by_token_hash`: an unrevoked session with its user's email. */
  function FindActive(s: State, hash: string): Option<(Session, string)> {
    if hash in s.sessions && s.sessions[hash].revokedAt.None? && s.sessions[hash].userId in s.users.emails then
      Some((s.sessions[hash], s.users.emails[s.sessions[hash].userId]))
    else None
  }

  function Revoke(sessions: map<string, Session>, hash: string, now: int): map<string, Session> {
    if hash in sessions && sessions[hash].revokedAt.None? then sessions[hash := sessions[hash].(revokedAt := Some(now))]
    else sessions
  }

  class SessionRepository {
    var sessions: map<string, Session>

    constructor ()
      ensures sessions == START.sessions
    {
      sessions := map[];
    }

    /** false is the UNIQUE violation. */
    method Create(userId: int, tokenHash: string, expires: int) returns (created: bool)
      modifies this
      ensures created == (tokenHash !in old(sessions))
      ensures sessions == if created then old(sessions)[tokenHash := Session(userId, expires, None)] else old(sessions)
    {
      created := tokenHash !in sessions;
      if created {
        sessions := sessions[tokenHash := Session(userId, expires, None)];
      }
    }

    method RevokeSession(tokenHash: string, now: int) returns (revoked: bool)
      modifies this
      ensures sessions == Revoke(old(sessions), tokenHash, now)
      ensures revoked == (tokenHash in old(sessions) && old(sessions)[tokenHash].revokedAt.None?)
    {
      revoked := tokenHash in sessions && sessions[tokenHash].revokedAt.None?;
      if revoked {
        sessions := sessions[tokenHash := sessions[tokenHash].(revokedAt := Some(now))];
      }
    }
  }

  // ------------------------------------------------------------------- the service

  function StepRegister(s: State, email: string, passphrase: string, confirmation: string, stored: string)
    : (State, Reply)
  {
    if passphrase != confirmation then (s, Refused(PassphraseMismatch))
    else if !Strong(passphrase) then (s, Refused(WeakPassphrase))
    else
      match CreateUser(s.users, email, stored)
      case None => (s, Refused(DuplicateEmail))
      case Some(users) => (s.(users := users), Registered(Normalize(email)))
  }

  /** `login`, by the account machine of the lockout. */
  function StepLogin(p: AuthPrims, c: Settings, s: State, email: string, passphrase: string, looked: int, ended: int,
                     granted: int, token: string) : (State, Reply)
  {
    var e := Normalize(email);
    if e !in s.users.rows then (s, Refused(InvalidCredentials))
    else
      var user := s.users.rows[e];
      var (account, outcome) := Try(c.limits, user.account,
                                    Attempt(looked, ended, p.verify(passphrase, user.passwordHash)));
      var s' := if outcome.Locked? then s else s.(users := SetAccount(s.users, user.id, account));
      match outcome
      case Locked => (s', Refused(AccountLocked))
      case Rejected => (s', Refused(InvalidCredentials))
      case Granted =>
        if p.hashToken(token) in s.sessions then (s', Refused(Internal))
        else (s'.(sessions := s.sessions[p.hashToken(token) := Session(user.id, granted + c.sessionTtl, None)]),
              LoggedIn(token, granted + c.sessionTtl))
  }

  /** `get_current_user`, after the bearer scheme was recognised. */
  function CurrentUser(p: AuthPrims, s: State, credentials: string, now: int): Reply {
    var token := Strip(credentials);
    if token == "" then Refused(Unauthenticated)
    else
      match FindActive(s, p.hashToken(token))
      case None => Refused(Unauthenticated)
      case Some((session, email)) =>
        if now >= session.expires then Refused(Unauthenticated) else Caller(session.userId, email)
  }

  function Step(p: AuthPrims, c: Settings, s: State, r: Request): (State, Reply) {
    match r
    case Register(email, passphrase, confirmation, stored) =>
      StepRegister(s, email, passphrase, confirmation, stored)
    case Login(email, passphrase, looked, ended, granted, token) =>
      StepLogin(p, c, s, email, passphrase, looked, ended, granted, token)
    case Logout(token, now) => (s.(sessions := Revoke(s.sessions, p.hashToken(token), now)), LoggedOut)
    case Identify(credentials, now) => (s, CurrentUser(p, s, credentials, now))
  }

  function Run(p: AuthPrims, c: Settings, rs: seq<Request>): State {
    if rs == [] then START else Step(p, c, Run(p, c, rs[..|rs| - 1]), rs[|rs| - 1]).0
  }

  /** The service over its two repositories. */
  class AuthService {
    const p: AuthPrims
    const c: Settings
    const users: UserRepository
    const sessions: SessionRepository

    function View(): State
      reads users, sessions
    {
      State(users.Table(), sessions.sessions)
    }

    constructor (p: AuthPrims, c: Settings)
      ensures this.p == p && this.c == c && View() == START && fresh(users) && fresh(sessions)
    {
      this.p, this.c := p, c;
      this.users := new UserRepository();
      this.sessions := new SessionRepository();
    }

    method Register(email: string, passphrase: string, confirmation: string, stored: string)
      returns (reply: Reply)
      modifies users
      ensures old(Indexed(users.Table())) ==> Indexed(users.Table())
      ensures (View(), reply) == StepRegister(old(View()), email, passphrase, confirmation, stored)
    {
      if passphrase != confirmation {
        return Refused(PassphraseMismatch);
      }
      if !Strong(passphrase) {
        return Refused(WeakPassphrase);
      }
      var created := users.Create(email, stored);
      if !created {
        return Refused(DuplicateEmail);
      }
      return Registered(Normalize(email));
    }

    /** The steps of `login`: look at the lock, start a fresh window when it has run out,
        check the passphrase, count the failure or open a session. */
    method Login(email: string, passphrase: string, looked: int, ended: int, granted: int, token: string)
      returns (reply: Reply)
      requires Indexed(users.Table())
      modifies users, sessions
      ensures Indexed(users.Table())
      ensures (View(), reply) == StepLogin(p, c, old(View()), email, passphrase, looked, ended, granted, token)
    {
      hide Indexed, SetAccount, Normalize;
      ghost var e, before := Normalize(email), users.Table();
      var found := users.GetByEmail(email);
      if found.None? {
        return Refused(InvalidCredentials);
      }
      var user := found.value;
      SetOne(before, e, NEW_ACCOUNT, NEW_ACCOUNT);
      if user.account.lockedUntil.Some? {
        if looked < user.account.lockedUntil.value {
          return Refused(AccountLocked);
        }
        users.ResetLoginFailures(user.id);
        found := users.GetByEmail(email);
        assert found.Some?;  // no program deletes users
        user := found.value;
      }
      assert user.account.lockedUntil.None? && user.passwordHash == before.rows[e].passwordHash;
      if !p.verify(passphrase, user.passwordHash) {
        ghost var counted := Try(c.limits, before.rows[e].account, Attempt(looked, ended, false)).0;
        SetOne(before, e, NEW_ACCOUNT, counted);
        SetOne(before, e, counted, counted);
        RegisterFailedAttempt(user, ended);
        return Refused(InvalidCredentials);
      }
      users.ResetLoginFailures(user.id);
      var created := sessions.Create(user.id, p.hashToken(token), granted + c.sessionTtl);
      if !created {
        return Refused(Internal);
      }
      return LoggedIn(token, granted + c.sessionTtl);
    }

    method RegisterFailedAttempt(user: User, now: int)
      modifies users`rows
      ensures users.Table() == SetAccount(old(users.Table()), user.id,
                Account(user.account.failed + 1,
                        if user.account.failed + 1 >= c.limits.max then Some(now + c.limits.lockout) else None))
    {
      var newCount := user.account.failed + 1;
      var lockedUntil := if newCount >= c.limits.max then Some(now + c.limits.lockout) else None;
      users.UpdateAfterFailedLogin(user.id, newCount, lockedUntil);
    }

    method Logout(token: string, now: int) returns (reply: Reply)
      modifies sessions
      ensures (View(), reply) == Step(p, c, old(View()), Request.Logout(token, now))
    {
      var _ := sessions.RevokeSession(p.hashToken(token), now);
      return LoggedOut;
    }
  }
}
