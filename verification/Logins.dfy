/** What holds over every run of registrations, logins, logouts and identifications. */
module Logins {
  import opened Text
  import opened Lockout
  import opened Accounts

  /** The answer to request `n` of a run. */
  function Answer(p: AuthPrims, c: Settings, rs: seq<Request>, n: nat): Reply
    requires n < |rs|
  {
    Step(p, c, Run(p, c, rs[..n]), rs[n]).1
  }

  // ------------------------------------------------------------- what the tables keep

  ghost predicate SoundAccounts(c: Settings, u: Users) {
    forall e :: e in u.rows ==> Sound(c.limits, u.rows[e].account)
  }

  ghost predicate Owned(s: State) {
    forall h :: h in s.sessions ==> s.sessions[h].userId in s.users.emails
  }

  ghost predicate Kept(c: Settings, s: State) {
    Indexed(s.users) && SoundAccounts(c, s.users) && Owned(s)
  }

  lemma RegisterKeeps(p: AuthPrims, c: Settings, s: State, r: Request)
    requires Sensible(c.limits) && Kept(c, s) && r.Register?
    ensures Kept(c, Step(p, c, s, r).0)
  {
    hide Normalize;
  }

  lemma LoginKeeps(p: AuthPrims, c: Settings, s: State, r: Request)
    requires Sensible(c.limits) && Kept(c, s) && r.Login?
    ensures Kept(c, Step(p, c, s, r).0)
  {
    hide Normalize, Indexed, SetAccount;
    var e := Normalize(r.email);
    if e in s.users.rows {
      var account := Try(c.limits, s.users.rows[e].account,
                         Attempt(r.looked, r.ended, p.verify(r.passphrase, s.users.rows[e].passwordHash))).0;
      SetOne(s.users, e, account, account);
    }
  }

  lemma {:induction false} AlwaysKept(p: AuthPrims, c: Settings, rs: seq<Request>)
    requires Sensible(c.limits)
    ensures Kept(c, Run(p, c, rs))
  {
    if rs != [] {
      var n := |rs| - 1;
      AlwaysKept(p, c, rs[..n]);
      if rs[n].Register? {
        RegisterKeeps(p, c, Run(p, c, rs[..n]), rs[n]);
      } else if rs[n].Login? {
        LoginKeeps(p, c, Run(p, c, rs[..n]), rs[n]);
      }
      hide Normalize;
    }
  }

  // ------------------------------------------------------------------ the guess bound

  /** The request tries a passphrase for the user with this email. */
  predicate Tries(r: Request, e: string) {
    r.Login? && Normalize(r.email) == e
  }

  /** What a request does to one user: nothing, or one attempt of the lockout machine,
      and the reply tells which way it went. */
  lemma OneAttempt(p: AuthPrims, c: Settings, s: State, r: Request, e: string)
    requires Indexed(s.users) && e in s.users.rows
    ensures var (s', reply) := Step(p, c, s, r);
            && e in s'.users.rows
            && if Tries(r, e) then
                 var attempt := Attempt(r.looked, r.ended, p.verify(r.passphrase, s.users.rows[e].passwordHash));
                 var (account, outcome) := Try(c.limits, s.users.rows[e].account, attempt);
                 && s'.users.rows[e] == s.users.rows[e].(account := account)
                 && (outcome.Locked? <==> reply == Refused(AccountLocked))
                 && (outcome.Rejected? <==> reply == Refused(InvalidCredentials))
               else s'.users.rows[e] == s.users.rows[e]
  {
    hide Normalize, SetAccount;
    if r.Login? && Normalize(r.email) in s.users.rows {
      var user := s.users.rows[Normalize(r.email)];
      var attempt := Attempt(r.looked, r.ended, p.verify(r.passphrase, user.passwordHash));
      var account := Try(c.limits, user.account, attempt).0;
      SetOne(s.users, Normalize(r.email), account, account);
    }
  }

  lemma StepKeeps(p: AuthPrims, c: Settings, s: State, r: Request)
    requires Sensible(c.limits) && Kept(c, s)
    ensures Kept(c, Step(p, c, s, r).0)
  {
    if r.Register? {
      RegisterKeeps(p, c, s, r);
    } else if r.Login? {
      LoginKeeps(p, c, s, r);
    }
  }

  /** The attempts a window of requests makes on one user. */
  function AttemptsOn(p: AuthPrims, c: Settings, s: State, rs: seq<Request>, e: string): seq<Attempt>
    decreases |rs|
  {
    if rs == [] then []
    else
      var rest := AttemptsOn(p, c, Step(p, c, s, rs[0]).0, rs[1..], e);
      if Tries(rs[0], e) && e in s.users.rows then
        [Attempt(rs[0].looked, rs[0].ended, p.verify(rs[0].passphrase, s.users.rows[e].passwordHash))] + rest
      else rest
  }

  /** How many of them were answered otherwise than by "locked": passphrases checked. */
  function CheckedOn(p: AuthPrims, c: Settings, s: State, rs: seq<Request>, e: string): nat
    decreases |rs|
  {
    if rs == [] then 0
    else
      var (s', reply) := Step(p, c, s, rs[0]);
      (if Tries(rs[0], e) && reply != Refused(AccountLocked) then 1 else 0) + CheckedOn(p, c, s', rs[1..], e)
  }

  /** All of them failed. */
  predicate NoneSucceeds(p: AuthPrims, c: Settings, s: State, rs: seq<Request>, e: string)
    decreases |rs|
  {
    rs == [] ||
    var (s', reply) := Step(p, c, s, rs[0]);
    && (Tries(rs[0], e) ==> reply in {Refused(AccountLocked), Refused(InvalidCredentials)})
    && NoneSucceeds(p, c, s', rs[1..], e)
  }

  lemma {:induction false} WindowMirrors(p: AuthPrims, c: Settings, s: State, rs: seq<Request>, e: string)
    requires Sensible(c.limits) && Kept(c, s) && e in s.users.rows
    ensures var a, ts := s.users.rows[e].account, AttemptsOn(p, c, s, rs, e);
            && CheckedOn(p, c, s, rs, e) == Checks(c.limits, a, ts)
            && (NoneSucceeds(p, c, s, rs, e) ==> NoneGranted(c.limits, a, ts))
    decreases |rs|
  {
    if rs != [] {
      var s' := Step(p, c, s, rs[0]).0;
      hide Step, Kept, Try;
      StepKeeps(p, c, s, rs[0]);
      KeptIndexed(c, s);
      OneAttempt(p, c, s, rs[0], e);
      WindowMirrors(p, c, s', rs[1..], e);
      var ts := AttemptsOn(p, c, s, rs, e);
      if Tries(rs[0], e) {
        assert ts[1..] == AttemptsOn(p, c, s', rs[1..], e);
      }
    }
  }

  lemma KeptIndexed(c: Settings, s: State)
    requires Kept(c, s)
    ensures Indexed(s.users) && SoundAccounts(c, s.users)
  {
  }

  /** The guess bound on the whole service.  After any run, in any window of requests by
      anybody in which no login of one registered user succeeds, that user's passphrase
      is checked at most max * (D div lockout + 1) times, when the user's logins come one
      after the other and touch an interval of length D. */
  lemma LoginGuessBound(p: AuthPrims, c: Settings, before: seq<Request>, window: seq<Request>, e: string,
                        from: int, length: nat)
    requires Sensible(c.limits) && e in Run(p, c, before).users.rows
    requires NoneSucceeds(p, c, Run(p, c, before), window, e)
    requires var ts := AttemptsOn(p, c, Run(p, c, before), window, e);
             InOrder(ts) && forall i :: 0 <= i < |ts| ==> from <= ts[i].end && ts[i].start <= from + length
    ensures CheckedOn(p, c, Run(p, c, before), window, e) <= c.limits.max * (length / c.limits.lockout + 1)
  {
    var s := Run(p, c, before);
    AlwaysKept(p, c, before);
    KeptIndexed(c, s);
    WindowMirrors(p, c, s, window, e);
    hide Kept, AttemptsOn, CheckedOn, NoneSucceeds, NoneGranted, Checks, InOrder;
    GuessBound(c.limits, s.users.rows[e].account, AttemptsOn(p, c, s, window, e), from, length);
  }

  // -------------------------------------------------------------------- the sessions

  datatype Grant = Grant(email: string, expires: int)

  /** The session a token hash stands for, going by requests and answers alone: the last
      login that was given a token with that hash, unless it was logged out since. */
  function Granted(p: AuthPrims, c: Settings, rs: seq<Request>, hash: string): Option<Grant> {
    if rs == [] then None
    else
      var n := |rs| - 1;
      match (rs[n], Answer(p, c, rs, n))
      case (Login(email, _, _, _, _, _), LoggedIn(token, expires)) =>
        if p.hashToken(token) == hash then Some(Grant(Normalize(email), expires)) else Granted(p, c, rs[..n], hash)
      case (Logout(token, _), _) => if p.hashToken(token) == hash then None else Granted(p, c, rs[..n], hash)
      case _ => Granted(p, c, rs[..n], hash)
  }

  function Found(s: State, hash: string): Option<Grant> {
    match FindActive(s, hash)
    case None => None
    case Some((session, email)) => Some(Grant(email, session.expires))
  }

  lemma FoundStep(p: AuthPrims, c: Settings, s: State, r: Request, hash: string)
    requires Indexed(s.users) && Owned(s)
    ensures var (s', reply) := Step(p, c, s, r);
            Found(s', hash) == match (r, reply)
              case (Login(email, _, _, _, _, _), LoggedIn(token, expires)) =>
                if p.hashToken(token) == hash then Some(Grant(Normalize(email), expires)) else Found(s, hash)
              case (Logout(token, _), _) => if p.hashToken(token) == hash then None else Found(s, hash)
              case _ => Found(s, hash)
  {
    hide Normalize, SetAccount;
    if r.Login? && Normalize(r.email) in s.users.rows {
      var user := s.users.rows[Normalize(r.email)];
      var attempt := Attempt(r.looked, r.ended, p.verify(r.passphrase, user.passwordHash));
      var account := Try(c.limits, user.account, attempt).0;
      SetOne(s.users, Normalize(r.email), account, account);
    }
  }

  lemma {:induction false} FoundWasGranted(p: AuthPrims, c: Settings, rs: seq<Request>, hash: string)
    requires Sensible(c.limits)
    ensures Found(Run(p, c, rs), hash) == Granted(p, c, rs, hash)
  {
    if rs != [] {
      var n := |rs| - 1;
      FoundWasGranted(p, c, rs[..n], hash);
      AlwaysKept(p, c, rs[..n]);
      hide Step, Found, Normalize, Indexed, SoundAccounts;
      FoundStep(p, c, Run(p, c, rs[..n]), rs[n], hash);
    }
  }

  /** Who a token identifies.  After any run a bearer token is accepted exactly when a
      login was given a token with its hash, that was not logged out since and has not
      expired; the caller is then the user who logged in. */
  lemma IdentifiesTheGrantee(p: AuthPrims, c: Settings, rs: seq<Request>, credentials: string, now: int)
    requires Sensible(c.limits)
    ensures var token := Strip(credentials);
            var grant := Granted(p, c, rs, p.hashToken(token));
            var reply := CurrentUser(p, Run(p, c, rs), credentials, now);
            if token != "" && grant.Some? && now < grant.value.expires
            then reply.Caller? && reply.email == grant.value.email
            else reply == Refused(Unauthenticated)
  {
    hide Granted, Run;
    FoundWasGranted(p, c, rs, p.hashToken(Strip(credentials)));
  }

  /** A grant has a login behind it, for that user, whose token has this hash. */
  lemma {:induction false} GrantHasLogin(p: AuthPrims, c: Settings, rs: seq<Request>, hash: string)
    requires Granted(p, c, rs, hash).Some?
    ensures exists j: nat :: GrantedAt(p, c, rs, j, hash, Granted(p, c, rs, hash).value)
  {
    hide Step, Run, Normalize;
    var n := |rs| - 1;
    var grant := Granted(p, c, rs, hash).value;
    if GrantedAt(p, c, rs, n, hash, grant) {
    } else {
      GrantHasLogin(p, c, rs[..n], hash);
      var j: nat :| GrantedAt(p, c, rs[..n], j, hash, grant);
      assert rs[..n][..j] == rs[..j];
      assert GrantedAt(p, c, rs, j, hash, grant);
    }
  }

  predicate GrantedAt(p: AuthPrims, c: Settings, rs: seq<Request>, j: nat, hash: string, grant: Grant) {
    && j < |rs| && rs[j].Login? && Answer(p, c, rs, j).LoggedIn?
    && p.hashToken(Answer(p, c, rs, j).token) == hash
    && grant == Grant(Normalize(rs[j].email), Answer(p, c, rs, j).expires)
  }

  /** No forging: an accepted token was given to that very user, or two different tokens
      with the same hash are at hand. */
  lemma AcceptedOrCollision(p: AuthPrims, c: Settings, rs: seq<Request>, credentials: string, now: int)
    requires Sensible(c.limits) && CurrentUser(p, Run(p, c, rs), credentials, now).Caller?
    ensures var email := CurrentUser(p, Run(p, c, rs), credentials, now).email;
            exists j: nat :: && j < |rs| && rs[j].Login? && Answer(p, c, rs, j).LoggedIn?
                             && Normalize(rs[j].email) == email && now < Answer(p, c, rs, j).expires
                             && (Answer(p, c, rs, j).token == Strip(credentials)
                                 || (Answer(p, c, rs, j).token != Strip(credentials)
                                     && p.hashToken(Answer(p, c, rs, j).token) == p.hashToken(Strip(credentials))))
  {
    IdentifiesTheGrantee(p, c, rs, credentials, now);
    var hash := p.hashToken(Strip(credentials));
    GrantHasLogin(p, c, rs, hash);
    hide Granted, Run, Normalize, Answer, CurrentUser;
    var grant := Granted(p, c, rs, hash).value;
    var j: nat :| GrantedAt(p, c, rs, j, hash, grant);
  }

  /** The row of that hash is there and revoked. */
  predicate Revoked(s: State, hash: string) {
    hash in s.sessions && s.sessions[hash].revokedAt.Some?
  }

  lemma RevokedStep(p: AuthPrims, c: Settings, s: State, r: Request, hash: string)
    requires Revoked(s, hash)
    ensures Revoked(Step(p, c, s, r).0, hash)
  {
    hide Normalize;
  }

  lemma {:induction false} RevokedForever(p: AuthPrims, c: Settings, rs: seq<Request>, k: nat)
    requires k <= |rs|
    ensures forall hash :: Revoked(Run(p, c, rs[..k]), hash) ==> Revoked(Run(p, c, rs), hash)
    decreases |rs| - k
  {
    if k == |rs| {
      assert rs[..k] == rs;
    } else {
      RevokedForever(p, c, rs, k + 1);
      assert rs[..k + 1][..k] == rs[..k];
      hide Step;
      forall hash | Revoked(Run(p, c, rs[..k]), hash) ensures Revoked(Run(p, c, rs[..k + 1]), hash) {
        RevokedStep(p, c, Run(p, c, rs[..k]), rs[k], hash);
      }
    }
  }

  /** Logout is final: a token once accepted and then logged out is never accepted again. */
  lemma LogoutIsFinal(p: AuthPrims, c: Settings, rs: seq<Request>, k: nat, credentials: string, now: int, later: int)
    requires k < |rs| && rs[k].Logout? && p.hashToken(rs[k].token) == p.hashToken(Strip(credentials))
    requires CurrentUser(p, Run(p, c, rs[..k]), credentials, now).Caller?
    ensures CurrentUser(p, Run(p, c, rs), credentials, later) == Refused(Unauthenticated)
  {
    var hash := p.hashToken(Strip(credentials));
    assert rs[..k + 1][..k] == rs[..k];
    assert Revoked(Run(p, c, rs[..k + 1]), hash);
    RevokedForever(p, c, rs, k + 1);
    hide Run;
  }
}
