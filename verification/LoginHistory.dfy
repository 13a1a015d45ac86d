/** Registration and login answered from the requests and answers of a run alone: which
    hash an email was registered with, how many checks failed since, and until when it is
    locked. */
module LoginHistory {
  import opened Text
  import opened Lockout
  import opened Accounts
  import opened Logins
  import Passphrase

  /** `email` is the written address trimmed and in lower case. */
  ghost predicate IsEmail(written: string, email: string) {
    exists trimmed :: IsTrimmed(written, trimmed) && IsLowered(trimmed, email)
  }

  lemma NormalizeMeans(written: string, email: string)
    ensures IsEmail(written, email) <==> email == Normalize(written)
  {
    hide Strip, Lower, IsTrimmed, IsLowered;
    StripMeans(written, Strip(written));
    LowerMeans(Strip(written), email);
    forall trimmed | IsTrimmed(written, trimmed) ensures trimmed == Strip(written) {
      StripMeans(written, trimmed);
    }
  }

  /** A registered user: the hash stored for it, the checks failed in a row, and the end of
      its lock. */
  datatype Standing = Standing(stored: string, failed: int, until: Option<int>)

  /** What one more request and its answer make of the standing of `email`.  Only a login of
      a registered email counts; one answered "locked" changes nothing, a right passphrase
      clears everything, a wrong one counts, from nought when a lock had run out, and at the
      limit locks the account from the end of the check. */
  ghost function Next(c: Settings, standing: Option<Standing>, r: Request, answer: Reply, email: string)
    : Option<Standing>
  {
    if r.Register? && answer == Registered(email) then Some(Standing(r.stored, 0, None))
    else if r.Login? && IsEmail(r.email, email) && standing.Some? then
      if answer == Refused(AccountLocked) then standing
      else if answer == Refused(InvalidCredentials) then
        var failed := if standing.value.until.Some? then 1 else standing.value.failed + 1;
        var until := if failed >= c.limits.max then Some(r.ended + c.limits.lockout) else None;
        Some(Standing(standing.value.stored, failed, until))
      else Some(Standing(standing.value.stored, 0, None))
    else standing
  }

  /** The standing of an email after these requests; none while it is not registered. */
  ghost function StandingOf(p: AuthPrims, c: Settings, rs: seq<Request>, email: string): Option<Standing> {
    if rs == [] then None
    else
      var n := |rs| - 1;
      Next(c, StandingOf(p, c, rs[..n], email), rs[n], Answer(p, c, rs, n), email)
  }

  /** A token of this hash was given out before. */
  ghost predicate GivenOut(p: AuthPrims, c: Settings, rs: seq<Request>, hash: string) {
    exists j: nat :: GivenAt(p, c, rs, j, hash)
  }

  predicate GivenAt(p: AuthPrims, c: Settings, rs: seq<Request>, j: nat, hash: string) {
    j < |rs| && rs[j].Login? && Answer(p, c, rs, j).LoggedIn? && p.hashToken(Answer(p, c, rs, j).token) == hash
  }

  /** The answer a login should get. */
  ghost function LoginAnswer(p: AuthPrims, c: Settings, standing: Option<Standing>, r: Request, givenOut: bool): Reply
    requires r.Login?
  {
    match standing
    case None => Refused(InvalidCredentials)
    case Some(user) =>
      if user.until.Some? && r.looked < user.until.value then Refused(AccountLocked)
      else if !p.verify(r.passphrase, user.stored) then Refused(InvalidCredentials)
      else if givenOut then Refused(Internal)
      else LoggedIn(r.token, r.granted + c.sessionTtl)
  }

  /** The answer a registration of `email` should get. */
  ghost function RegisterAnswer(standing: Option<Standing>, r: Request, email: string): Reply
    requires r.Register?
  {
    if r.passphrase != r.confirmation then Refused(PassphraseMismatch)
    else if !Passphrase.Strong(r.passphrase) then Refused(WeakPassphrase)
    else if standing.Some? then Refused(DuplicateEmail)
    else Registered(email)
  }

  /** The users table says the same of an email. */
  ghost predicate Stands(u: Users, email: string, standing: Option<Standing>) {
    && (email in u.rows <==> standing.Some?)
    && (email in u.rows ==>
          && u.rows[email].passwordHash == standing.value.stored
          && u.rows[email].account == Account(standing.value.failed, standing.value.until))
  }

  ghost predicate Knows(p: AuthPrims, c: Settings, rs: seq<Request>, s: State) {
    && (forall email :: Stands(s.users, email, StandingOf(p, c, rs, email)))
    && (forall hash :: hash in s.sessions <==> GivenOut(p, c, rs, hash))
  }

  lemma LoginStep(p: AuthPrims, c: Settings, s: State, r: Request, standing: Option<Standing>)
    requires Indexed(s.users) && r.Login? && Stands(s.users, Normalize(r.email), standing)
    ensures var (s', answer) := Step(p, c, s, r);
            && answer == LoginAnswer(p, c, standing, r, p.hashToken(r.token) in s.sessions)
            && Stands(s'.users, Normalize(r.email), Next(c, standing, r, answer, Normalize(r.email)))
            && forall other :: other != Normalize(r.email) ==>
                 (other in s'.users.rows <==> other in s.users.rows)
                 && (other in s'.users.rows ==> s'.users.rows[other] == s.users.rows[other])
  {
    hide Normalize, SetAccount, IsEmail;
    var e := Normalize(r.email);
    NormalizeMeans(r.email, e);
    if e in s.users.rows {
      var user := s.users.rows[e];
      var attempt := Attempt(r.looked, r.ended, p.verify(r.passphrase, user.passwordHash));
      var account := Try(c.limits, user.account, attempt).0;
      SetOne(s.users, e, account, account);
    }
  }

  lemma RegisterStep(p: AuthPrims, c: Settings, s: State, r: Request, email: string, standing: Option<Standing>)
    requires r.Register? && IsEmail(r.email, email) && Stands(s.users, email, standing)
    ensures var (s', answer) := Step(p, c, s, r);
            && answer == RegisterAnswer(standing, r, email)
            && Stands(s'.users, email, Next(c, standing, r, answer, email))
            && forall other :: other != email ==>
                 (other in s'.users.rows <==> other in s.users.rows)
                 && (other in s'.users.rows ==> s'.users.rows[other] == s.users.rows[other])
  {
    hide Normalize, IsEmail, Passphrase.Strong;
    NormalizeMeans(r.email, email);
  }

  lemma UsersStep(p: AuthPrims, c: Settings, s: State, r: Request, email: string, standing: Option<Standing>)
    requires Indexed(s.users) && Stands(s.users, email, standing)
    ensures var (s', answer) := Step(p, c, s, r);
            Stands(s'.users, email, Next(c, standing, r, answer, email))
  {
    if r.Login? && email == Normalize(r.email) {
      LoginStep(p, c, s, r, standing);
    } else if r.Register? && email == Normalize(r.email) {
      NormalizeMeans(r.email, email);
      RegisterStep(p, c, s, r, email, standing);
    } else {
      OtherUsersStep(p, c, s, r, email, standing);
    }
  }

  lemma OtherUsersStep(p: AuthPrims, c: Settings, s: State, r: Request, email: string, standing: Option<Standing>)
    requires Indexed(s.users) && Stands(s.users, email, standing)
    requires r.Login? || r.Register? ==> email != Normalize(r.email)
    ensures var (s', answer) := Step(p, c, s, r);
            Stands(s'.users, email, Next(c, standing, r, answer, email))
  {
    hide Normalize, SetAccount, IsEmail, Passphrase.Strong;
    if r.Login? || r.Register? {
      NormalizeMeans(r.email, email);
    }
    if r.Login? && Normalize(r.email) in s.users.rows {
      var user := s.users.rows[Normalize(r.email)];
      var attempt := Attempt(r.looked, r.ended, p.verify(r.passphrase, user.passwordHash));
      var account := Try(c.limits, user.account, attempt).0;
      SetOne(s.users, Normalize(r.email), account, account);
    }
  }

  lemma SessionsStep(p: AuthPrims, c: Settings, s: State, r: Request, hash: string)
    ensures var (s', answer) := Step(p, c, s, r);
            hash in s'.sessions
            <==> hash in s.sessions || (r.Login? && answer.LoggedIn? && p.hashToken(answer.token) == hash)
  {
    hide Normalize, SetAccount, Try, Passphrase.Strong;
  }

  lemma GivenStep(p: AuthPrims, c: Settings, rs: seq<Request>, hash: string)
    requires rs != []
    ensures var n := |rs| - 1;
            GivenOut(p, c, rs, hash)
            <==> GivenOut(p, c, rs[..n], hash)
                 || (rs[n].Login? && Answer(p, c, rs, n).LoggedIn? && p.hashToken(Answer(p, c, rs, n).token) == hash)
  {
    hide Step, Run;
    var n := |rs| - 1;
    forall j: nat | j < n ensures GivenAt(p, c, rs, j, hash) <==> GivenAt(p, c, rs[..n], j, hash) {
      assert rs[..n][..j] == rs[..j];
    }
    hide Answer;
    assert GivenAt(p, c, rs, n, hash)
      <==> rs[n].Login? && Answer(p, c, rs, n).LoggedIn? && p.hashToken(Answer(p, c, rs, n).token) == hash;
  }

  lemma {:induction false} RunKnows(p: AuthPrims, c: Settings, rs: seq<Request>)
    requires Sensible(c.limits)
    ensures Knows(p, c, rs, Run(p, c, rs))
  {
    hide Step, Stands, Next, GivenOut, Kept;
    if rs == [] {
      StartKnows(p, c);
    } else {
      var n := |rs| - 1;
      var s := Run(p, c, rs[..n]);
      RunKnows(p, c, rs[..n]);
      AlwaysKept(p, c, rs[..n]);
      KeptIndexed(c, s);
      forall email ensures Stands(Run(p, c, rs).users, email, StandingOf(p, c, rs, email)) {
        UsersStep(p, c, s, rs[n], email, StandingOf(p, c, rs[..n], email));
      }
      forall hash ensures hash in Run(p, c, rs).sessions <==> GivenOut(p, c, rs, hash) {
        SessionsStep(p, c, s, rs[n], hash);
        GivenStep(p, c, rs, hash);
      }
    }
  }

  lemma StartKnows(p: AuthPrims, c: Settings)
    ensures Knows(p, c, [], START)
  {
  }

  /** Login, exactly.  In every run a login of an email is answered from that email's
      standing: an unknown one as a wrong passphrase, a locked one as locked while the lock
      runs, a wrong passphrase as wrong, and the right one with the token drawn and an
      expiry one session lifetime on, unless a token of that hash was given out before. */
  lemma LoginIsAnswered(p: AuthPrims, c: Settings, rs: seq<Request>, k: nat, email: string)
    requires Sensible(c.limits) && k < |rs| && rs[k].Login? && IsEmail(rs[k].email, email)
    ensures Answer(p, c, rs, k)
         == LoginAnswer(p, c, StandingOf(p, c, rs[..k], email), rs[k],
                        GivenOut(p, c, rs[..k], p.hashToken(rs[k].token)))
  {
    hide Step, Run, Stands, GivenOut, LoginAnswer, Kept, IsEmail, StandingOf;
    NormalizeMeans(rs[k].email, email);
    RunKnows(p, c, rs[..k]);
    AlwaysKept(p, c, rs[..k]);
    KeptIndexed(c, Run(p, c, rs[..k]));
    LoginStep(p, c, Run(p, c, rs[..k]), rs[k], StandingOf(p, c, rs[..k], email));
  }

  /** Registration, exactly: refused for a mismatch, then for a weak passphrase, then for an
      email registered before, and otherwise done, with the hash given stored. */
  lemma RegisterIsAnswered(p: AuthPrims, c: Settings, rs: seq<Request>, k: nat, email: string)
    requires Sensible(c.limits) && k < |rs| && rs[k].Register? && IsEmail(rs[k].email, email)
    ensures Answer(p, c, rs, k) == RegisterAnswer(StandingOf(p, c, rs[..k], email), rs[k], email)
  {
    hide Step, Run, Stands, GivenOut, RegisterAnswer, IsEmail, StandingOf;
    RunKnows(p, c, rs[..k]);
    RegisterStep(p, c, Run(p, c, rs[..k]), rs[k], email, StandingOf(p, c, rs[..k], email));
  }

  /** The users table holds exactly the standings: every registered email with the hash it
      was registered with, its failures in a row and its lock. */
  lemma TableIsStandings(p: AuthPrims, c: Settings, rs: seq<Request>, email: string)
    requires Sensible(c.limits)
    ensures var rows := Run(p, c, rs).users.rows;
            match StandingOf(p, c, rs, email)
            case None => email !in rows
            case Some(user) =>
              email in rows && rows[email].passwordHash == user.stored
              && rows[email].account == Account(user.failed, user.until)
  {
    hide Run, StandingOf, GivenOut;
    RunKnows(p, c, rs);
    assert Stands(Run(p, c, rs).users, email, StandingOf(p, c, rs, email));
  }

  /** Logging out, exactly: it always succeeds, its token is refused from then on, and every
      token of another hash stands for whom it stood before.  The session is kept, with the
      time of its first logout. */
  lemma LogoutIsAnswered(p: AuthPrims, c: Settings, rs: seq<Request>, k: nat, credentials: string, now: int)
    requires Sensible(c.limits) && k < |rs| && rs[k].Logout?
    ensures Answer(p, c, rs, k) == LoggedOut
    ensures var before := CurrentUser(p, Run(p, c, rs[..k]), credentials, now);
            var after := CurrentUser(p, Run(p, c, rs[..k + 1]), credentials, now);
            if p.hashToken(Strip(credentials)) == p.hashToken(rs[k].token) then after == Refused(Unauthenticated)
            else after == before
    ensures var sessions, after := Run(p, c, rs[..k]).sessions, Run(p, c, rs[..k + 1]).sessions;
            && after.Keys == sessions.Keys
            && forall h :: h in sessions ==>
                 after[h] == if h == p.hashToken(rs[k].token) && sessions[h].revokedAt == None
                             then sessions[h].(revokedAt := Some(rs[k].now)) else sessions[h]
  {
    hide Run, Strip;
    assert rs[..k + 1][..k] == rs[..k];
    RunOneMore(p, c, rs, k);
  }

  lemma RunOneMore(p: AuthPrims, c: Settings, rs: seq<Request>, k: nat)
    requires k < |rs|
    ensures Run(p, c, rs[..k + 1]) == Step(p, c, Run(p, c, rs[..k]), rs[k]).0
  {
    hide Step;
    assert rs[..k + 1][..k] == rs[..k];
  }

  /** Request `j` registered the email. */
  predicate RegisteredAt(p: AuthPrims, c: Settings, rs: seq<Request>, j: nat, email: string) {
    j < |rs| && rs[j].Register? && Answer(p, c, rs, j) == Registered(email)
  }

  lemma RegistersItsEmail(p: AuthPrims, c: Settings, s: State, r: Request)
    requires r.Register? && Step(p, c, s, r).1.Registered?
    ensures IsEmail(r.email, Step(p, c, s, r).1.email)
  {
    hide Passphrase.Strong, Normalize, IsEmail;
    NormalizeMeans(r.email, Normalize(r.email));
  }

  /** A user is registered once, for good, with the hash of that registration. */
  lemma {:induction false} RegisteredForGood(p: AuthPrims, c: Settings, rs: seq<Request>, j: nat, m: nat, email: string)
    requires Sensible(c.limits) && RegisteredAt(p, c, rs, j, email) && j < m <= |rs|
    ensures StandingOf(p, c, rs[..m], email).Some? && StandingOf(p, c, rs[..m], email).value.stored == rs[j].stored
  {
    hide Answer, IsEmail, RegisterAnswer;
    var n := m - 1;
    assert rs[..m][..n] == rs[..n];
    AnswerEarlier(p, c, rs, m, n);
    if j < n {
      RegisteredForGood(p, c, rs, j, n, email);
      if RegisteredAt(p, c, rs, n, email) {
        NotTwice(p, c, rs, n, email);
      }
    }
  }

  lemma AnswerEarlier(p: AuthPrims, c: Settings, rs: seq<Request>, m: nat, n: nat)
    requires n < m <= |rs|
    ensures Answer(p, c, rs[..m], n) == Answer(p, c, rs, n)
  {
    hide Step, Run;
    assert rs[..m][..n] == rs[..n];
  }

  lemma NotTwice(p: AuthPrims, c: Settings, rs: seq<Request>, n: nat, email: string)
    requires Sensible(c.limits) && RegisteredAt(p, c, rs, n, email)
    ensures StandingOf(p, c, rs[..n], email).None?
  {
    hide Step, Run, StandingOf;
    RegistersItsEmail(p, c, Run(p, c, rs[..n]), rs[n]);
    RegisterIsAnswered(p, c, rs, n, email);
  }

  /** The right passphrase logs in.  However many wrong ones came before, when the account
      is not locked at the time, a login with a passphrase that fits the hash of the
      registration gets its token, unless one of that hash was given out before, and leaves
      no failure counted and no lock. */
  lemma RightPassphraseLogsIn(p: AuthPrims, c: Settings, rs: seq<Request>, j: nat, k: nat, email: string)
    requires Sensible(c.limits) && RegisteredAt(p, c, rs, j, email) && j < k < |rs|
    requires rs[k].Login? && IsEmail(rs[k].email, email) && p.verify(rs[k].passphrase, rs[j].stored)
    requires var standing := StandingOf(p, c, rs[..k], email);
             standing.Some? && standing.value.until.Some? ==> standing.value.until.value <= rs[k].looked
    ensures Answer(p, c, rs, k)
         == if GivenOut(p, c, rs[..k], p.hashToken(rs[k].token)) then Refused(Internal)
            else LoggedIn(rs[k].token, rs[k].granted + c.sessionTtl)
    ensures var rows := Run(p, c, rs[..k + 1]).users.rows;
            email in rows && rows[email].account == Account(0, None)
  {
    hide Step, Run, StandingOf, GivenOut, IsEmail;
    RegisteredForGood(p, c, rs, j, k, email);
    TableIsStandings(p, c, rs[..k], email);
    LoginIsAnswered(p, c, rs, k, email);
    TableIsStandings(p, c, rs[..k + 1], email);
    StandingOneMore(p, c, rs, k, email);
  }

  lemma StandingOneMore(p: AuthPrims, c: Settings, rs: seq<Request>, k: nat, email: string)
    requires k < |rs|
    ensures StandingOf(p, c, rs[..k + 1], email)
         == Next(c, StandingOf(p, c, rs[..k], email), rs[k], Answer(p, c, rs, k), email)
  {
    hide Next, Answer;
    assert rs[..k + 1][..k] == rs[..k];
    AnswerEarlier(p, c, rs, k + 1, k);
  }
}
