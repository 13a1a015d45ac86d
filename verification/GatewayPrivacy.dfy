/** Owner non-interference for the whole service: what one user sees through the routes does
    not depend on what anybody else calls, logins and logouts included. */
module GatewayPrivacy {
  import opened Text
  import opened World
  import opened Accounts
  import opened Gateway
  import opened LoginHistory
  import opened Refinement
  import N = NonInterference
  import Passphrase
  import Lockout
  import Machine
  import I = Ideal

  /** The calls that are this user's own, by what the caller wrote: registrations and logins
      under the user's email, calls and logouts with one of the user's tokens, and the vault
      calls, which are everybody's. */
  ghost predicate Mine(a: AuthPrims, call: Call, user: string, tokens: set<string>) {
    match call
    case Signup(email, _, _, _) => IsEmail(email, user)
    case Signin(email, _, _, _, _, _) => IsEmail(email, user)
    case Signout(credentials, _, _) => a.hashToken(Strip(credentials)) in tokens
    case VaultCall(_) => true
    case UserCall(credentials, _, _) => a.hashToken(Strip(credentials)) in tokens
  }

  /** `tokens` are the hashes of the tokens drawn for this user's logins, and of nobody else's. */
  ghost predicate DrawsApart(a: AuthPrims, call: Call, user: string, tokens: set<string>) {
    call.Signin? ==> (IsEmail(call.email, user) <==> a.hashToken(call.token) in tokens)
  }

  ghost predicate TokensOf(a: AuthPrims, calls: seq<Call>, user: string, tokens: set<string>) {
    forall k :: 0 <= k < |calls| ==> DrawsApart(a, calls[k], user, tokens)
  }

  /** The run without anybody else's calls. */
  ghost function MyCalls(a: AuthPrims, calls: seq<Call>, user: string, tokens: set<string>): seq<Call> {
    if calls == [] then []
    else
      var rest, call := MyCalls(a, calls[..|calls| - 1], user, tokens), calls[|calls| - 1];
      if Mine(a, call, user, tokens) then rest + [call] else rest
  }

  /** The outcomes of the user's own calls, in order. */
  ghost function MyOutcomes(p: Prims, a: AuthPrims, c: Settings, calls: seq<Call>, user: string,
                            tokens: set<string>) : seq<Outcome>
  {
    if calls == [] then []
    else
      var before, call := calls[..|calls| - 1], calls[|calls| - 1];
      var rest := MyOutcomes(p, a, c, before, user, tokens);
      if Mine(a, call, user, tokens) then rest + [CallStep(p, a, c, Gateway.Run(p, a, c, before), call).1] else rest
  }

  // ------------------------------------------------- the accounts, as one user sees them

  /** Two states of the accounts that look the same to the user. */
  ghost predicate SameAccounts(s: State, s': State, user: string, tokens: set<string>) {
    && (user in s.users.rows <==> user in s'.users.rows)
    && (user in s.users.rows ==>
          && s.users.rows[user].passwordHash == s'.users.rows[user].passwordHash
          && s.users.rows[user].account == s'.users.rows[user].account)
    && forall h :: h in tokens ==>
         && (h in s.sessions <==> h in s'.sessions)
         && (h in s.sessions ==>
               s.sessions[h].expires == s'.sessions[h].expires && s.sessions[h].revokedAt == s'.sessions[h].revokedAt)
  }

  /** The tables are in order, and the sessions under `tokens` are exactly this user's. */
  ghost predicate Ordered(s: State, user: string, tokens: set<string>) {
    && Indexed(s.users)
    && forall h :: h in s.sessions ==>
         s.sessions[h].userId in s.users.emails && (s.users.emails[s.sessions[h].userId] == user <==> h in tokens)
  }

  /** The accounts after a call, and what they reply to it. */
  function AccountsStep(a: AuthPrims, c: Settings, s: State, call: Call): (State, Reply) {
    match call
    case Signup(email, passphrase, confirmation, stored) =>
      Step(a, c, s, Register(email, passphrase, confirmation, stored))
    case Signin(email, passphrase, looked, ended, granted, token) =>
      Step(a, c, s, Login(email, passphrase, looked, ended, granted, token))
    case Signout(credentials, checked, now) =>
      var caller := CurrentUser(a, s, credentials, checked);
      if caller.Caller? then Step(a, c, s, Logout(Strip(credentials), now)) else (s, caller)
    case VaultCall(_) => (s, LoggedOut)
    case UserCall(credentials, checked, _) => (s, CurrentUser(a, s, credentials, checked))
  }

  /** Replies that tell the user the same; only the row id of a caller may differ. */
  predicate SameReply(r: Reply, r': Reply) {
    r == r' || (r.Caller? && r'.Caller? && r.email == r'.email)
  }

  lemma CurrentAlike(a: AuthPrims, s: State, s': State, credentials: string, now: int, user: string,
                     tokens: set<string>)
    requires Ordered(s, user, tokens) && Ordered(s', user, tokens) && SameAccounts(s, s', user, tokens)
    requires a.hashToken(Strip(credentials)) in tokens
    ensures SameReply(CurrentUser(a, s, credentials, now), CurrentUser(a, s', credentials, now))
    ensures CurrentUser(a, s, credentials, now).Caller? ==> CurrentUser(a, s, credentials, now).email == user
  {
    hide Strip, Indexed;
  }

  lemma CurrentIsOther(a: AuthPrims, s: State, credentials: string, now: int, user: string, tokens: set<string>)
    requires Ordered(s, user, tokens) && a.hashToken(Strip(credentials)) !in tokens
    ensures CurrentUser(a, s, credentials, now).Caller? ==> CurrentUser(a, s, credentials, now).email != user
  {
    hide Strip, Indexed;
  }

  lemma LoginOrdered(a: AuthPrims, c: Settings, s: State, call: Call, user: string, tokens: set<string>)
    requires Ordered(s, user, tokens) && call.Signin? && DrawsApart(a, call, user, tokens)
    ensures Ordered(AccountsStep(a, c, s, call).0, user, tokens)
  {
    hide Normalize, SetAccount, IsEmail;
    NormalizeMeans(call.email, user);
    var e := Normalize(call.email);
    if e in s.users.rows {
      var before := s.users.rows[e];
      var attempt := Lockout.Attempt(call.looked, call.ended, a.verify(call.passphrase, before.passwordHash));
      var account := Lockout.Try(c.limits, before.account, attempt).0;
      SetOne(s.users, e, account, account);
    }
  }

  lemma OrderedKept(a: AuthPrims, c: Settings, s: State, call: Call, user: string, tokens: set<string>)
    requires Ordered(s, user, tokens) && DrawsApart(a, call, user, tokens)
    ensures Ordered(AccountsStep(a, c, s, call).0, user, tokens)
  {
    if call.Signin? {
      LoginOrdered(a, c, s, call, user, tokens);
    } else {
      hide Normalize, Strip, IsEmail;
    }
  }

  lemma LoginAlike(a: AuthPrims, c: Settings, s: State, s': State, call: Call, user: string, tokens: set<string>)
    requires Ordered(s, user, tokens) && Ordered(s', user, tokens) && SameAccounts(s, s', user, tokens)
    requires call.Signin? && IsEmail(call.email, user) && a.hashToken(call.token) in tokens
    ensures SameAccounts(AccountsStep(a, c, s, call).0, AccountsStep(a, c, s', call).0, user, tokens)
    ensures AccountsStep(a, c, s, call).1 == AccountsStep(a, c, s', call).1
  {
    hide Normalize, SetAccount, IsEmail, Ordered;
    NormalizeMeans(call.email, user);
    OrderedIndexed(s, user, tokens);
    OrderedIndexed(s', user, tokens);
    if user in s.users.rows {
      var before := s.users.rows[user];
      var attempt := Lockout.Attempt(call.looked, call.ended, a.verify(call.passphrase, before.passwordHash));
      var account := Lockout.Try(c.limits, before.account, attempt).0;
      SetOne(s.users, user, account, account);
      SetOne(s'.users, user, account, account);
    }
  }

  lemma OrderedIndexed(s: State, user: string, tokens: set<string>)
    requires Ordered(s, user, tokens)
    ensures Indexed(s.users)
  {
  }

  /** The user's own call is answered alike from states alike, and leaves them alike. */
  lemma MineAlike(a: AuthPrims, c: Settings, s: State, s': State, call: Call, user: string, tokens: set<string>)
    requires Ordered(s, user, tokens) && Ordered(s', user, tokens) && SameAccounts(s, s', user, tokens)
    requires Mine(a, call, user, tokens) && DrawsApart(a, call, user, tokens)
    ensures SameAccounts(AccountsStep(a, c, s, call).0, AccountsStep(a, c, s', call).0, user, tokens)
    ensures SameReply(AccountsStep(a, c, s, call).1, AccountsStep(a, c, s', call).1)
  {
    hide Normalize, Strip, IsEmail, Ordered, CurrentUser, Passphrase.Strong;
    match call
    case Signin(_, _, _, _, _, _) => LoginAlike(a, c, s, s', call, user, tokens);
    case Signup(email, _, _, _) => NormalizeMeans(email, user);
    case Signout(credentials, checked, _) => CurrentAlike(a, s, s', credentials, checked, user, tokens);
    case UserCall(credentials, checked, _) => CurrentAlike(a, s, s', credentials, checked, user, tokens);
    case _ =>
  }

  lemma OtherLoginUnseen(a: AuthPrims, c: Settings, s: State, call: Call, user: string, tokens: set<string>)
    requires Ordered(s, user, tokens) && call.Signin?
    requires !IsEmail(call.email, user) && a.hashToken(call.token) !in tokens
    ensures SameAccounts(s, AccountsStep(a, c, s, call).0, user, tokens)
  {
    hide Normalize, SetAccount, IsEmail;
    var e := Normalize(call.email);
    NormalizeMeans(call.email, user);
    if e in s.users.rows {
      var before := s.users.rows[e];
      var attempt := Lockout.Attempt(call.looked, call.ended, a.verify(call.passphrase, before.passwordHash));
      var account := Lockout.Try(c.limits, before.account, attempt).0;
      SetOne(s.users, e, account, account);
    }
  }

  /** Somebody else's call changes nothing of the user's accounts. */
  lemma OtherUnseen(a: AuthPrims, c: Settings, s: State, call: Call, user: string, tokens: set<string>)
    requires Ordered(s, user, tokens) && !Mine(a, call, user, tokens) && DrawsApart(a, call, user, tokens)
    ensures SameAccounts(s, AccountsStep(a, c, s, call).0, user, tokens)
  {
    hide Normalize, Strip, IsEmail, Ordered, CurrentUser, Passphrase.Strong;
    match call
    case Signin(_, _, _, _, _, _) => OtherLoginUnseen(a, c, s, call, user, tokens);
    case Signup(email, _, _, _) => NormalizeMeans(email, user);
    case _ =>
  }

  // ------------------------------------------------------- accounts and ideal server

  datatype Both = Both(ideal: I.State, accounts: State)

  function BothStep(p: Prims, a: AuthPrims, c: Settings, s: Both, call: Call): (Both, Outcome) {
    var (accounts, reply) := AccountsStep(a, c, s.accounts, call);
    match call
    case VaultCall(op) =>
      var (ideal, resp) := I.Step(p, s.ideal, op);
      (Both(ideal, accounts), FromVault(resp))
    case UserCall(_, _, op) =>
      if reply.Caller? then
        var (ideal, resp) := I.Step(p, s.ideal, op.(user := reply.email));
        (Both(ideal, accounts), FromVault(resp))
      else (Both(s.ideal, accounts), FromAccounts(reply))
    case _ => (Both(s.ideal, accounts), FromAccounts(reply))
  }

  function BothRun(p: Prims, a: AuthPrims, c: Settings, calls: seq<Call>): Both {
    if calls == [] then Both(I.START, Accounts.START)
    else BothStep(p, a, c, BothRun(p, a, c, calls[..|calls| - 1]), calls[|calls| - 1]).0
  }

  ghost function BothOutcomes(p: Prims, a: AuthPrims, c: Settings, calls: seq<Call>, user: string,
                              tokens: set<string>) : seq<Outcome>
  {
    if calls == [] then []
    else
      var before, call := calls[..|calls| - 1], calls[|calls| - 1];
      var rest := BothOutcomes(p, a, c, before, user, tokens);
      if Mine(a, call, user, tokens) then rest + [BothStep(p, a, c, BothRun(p, a, c, before), call).1] else rest
  }

  ghost predicate SameBoth(s: Both, s': Both, user: string, tokens: set<string>) {
    && N.SameView(s.ideal, s'.ideal, user) && SameAccounts(s.accounts, s'.accounts, user, tokens)
    && Ordered(s.accounts, user, tokens) && Ordered(s'.accounts, user, tokens)
  }

  /** A call of the user is a vault request, or comes to a request of the user. */
  lemma MineVisible(a: AuthPrims, s: State, call: Call, user: string, tokens: set<string>)
    requires Ordered(s, user, tokens) && call.UserCall? && Mine(a, call, user, tokens)
    ensures var caller := CurrentUser(a, s, call.credentials, call.checked);
            caller.Caller? ==> caller.email == user && N.Visible(call.userOp.(user := caller.email), user)
  {
    hide Strip, CurrentUser;
    assert Mine(a, call, user, tokens);
    SameSelf(s, user, tokens);
    CurrentAlike(a, s, s, call.credentials, call.checked, user, tokens);
  }

  lemma SameSelf(s: State, user: string, tokens: set<string>)
    ensures SameAccounts(s, s, user, tokens)
  {
  }

  lemma NoCaller(a: AuthPrims, c: Settings, s: State, call: Call)
    requires call.Signup? || call.Signin? || call.Signout?
    ensures !AccountsStep(a, c, s, call).1.Caller?
  {
    hide Strip, Normalize, SetAccount, Passphrase.Strong, Lockout.Try, FindActive;
  }

  lemma MineBoth(p: Prims, a: AuthPrims, c: Settings, s: Both, s': Both, call: Call, user: string, tokens: set<string>)
    requires SameBoth(s, s', user, tokens) && Mine(a, call, user, tokens) && DrawsApart(a, call, user, tokens)
    ensures SameBoth(BothStep(p, a, c, s, call).0, BothStep(p, a, c, s', call).0, user, tokens)
    ensures BothStep(p, a, c, s, call).1 == BothStep(p, a, c, s', call).1
  {
    hide I.Step, Step, CurrentUser, Mine, DrawsApart, SameAccounts, Ordered, N.SameView;
    MineAlike(a, c, s.accounts, s'.accounts, call, user, tokens);
    OrderedKept(a, c, s.accounts, call, user, tokens);
    OrderedKept(a, c, s'.accounts, call, user, tokens);
    if call.VaultCall? {
      N.VisibleSeen(p, s.ideal, s'.ideal, call.vaultOp, user);
    } else if call.UserCall? {
      MineVisible(a, s.accounts, call, user, tokens);
      MineVisible(a, s'.accounts, call, user, tokens);
      var caller := CurrentUser(a, s.accounts, call.credentials, call.checked);
      if caller.Caller? {
        N.VisibleSeen(p, s.ideal, s'.ideal, call.userOp.(user := user), user);
      }
    } else {
      NoCaller(a, c, s.accounts, call);
    }
  }

  lemma SameTransitive(s: State, s': State, s'': State, user: string, tokens: set<string>)
    requires SameAccounts(s, s', user, tokens) && SameAccounts(s', s'', user, tokens)
    ensures SameAccounts(s, s'', user, tokens)
  {
  }

  /** Somebody else's call is unseen. */
  lemma OtherBoth(p: Prims, a: AuthPrims, c: Settings, s: Both, s': Both, call: Call, user: string, tokens: set<string>)
    requires SameBoth(s, s', user, tokens) && !Mine(a, call, user, tokens) && DrawsApart(a, call, user, tokens)
    ensures SameBoth(s, BothStep(p, a, c, s', call).0, user, tokens)
  {
    hide I.Step, Step, CurrentUser, Mine, DrawsApart, SameAccounts, Ordered, N.SameView;
    OtherUnseen(a, c, s'.accounts, call, user, tokens);
    SameTransitive(s.accounts, s'.accounts, AccountsStep(a, c, s'.accounts, call).0, user, tokens);
    OrderedKept(a, c, s'.accounts, call, user, tokens);
    VaultIsMine(a, call, user, tokens);
    if call.UserCall? {
      OtherCaller(a, s'.accounts, call, user, tokens);
      var caller := CurrentUser(a, s'.accounts, call.credentials, call.checked);
      if caller.Caller? {
        var op := call.userOp.(user := caller.email);
        N.OthersUnseen(p, s'.ideal, op, user);
        N.SameViewTransitive(s.ideal, s'.ideal, I.Step(p, s'.ideal, op).0, user);
      }
    }
  }

  lemma VaultIsMine(a: AuthPrims, call: Call, user: string, tokens: set<string>)
    ensures call.VaultCall? ==> Mine(a, call, user, tokens)
  {
  }

  lemma OtherCaller(a: AuthPrims, s: State, call: Call, user: string, tokens: set<string>)
    requires Ordered(s, user, tokens) && call.UserCall? && !Mine(a, call, user, tokens)
    ensures var caller := CurrentUser(a, s, call.credentials, call.checked);
            caller.Caller? ==> !N.Visible(call.userOp.(user := caller.email), user)
  {
    hide Strip, CurrentUser, Ordered;
    CurrentIsOther(a, s, call.credentials, call.checked, user, tokens);
  }

  lemma {:induction false} PurgeIsUnseen(p: Prims, a: AuthPrims, c: Settings, calls: seq<Call>, user: string,
                                         tokens: set<string>)
    requires TokensOf(a, calls, user, tokens)
    ensures SameBoth(BothRun(p, a, c, MyCalls(a, calls, user, tokens)), BothRun(p, a, c, calls), user, tokens)
    ensures BothOutcomes(p, a, c, calls, user, tokens)
         == BothOutcomes(p, a, c, MyCalls(a, calls, user, tokens), user, tokens)
  {
    hide BothStep, SameBoth, Mine, DrawsApart;
    if calls == [] {
      StartSame(user, tokens);
    } else {
      var before, call := calls[..|calls| - 1], calls[|calls| - 1];
      PurgeIsUnseen(p, a, c, before, user, tokens);
      var mine := MyCalls(a, before, user, tokens);
      var x, y := BothRun(p, a, c, mine), BothRun(p, a, c, before);
      assert DrawsApart(a, call, user, tokens);
      if Mine(a, call, user, tokens) {
        assert MyCalls(a, calls, user, tokens)[..|mine|] == mine;
        MineBoth(p, a, c, x, y, call, user, tokens);
      } else {
        OtherBoth(p, a, c, x, y, call, user, tokens);
      }
    }
  }

  lemma StartSame(user: string, tokens: set<string>)
    ensures SameBoth(Both(I.START, Accounts.START), Both(I.START, Accounts.START), user, tokens)
  {
    N.SameViewSelf(I.START, user);
  }

  // -------------------------------------------------------------- the service is both

  /** What a call comes to, seen from the accounts: the server requests of `OpOf`. */
  lemma ServedIs(a: AuthPrims, c: Settings, rs: seq<Request>, call: Call)
    requires Lockout.Sensible(c.limits) && call.UserCall?
    ensures var caller := CurrentUser(a, Accounts.Run(a, c, rs), call.credentials, call.checked);
            OpOf(a, c, rs, call) == if caller.Caller? then [call.userOp.(user := caller.email)] else []
  {
    hide CurrentUser, Bearer, Accounts.Run;
    BearerIsCaller(a, c, rs, call.credentials, call.checked);
  }

  lemma IdealOneMore(p: Prims, ops: seq<Op>, op: Op)
    ensures I.Run(p, ops + [op]) == I.Step(p, I.Run(p, ops), op).0
  {
    hide I.Step;
    assert (ops + [op])[..|ops|] == ops;
  }

  lemma AccountsAgree(p: Prims, a: AuthPrims, c: Settings, s: Whole, call: Call)
    ensures CallStep(p, a, c, s, call).0.accounts == AccountsStep(a, c, s.accounts, call).0
    ensures call.VaultCall? || (call.UserCall? && AccountsStep(a, c, s.accounts, call).1.Caller?)
         || CallStep(p, a, c, s, call).1 == FromAccounts(AccountsStep(a, c, s.accounts, call).1)
  {
    hide Machine.Step, Step, CurrentUser, Strip;
  }

  lemma {:induction false} RunIsBoth(p: Prims, a: AuthPrims, c: Settings, calls: seq<Call>)
    requires Lockout.Sensible(c.limits)
    ensures BothRun(p, a, c, calls) == Both(I.Run(p, ServedPart(a, c, calls)), Gateway.Run(p, a, c, calls).accounts)
  {
    hide I.Step, AccountsStep, CurrentUser, CallStep, I.Run, AccountPart, OpOf;
    if calls == [] {
      EmptyIsBoth(p);
    } else {
      var n := |calls| - 1;
      var before, call := calls[..n], calls[n];
      RunIsBoth(p, a, c, before);
      RunSplits(p, a, c, before);
      SplitIs(p, a, c, before);
      AccountsAgree(p, a, c, Gateway.Run(p, a, c, before), call);
      ServedBoth(p, a, c, before, call);
    }
  }

  lemma EmptyIsBoth(p: Prims)
    ensures I.Run(p, []) == I.START
  {
  }

  /** The ideal server after one more call has served what the call came to. */
  lemma ServedBoth(p: Prims, a: AuthPrims, c: Settings, before: seq<Call>, call: Call)
    requires Lockout.Sensible(c.limits)
    ensures var served := ServedPart(a, c, before);
            var rs := AccountPart(a, c, before);
            BothStep(p, a, c, Both(I.Run(p, served), Accounts.Run(a, c, rs)), call).0.ideal
            == I.Run(p, served + OpOf(a, c, rs, call))
  {
    hide I.Step, AccountsStep, CurrentUser, I.Run, AccountPart, ServedPart, Accounts.Run, Bearer;
    var served, rs := ServedPart(a, c, before), AccountPart(a, c, before);
    assert served + [] == served;
    if call.VaultCall? {
      IdealOneMore(p, served, call.vaultOp);
    } else if call.UserCall? {
      ServedIs(a, c, rs, call);
      ReplyIsCaller(a, c, Accounts.Run(a, c, rs), call);
      if OpOf(a, c, rs, call) != [] {
        IdealOneMore(p, served, OpOf(a, c, rs, call)[0]);
      }
    }
  }

  lemma ReplyIsCaller(a: AuthPrims, c: Settings, s: State, call: Call)
    requires call.UserCall?
    ensures AccountsStep(a, c, s, call) == (s, CurrentUser(a, s, call.credentials, call.checked))
  {
    hide CurrentUser;
  }

  /** When the requests served are legal, each call has the outcome of the ideal pair. */
  lemma OutcomeIsIdeal(p: Prims, a: AuthPrims, c: Settings, calls: seq<Call>)
    requires Lockout.Sensible(c.limits) && calls != [] && LegalRun(p, ServedPart(a, c, calls))
    ensures var before, call := calls[..|calls| - 1], calls[|calls| - 1];
            CallStep(p, a, c, Gateway.Run(p, a, c, before), call).1
            == BothStep(p, a, c, BothRun(p, a, c, before), call).1
  {
    hide I.Step, Machine.Step, AccountsStep, CurrentUser, I.Run, Machine.Run, AccountPart, ServedPart, Accounts.Run,
      Bearer, LegalRun, Gateway.Run, BothRun;
    var before, call := calls[..|calls| - 1], calls[|calls| - 1];
    var served, rs := ServedPart(a, c, before), AccountPart(a, c, before);
    RunIsBoth(p, a, c, before);
    RunSplits(p, a, c, before);
    SplitIs(p, a, c, before);
    AccountsAgree(p, a, c, Gateway.Run(p, a, c, before), call);
    ServedOneMore(a, c, calls);
    if call.VaultCall? {
      ServedIdeally(p, served, call.vaultOp);
    } else if call.UserCall? {
      ServedIs(a, c, rs, call);
      ReplyIsCaller(a, c, Accounts.Run(a, c, rs), call);
      if OpOf(a, c, rs, call) != [] {
        ServedIdeally(p, served, OpOf(a, c, rs, call)[0]);
      }
    }
  }

  lemma ServedOneMore(a: AuthPrims, c: Settings, calls: seq<Call>)
    requires calls != []
    ensures var before := calls[..|calls| - 1];
            ServedPart(a, c, calls)
            == ServedPart(a, c, before) + OpOf(a, c, AccountPart(a, c, before), calls[|calls| - 1])
  {
    hide OpOf, AccountPart;
  }

  lemma ServedIdeally(p: Prims, ops: seq<Op>, op: Op)
    requires LegalRun(p, ops + [op])
    ensures Machine.Step(p, Machine.Run(p, ops), op).1 == I.Step(p, I.Run(p, ops), op).1
  {
    hide LegalRun, Machine.Run, Machine.Step, I.Run, I.Step;
    AnswersAreIdeal(p, ops + [op], |ops|);
    assert (ops + [op])[..|ops|] == ops;
  }

  lemma {:induction false} OutcomesAreIdeal(p: Prims, a: AuthPrims, c: Settings, calls: seq<Call>, user: string,
                                            tokens: set<string>)
    requires Lockout.Sensible(c.limits) && LegalRun(p, ServedPart(a, c, calls))
    ensures MyOutcomes(p, a, c, calls, user, tokens) == BothOutcomes(p, a, c, calls, user, tokens)
  {
    hide CallStep, BothStep, LegalRun, Mine, Gateway.Run, BothRun, OpOf, ServedPart;
    if calls != [] {
      var before := calls[..|calls| - 1];
      ServedOneMore(a, c, calls);
      var served, all := ServedPart(a, c, before), ServedPart(a, c, calls);
      PrefixLegal(p, all, |served|);
      assert all[..|served|] == served;
      OutcomesAreIdeal(p, a, c, before, user, tokens);
      OutcomeIsIdeal(p, a, c, calls);
    }
  }

  /** Owner non-interference through the routes.  Take two runs of calls, and the hashes of
      the tokens drawn in them for one user's logins and for nobody else's.  If the user's
      own registrations, logins, logouts and calls are the same, between the same vault
      calls, they have the same outcomes in both: the same tokens, lockouts and refusals,
      and the same answers from the server, whatever anybody else calls in between. */
  lemma CallersDoNotInterfere(p: Prims, a: AuthPrims, c: Settings, calls: seq<Call>, calls': seq<Call>, user: string,
                              tokens: set<string>)
    requires Lockout.Sensible(c.limits)
    requires LegalRun(p, ServedPart(a, c, calls)) && LegalRun(p, ServedPart(a, c, calls'))
    requires TokensOf(a, calls, user, tokens) && TokensOf(a, calls', user, tokens)
    requires MyCalls(a, calls, user, tokens) == MyCalls(a, calls', user, tokens)
    ensures MyOutcomes(p, a, c, calls, user, tokens) == MyOutcomes(p, a, c, calls', user, tokens)
  {
    hide LegalRun, ServedPart, TokensOf, MyCalls, MyOutcomes, BothOutcomes, SameBoth;
    OutcomesAreIdeal(p, a, c, calls, user, tokens);
    OutcomesAreIdeal(p, a, c, calls', user, tokens);
    PurgeIsUnseen(p, a, c, calls, user, tokens);
    PurgeIsUnseen(p, a, c, calls', user, tokens);
  }
}
