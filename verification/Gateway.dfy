/** The whole service behind its routes: logins and sessions joined to the vault, the
    key-value engine and Transit, as main.py wires them.  Who a request acts for is read
    off its bearer token (src/auth/dependencies.py) and never off a field of the request. */
module Gateway {
  import opened Text
  import opened World
  import opened Accounts
  import Logins
  import Machine
  import Server

  /** The vault routes take anybody's requests, all others a logged-in user's. */
  type VaultOp = op: Op | IsVaultOp(op) witness Op.Lock
  type UserOp = op: Op | !IsVaultOp(op) witness ListKeys("")

  /** A call of one route; `checked` is the clock when the token is looked at. */
  datatype Call =
    | Signup(email: string, passphrase: string, confirmation: string, stored: string)
    | Signin(email: string, passphrase: string, looked: int, ended: int, granted: int, token: string)
    | Signout(credentials: string, checked: int, now: int)
    | VaultCall(vaultOp: VaultOp)
    | UserCall(credentials: string, checked: int, userOp: UserOp)

  datatype Outcome = FromAccounts(reply: Reply) | FromVault(resp: Resp)

  datatype Whole = Whole(sys: Sys, accounts: State)

  const FRESH := Whole(World.START, Accounts.START)

  /** The request as the identified user's: whatever user the caller wrote is dropped. */
  function As(op: UserOp, user: string): UserOp {
    op.(user := user)
  }

  function CallStep(p: Prims, a: AuthPrims, c: Settings, s: Whole, call: Call): (Whole, Outcome) {
    match call
    case Signup(email, passphrase, confirmation, stored) =>
      var (accounts, reply) := Accounts.Step(a, c, s.accounts, Register(email, passphrase, confirmation, stored));
      (s.(accounts := accounts), FromAccounts(reply))
    case Signin(email, passphrase, looked, ended, granted, token) =>
      var (accounts, reply) := Accounts.Step(a, c, s.accounts, Login(email, passphrase, looked, ended, granted, token));
      (s.(accounts := accounts), FromAccounts(reply))
    case Signout(credentials, checked, now) =>
      var caller := CurrentUser(a, s.accounts, credentials, checked);
      if caller.Caller? then
        var (accounts, reply) := Accounts.Step(a, c, s.accounts, Logout(Strip(credentials), now));
        (s.(accounts := accounts), FromAccounts(reply))
      else (s, FromAccounts(caller))
    case VaultCall(op) =>
      var (sys, resp) := Machine.Step(p, s.sys, op);
      (s.(sys := sys), FromVault(resp))
    case UserCall(credentials, checked, op) =>
      var caller := CurrentUser(a, s.accounts, credentials, checked);
      if caller.Caller? then
        var (sys, resp) := Machine.Step(p, s.sys, As(op, caller.email));
        (s.(sys := sys), FromVault(resp))
      else (s, FromAccounts(caller))
  }

  function Run(p: Prims, a: AuthPrims, c: Settings, calls: seq<Call>): Whole {
    if calls == [] then FRESH else CallStep(p, a, c, Run(p, a, c, calls[..|calls| - 1]), calls[|calls| - 1]).0
  }

  // ----------------------------------------------------- what calls come to, by grants

  /** The user a bearer token stands for after these account requests, going by the logins
      and logouts among them. */
  function Bearer(a: AuthPrims, c: Settings, rs: seq<Request>, credentials: string, checked: int): Option<string> {
    var token := Strip(credentials);
    var grant := Logins.Granted(a, c, rs, a.hashToken(token));
    if token != "" && grant.Some? && checked < grant.value.expires then Some(grant.value.email) else None
  }

  /** The account request a call comes to: a registration, a login, or a logout by a valid
      token. */
  function RequestOf(a: AuthPrims, c: Settings, rs: seq<Request>, call: Call): seq<Request> {
    match call
    case Signup(email, passphrase, confirmation, stored) => [Register(email, passphrase, confirmation, stored)]
    case Signin(email, passphrase, looked, ended, granted, token) =>
      [Login(email, passphrase, looked, ended, granted, token)]
    case Signout(credentials, checked, now) =>
      if Bearer(a, c, rs, credentials, checked).Some? then [Logout(Strip(credentials), now)] else []
    case _ => []
  }

  /** The server request a call comes to, under the user its token stands for. */
  function OpOf(a: AuthPrims, c: Settings, rs: seq<Request>, call: Call): seq<Op> {
    match call
    case VaultCall(op) => [op]
    case UserCall(credentials, checked, op) =>
      var user := Bearer(a, c, rs, credentials, checked);
      if user.Some? then [op.(user := user.value)] else []
    case _ => []
  }

  /** The account requests of a run. */
  function AccountPart(a: AuthPrims, c: Settings, calls: seq<Call>): seq<Request> {
    if calls == [] then []
    else
      var earlier := AccountPart(a, c, calls[..|calls| - 1]);
      earlier + RequestOf(a, c, earlier, calls[|calls| - 1])
  }

  /** The server requests of a run. */
  function ServedPart(a: AuthPrims, c: Settings, calls: seq<Call>): seq<Op> {
    if calls == [] then []
    else
      var n := |calls| - 1;
      ServedPart(a, c, calls[..n]) + OpOf(a, c, AccountPart(a, c, calls[..n]), calls[n])
  }

  lemma BearerIsCaller(a: AuthPrims, c: Settings, rs: seq<Request>, credentials: string, checked: int)
    requires Lockout.Sensible(c.limits)
    ensures var caller := CurrentUser(a, Accounts.Run(a, c, rs), credentials, checked);
            match Bearer(a, c, rs, credentials, checked)
            case Some(user) => caller.Caller? && caller.email == user
            case None => caller == Refused(Unauthenticated)
  {
    hide CurrentUser, Accounts.Run, Logins.Granted;
    Logins.IdentifiesTheGrantee(a, c, rs, credentials, checked);
  }

  lemma RunOneMore(p: Prims, a: AuthPrims, c: Settings, ops: seq<Op>, op: Op, rs: seq<Request>, r: Request)
    ensures Machine.Run(p, ops + [op]) == Machine.Step(p, Machine.Run(p, ops), op).0
    ensures Accounts.Run(a, c, rs + [r]) == Accounts.Step(a, c, Accounts.Run(a, c, rs), r).0
  {
    hide Machine.Step, Accounts.Step;
    assert (ops + [op])[..|ops|] == ops && (rs + [r])[..|rs|] == rs;
  }

  ghost predicate Splits(p: Prims, a: AuthPrims, c: Settings, s: Whole, ops: seq<Op>, rs: seq<Request>) {
    s == Whole(Machine.Run(p, ops), Accounts.Run(a, c, rs))
  }

  lemma AccountCallSplits(p: Prims, a: AuthPrims, c: Settings, s: Whole, ops: seq<Op>, rs: seq<Request>, call: Call)
    requires Lockout.Sensible(c.limits) && Splits(p, a, c, s, ops, rs)
    requires call.Signup? || call.Signin? || call.Signout?
    ensures OpOf(a, c, rs, call) == []
    ensures Splits(p, a, c, CallStep(p, a, c, s, call).0, ops, rs + RequestOf(a, c, rs, call))
  {
    hide Machine.Run, Machine.Step, Accounts.Run, Accounts.Step, CurrentUser, Bearer;
    if call.Signout? {
      BearerIsCaller(a, c, rs, call.credentials, call.checked);
      RunOneMore(p, a, c, [], Op.Lock, rs, Logout(Strip(call.credentials), call.now));
      assert rs + [] == rs;
    } else {
      RunOneMore(p, a, c, [], Op.Lock, rs, RequestOf(a, c, rs, call)[0]);
    }
  }

  lemma ServerCallSplits(p: Prims, a: AuthPrims, c: Settings, s: Whole, ops: seq<Op>, rs: seq<Request>, call: Call)
    requires Lockout.Sensible(c.limits) && Splits(p, a, c, s, ops, rs)
    requires call.VaultCall? || call.UserCall?
    ensures RequestOf(a, c, rs, call) == []
    ensures Splits(p, a, c, CallStep(p, a, c, s, call).0, ops + OpOf(a, c, rs, call), rs)
  {
    hide Machine.Run, Machine.Step, Accounts.Run, Accounts.Step, CurrentUser, Bearer;
    if call.UserCall? {
      BearerIsCaller(a, c, rs, call.credentials, call.checked);
    }
    if OpOf(a, c, rs, call) == [] {
      assert ops + [] == ops;
    } else {
      RunOneMore(p, a, c, ops, OpOf(a, c, rs, call)[0], [], Identify("", 0));
    }
  }

  /** The run of the whole service is the run of its accounts beside the run of its server. */
  lemma {:induction false} RunSplits(p: Prims, a: AuthPrims, c: Settings, calls: seq<Call>)
    requires Lockout.Sensible(c.limits)
    ensures Splits(p, a, c, Run(p, a, c, calls), ServedPart(a, c, calls), AccountPart(a, c, calls))
  {
    hide CallStep, Splits, OpOf, RequestOf;
    if calls == [] {
      FreshSplits(p, a, c);
    } else {
      var n := |calls| - 1;
      var s, rs, ops := Run(p, a, c, calls[..n]), AccountPart(a, c, calls[..n]), ServedPart(a, c, calls[..n]);
      RunSplits(p, a, c, calls[..n]);
      if calls[n].VaultCall? || calls[n].UserCall? {
        ServerCallSplits(p, a, c, s, ops, rs, calls[n]);
        assert rs + [] == rs;
      } else {
        AccountCallSplits(p, a, c, s, ops, rs, calls[n]);
        assert ops + [] == ops;
      }
    }
  }

  lemma FreshSplits(p: Prims, a: AuthPrims, c: Settings)
    ensures Splits(p, a, c, FRESH, [], [])
  {
  }

  lemma SplitIs(p: Prims, a: AuthPrims, c: Settings, calls: seq<Call>)
    requires Splits(p, a, c, Run(p, a, c, calls), ServedPart(a, c, calls), AccountPart(a, c, calls))
    ensures Run(p, a, c, calls).accounts == Accounts.Run(a, c, AccountPart(a, c, calls))
    ensures Run(p, a, c, calls).sys == Machine.Run(p, ServedPart(a, c, calls))
  {
    hide Run, Accounts.Run, Machine.Run, ServedPart, AccountPart;
  }

  /** A request acts for the user who logged in.  After any run a call with a bearer token
      is answered as its own request, with the user replaced by the one whose login was given
      a token of that hash, not logged out since and not expired, after the requests served
      so far; without such a login it is refused and changes nothing, not even the audit
      log. */
  lemma CallsActForTheGrantee(p: Prims, a: AuthPrims, c: Settings, calls: seq<Call>, k: nat)
    requires Lockout.Sensible(c.limits) && k < |calls| && calls[k].UserCall?
    ensures var before := Run(p, a, c, calls[..k]);
            var (after, outcome) := CallStep(p, a, c, before, calls[k]);
            var call, served := calls[k], ServedPart(a, c, calls[..k]);
            match Bearer(a, c, AccountPart(a, c, calls[..k]), call.credentials, call.checked)
            case Some(grantee) =>
              && outcome == FromVault(Machine.Step(p, Machine.Run(p, served), call.userOp.(user := grantee)).1)
              && ServedPart(a, c, calls[..k + 1]) == served + [call.userOp.(user := grantee)]
              && after.accounts == before.accounts
            case None => outcome == FromAccounts(Refused(Unauthenticated)) && after == before
  {
    hide Machine.Step, Machine.Run, Accounts.Step, Accounts.Run, CurrentUser, Bearer, Run, Splits, AccountPart;
    RunSplits(p, a, c, calls[..k]);
    SplitIs(p, a, c, calls[..k]);
    BearerIsCaller(a, c, AccountPart(a, c, calls[..k]), calls[k].credentials, calls[k].checked);
    assert calls[..k + 1][..k] == calls[..k];
  }

  /** Call `j` is behind this request: it is the vault request it asked for, or the user
      request it asked for in the name of the bearer of its token. */
  predicate Asked(a: AuthPrims, c: Settings, calls: seq<Call>, j: nat, op: Op) {
    && j < |calls|
    && match calls[j]
       case VaultCall(vaultOp) => op == vaultOp
       case UserCall(credentials, checked, userOp) =>
         var grantee := Bearer(a, c, AccountPart(a, c, calls[..j]), credentials, checked);
         grantee.Some? && op == userOp.(user := grantee.value)
       case _ => false
  }

  /** Nothing is served that no call asked for: every request the server got has a call
      behind it, and acts for the bearer of that call's token. */
  lemma {:induction false} EveryServedRequest(a: AuthPrims, c: Settings, calls: seq<Call>, n: nat)
    requires n < |ServedPart(a, c, calls)|
    ensures exists j: nat :: Asked(a, c, calls, j, ServedPart(a, c, calls)[n])
  {
    hide Bearer, AccountPart;
    var m := |calls| - 1;
    var earlier := ServedPart(a, c, calls[..m]);
    if n < |earlier| {
      EveryServedRequest(a, c, calls[..m], n);
      var j: nat :| Asked(a, c, calls[..m], j, earlier[n]);
      assert calls[..m][..j] == calls[..j];
      assert Asked(a, c, calls, j, ServedPart(a, c, calls)[n]);
    } else {
      assert Asked(a, c, calls, m, ServedPart(a, c, calls)[n]);
    }
  }

  /** Accounts behind the routes.  A registration or a login is answered as that request
      after the account requests so far; a logout by a valid token revokes it, and by any
      other is refused and changes nothing; none of them reaches the server. */
  lemma AccountCallsAnswer(p: Prims, a: AuthPrims, c: Settings, calls: seq<Call>, k: nat)
    requires Lockout.Sensible(c.limits) && k < |calls|
    requires calls[k].Signup? || calls[k].Signin? || calls[k].Signout?
    ensures var before, rs := Run(p, a, c, calls[..k]), AccountPart(a, c, calls[..k]);
            var (after, outcome) := CallStep(p, a, c, before, calls[k]);
            var rs' := AccountPart(a, c, calls[..k + 1]);
            && after.sys == before.sys && ServedPart(a, c, calls[..k + 1]) == ServedPart(a, c, calls[..k])
            && match calls[k]
               case Signup(email, passphrase, confirmation, stored) =>
                 && rs' == rs + [Register(email, passphrase, confirmation, stored)]
                 && outcome == FromAccounts(Logins.Answer(a, c, rs', |rs|))
               case Signin(email, passphrase, looked, ended, granted, token) =>
                 && rs' == rs + [Login(email, passphrase, looked, ended, granted, token)]
                 && outcome == FromAccounts(Logins.Answer(a, c, rs', |rs|))
               case Signout(credentials, checked, now) =>
                 if Bearer(a, c, rs, credentials, checked).Some? then
                   rs' == rs + [Logout(Strip(credentials), now)] && outcome == FromAccounts(LoggedOut)
                 else rs' == rs && after == before && outcome == FromAccounts(Refused(Unauthenticated))
               case _ => true
  {
    hide Machine.Step, CurrentUser, Bearer, Run, Accounts.Run, Splits, StepLogin, StepRegister, Strip;
    RunSplits(p, a, c, calls[..k]);
    SplitIs(p, a, c, calls[..k]);
    assert calls[..k + 1][..k] == calls[..k];
    var rs := AccountPart(a, c, calls[..k]);
    if calls[k].Signout? {
      BearerIsCaller(a, c, rs, calls[k].credentials, calls[k].checked);
    } else {
      var r := RequestOf(a, c, rs, calls[k])[0];
      assert (rs + [r])[..|rs|] == rs;
    }
    assert ServedPart(a, c, calls[..k]) + [] == ServedPart(a, c, calls[..k]);
  }

  /** No field of a request names its caller: writing another user into it changes nothing. */
  lemma WrittenUserIsIgnored(p: Prims, a: AuthPrims, c: Settings, s: Whole, call: Call, user: string)
    requires call.UserCall?
    ensures CallStep(p, a, c, s, call) == CallStep(p, a, c, s, call.(userOp := call.userOp.(user := user)))
  {
    hide Machine.Step, CurrentUser;
    AsTwice(call.userOp, user);
  }

  lemma AsTwice(op: UserOp, user: string)
    ensures forall other :: As(op.(user := user), other) == As(op, other)
  {
  }

  /** The service as an object: the server beside the accounts. */
  class Service {
    const server: Server.Server
    const auth: AuthService

    ghost predicate Valid()
      reads server.vault, server.vault.state, server.vault.state.buffers, server.vault.state.handed.Keys, auth.users
    {
      server.Valid() && Indexed(auth.users.Table())
    }

    ghost function View(): Whole
      reads server, server.vault, server.vault.state, server.vault.state.dek, server.kv.records, server.transit.keys
      reads server.audit, auth.users, auth.sessions
    {
      Whole(server.View(), auth.View())
    }

    constructor (p: Prims, a: AuthPrims, c: Settings)
      ensures Valid() && View() == FRESH && server.p == p && auth.p == a && auth.c == c
    {
      this.server := new Server.Server(p);
      this.auth := new AuthService(a, c);
    }

    /** One call of a route. */
    method Handle(call: Call) returns (outcome: Outcome)
      requires Valid()
      modifies server, server.vault`config, server.vault.state, server.vault.state.dek, server.kv.records
      modifies server.transit.keys, server.audit, auth.users, auth.sessions
      ensures Valid()
      ensures (View(), outcome) == CallStep(server.p, auth.p, auth.c, old(View()), call)
    {
      hide Machine.Step, StepLogin, StepRegister, Revoke, CurrentUser, Indexed;
      var reply: Reply;
      var resp: Resp;
      match call
      case Signup(email, passphrase, confirmation, stored) =>
        reply := auth.Register(email, passphrase, confirmation, stored);
        return FromAccounts(reply);
      case Signin(email, passphrase, looked, ended, granted, token) =>
        reply := auth.Login(email, passphrase, looked, ended, granted, token);
        return FromAccounts(reply);
      case Signout(credentials, checked, now) =>
        reply := CurrentUser(auth.p, auth.View(), credentials, checked);
        if reply.Caller? {
          reply := auth.Logout(Strip(credentials), now);
        }
        return FromAccounts(reply);
      case VaultCall(op) =>
        resp := server.Handle(op);
        return FromVault(resp);
      case UserCall(credentials, checked, op) =>
        reply := CurrentUser(auth.p, auth.View(), credentials, checked);
        if !reply.Caller? {
          return FromAccounts(reply);
        }
        resp := server.Handle(As(op, reply.email));
        return FromVault(resp);
    }
  }
}
