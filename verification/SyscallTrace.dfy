/**
 Every run of a call tree is a run of the nested-frame machine: the syscalls reach the journals
 only through their operations, through handing the database down and through taking it back.
 */
module SyscallTrace {
  import opened Primitives
  import opened Database
  import opened Journaling
  import opened CacheRefinement
  import opened NestedFrames
  import S = Syscalls

  // ----- Sequences of journal operations -----

  ghost function Fold(j: JournalState, db: DbState, ops: seq<Op>): JournalState
    decreases |ops|
  {
    if ops == [] then j else Fold(Apply(j, Some(db), ops[0]), db, ops[1..])
  }

  ghost predicate Allowed(j: JournalState, db: DbState, ops: seq<Op>)
    decreases |ops|
  {
    ops == [] || (Admissible(j, db, ops[0]) && Allowed(Apply(j, Some(db), ops[0]), db, ops[1..]))
  }

  lemma FoldCons(j: JournalState, db: DbState, op: Op, rest: seq<Op>)
    ensures Fold(j, db, [op] + rest) == Fold(Apply(j, Some(db), op), db, rest)
    ensures Allowed(j, db, [op] + rest) <==> Admissible(j, db, op) && Allowed(Apply(j, Some(db), op), db, rest)
  {
    assert ([op] + rest)[1..] == rest;
  }

  lemma {:induction false} FoldConcat(j: JournalState, db: DbState, xs: seq<Op>, ys: seq<Op>)
    ensures Fold(j, db, xs + ys) == Fold(Fold(j, db, xs), db, ys)
    ensures Allowed(j, db, xs + ys) <==> Allowed(j, db, xs) && Allowed(Fold(j, db, xs), db, ys)
    decreases |xs|
  {
    if xs == [] {
      assert xs + ys == ys;
    } else {
      assert xs + ys == [xs[0]] + (xs[1..] + ys);
      FoldCons(j, db, xs[0], xs[1..] + ys);
      FoldConcat(Apply(j, Some(db), xs[0]), db, xs[1..], ys);
    }
  }

  // ----- The operations behind each action -----

  ghost function WarmOps(of: Address, asked: Op, cold: bool): seq<Op> {
    [asked] + if cold then [AddAccountAsWarm(of)] + [] else []
  }

  ghost function EffectOps(ctx: S.Context, j: JournalState, db: DbState, action: S.Action): seq<Op>
    requires !action.CallTo? && !action.Create?
  {
    var base := Some(db);
    var self := ctx.address;
    match action
    case Balance(of) => WarmOps(of, GetAccount(of), !j.AccountIsWarm(of))
    case ExtCodeSize(of) => WarmOps(of, CodeByAddress(of), !j.AccountIsWarm(of))
    case ExtCodeCopy(of) => WarmOps(of, CodeByAddress(of), !j.CodeAsked(base, of).AccountIsWarm(of))
    case ExtCodeHash(of) =>
      [if j.Lookup(base, of).Some? then GetAccount(of) else AddAccountAsWarm(of)] + []
    case BlockHash(n) => [GetBlockHash(n)] + []
    case SLoad(key) => [ReadStorage(self, key)] + []
    case SStore(key, value) => [ReadStorage(self, key)] + ([WriteStorage(self, key, value)] + [])
    case Log => []
    case SelfDestruct(receiver) =>
      [GetAccount(self)] +
      (CreditOps(j.Loaded(base, self), db, receiver, S.BalanceOf(j, base, self)) + BuryOps(self))
  }

  ghost function CreditOps(j: JournalState, db: DbState, receiver: Address, amount: nat): seq<Op> {
    if j.Lookup(Some(db), receiver).Some?
    then [GetAccount(receiver)] + ([SetBalance(receiver, S.BalanceOf(j, Some(db), receiver) + amount)] + [])
    else [NewAccount(receiver, amount)] + []
  }

  ghost function BuryOps(self: Address): seq<Op> {
    [SetBalance(self, 0)] + ([SetStatus(self, SELF_DESTRUCTED)] + [])
  }

  lemma CreditIsOps(j: JournalState, db: DbState, receiver: Address, amount: nat)
    ensures Fold(j, db, CreditOps(j, db, receiver, amount)) == S.Credited(j, Some(db), receiver, amount)
    ensures Allowed(j, db, CreditOps(j, db, receiver, amount))
  {
    if j.Lookup(Some(db), receiver).Some? {
      var give := SetBalance(receiver, S.BalanceOf(j, Some(db), receiver) + amount);
      FoldCons(j, db, GetAccount(receiver), [give] + []);
      FoldCons(j.Loaded(Some(db), receiver), db, give, []);
    } else {
      FoldCons(j, db, NewAccount(receiver, amount), []);
    }
  }

  lemma BuryIsOps(j: JournalState, db: DbState, self: Address)
    ensures Fold(j, db, BuryOps(self)) == S.Buried(j, Some(db), self)
    ensures Allowed(j, db, BuryOps(self))
  {
    FoldCons(j, db, SetBalance(self, 0), [SetStatus(self, SELF_DESTRUCTED)] + []);
    FoldCons(j.SetBalance(Some(db), self, 0), db, SetStatus(self, SELF_DESTRUCTED), []);
  }

  lemma WarmIsOps(j: JournalState, db: DbState, of: Address, asked: Op, cold: bool)
    requires asked == GetAccount(of) || asked == CodeByAddress(of)
    ensures var j' := Apply(j, Some(db), asked);
            && Fold(j, db, WarmOps(of, asked, cold)) == (if cold then j'.AddAccountAsWarm(of) else j')
            && Allowed(j, db, WarmOps(of, asked, cold))
  {
    FoldCons(j, db, asked, if cold then [AddAccountAsWarm(of)] + [] else []);
    if cold {
      FoldCons(Apply(j, Some(db), asked), db, AddAccountAsWarm(of), []);
    }
  }

  lemma DestroyIsOps(ctx: S.Context, j: JournalState, db: DbState, receiver: Address)
    ensures Fold(j, db, EffectOps(ctx, j, db, S.SelfDestruct(receiver))) == S.Destroyed(ctx, j, Some(db), receiver)
    ensures Allowed(j, db, EffectOps(ctx, j, db, S.SelfDestruct(receiver)))
  {
    var loaded, balance := j.Loaded(Some(db), ctx.address), S.BalanceOf(j, Some(db), ctx.address);
    var credit := CreditOps(loaded, db, receiver, balance);
    FoldCons(j, db, GetAccount(ctx.address), credit + BuryOps(ctx.address));
    FoldConcat(loaded, db, credit, BuryOps(ctx.address));
    CreditIsOps(loaded, db, receiver, balance);
    BuryIsOps(Fold(loaded, db, credit), db, ctx.address);
  }

  /** The actions that warm an account they ask about. */
  lemma AskingIsOps(ctx: S.Context, st: S.FrameState, db: DbState, action: S.Action)
    requires action.Balance? || action.ExtCodeSize? || action.ExtCodeCopy?
    ensures Fold(st.journal, db, EffectOps(ctx, st.journal, db, action)) ==
            S.Effect(ctx, st, Some(db), action).journal
    ensures Allowed(st.journal, db, EffectOps(ctx, st.journal, db, action))
  {
    var j := st.journal;
    match action
    case Balance(of) => WarmIsOps(j, db, of, GetAccount(of), !j.AccountIsWarm(of));
    case ExtCodeSize(of) => WarmIsOps(j, db, of, CodeByAddress(of), !j.AccountIsWarm(of));
    case ExtCodeCopy(of) =>
      WarmIsOps(j, db, of, CodeByAddress(of), !j.CodeAsked(Some(db), of).AccountIsWarm(of));
  }

  /** The actions on the frame's own storage. */
  lemma StorageIsOps(ctx: S.Context, st: S.FrameState, db: DbState, action: S.Action)
    requires action.SLoad? || action.SStore?
    ensures Fold(st.journal, db, EffectOps(ctx, st.journal, db, action)) ==
            S.Effect(ctx, st, Some(db), action).journal
    ensures Allowed(st.journal, db, EffectOps(ctx, st.journal, db, action))
  {
    var j, self := st.journal, ctx.address;
    match action
    case SLoad(key) => FoldCons(j, db, ReadStorage(self, key), []);
    case SStore(key, value) =>
      FoldCons(j, db, ReadStorage(self, key), [WriteStorage(self, key, value)] + []);
      FoldCons(j.ReadStorage(Some(db), self, key), db, WriteStorage(self, key, value), []);
  }

  lemma EffectIsOps(ctx: S.Context, st: S.FrameState, db: DbState, action: S.Action)
    requires !action.CallTo? && !action.Create?
    ensures Fold(st.journal, db, EffectOps(ctx, st.journal, db, action)) ==
            S.Effect(ctx, st, Some(db), action).journal
    ensures Allowed(st.journal, db, EffectOps(ctx, st.journal, db, action))
  {
    var j := st.journal;
    match action
    case ExtCodeHash(of) =>
      FoldCons(j, db, if j.Lookup(Some(db), of).Some? then GetAccount(of) else AddAccountAsWarm(of), []);
    case BlockHash(n) => FoldCons(j, db, GetBlockHash(n), []);
    case Log =>
    case SelfDestruct(receiver) => DestroyIsOps(ctx, j, db, receiver);
    case _ =>
      if action.SLoad? || action.SStore? {
        StorageIsOps(ctx, st, db, action);
      } else {
        AskingIsOps(ctx, st, db, action);
      }
  }

  /** The operations between looking the parties up and entering the callee. */
  ghost function PayOps(j: JournalState, db: DbState, self: Address, to: Address, value: U256): seq<Op>
    requires value <= S.BalanceOf(j, Some(db), self)
  {
    var code := [CodeByAddress(to)] + [];
    if value == 0 then code
    else
      [SetBalance(self, S.BalanceOf(j, Some(db), self) - value)] +
      ([SetBalance(to, S.BalanceOf(j, Some(db), to) + value)] + code)
  }

  lemma PayIsOps(j: JournalState, db: DbState, self: Address, to: Address, value: U256)
    requires value <= S.BalanceOf(j, Some(db), self)
    ensures Fold(j, db, PayOps(j, db, self, to, value)) ==
            (if value == 0 then j else S.Transfer(j, Some(db), self, to, value)).CodeAsked(Some(db), to)
    ensures Allowed(j, db, PayOps(j, db, self, to, value))
  {
    var base, code := Some(db), [CodeByAddress(to)] + [];
    if value == 0 {
      FoldCons(j, db, CodeByAddress(to), []);
    } else {
      var take := SetBalance(self, S.BalanceOf(j, base, self) - value);
      var give := SetBalance(to, S.BalanceOf(j, base, to) + value);
      FoldCons(j, db, take, [give] + code);
      FoldCons(Apply(j, base, take), db, give, code);
      FoldCons(Apply(Apply(j, base, take), base, give), db, CodeByAddress(to), []);
    }
  }

  ghost function PartiesOps(j: JournalState, db: DbState, self: Address, to: Address): seq<Op> {
    WarmOps(to, GetAccount(to), !j.Loaded(Some(db), to).AccountIsWarm(to)) + ([GetAccount(self)] + [])
  }

  lemma PartiesIsOps(j: JournalState, db: DbState, self: Address, to: Address)
    ensures Fold(j, db, PartiesOps(j, db, self, to)) == S.Parties(j, Some(db), self, to)
    ensures Allowed(j, db, PartiesOps(j, db, self, to))
  {
    var cold := !j.Loaded(Some(db), to).AccountIsWarm(to);
    WarmIsOps(j, db, to, GetAccount(to), cold);
    FoldConcat(j, db, WarmOps(to, GetAccount(to), cold), [GetAccount(self)] + []);
    FoldCons(Fold(j, db, WarmOps(to, GetAccount(to), cold)), db, GetAccount(self), []);
  }

  /** A preparation stops after looking the parties up, or goes on to pay and fetch the code. */
  lemma PrepareParts(
    ctx: S.Context, j: JournalState, db: DbState, to: Address, value: U256, request: nat, available: nat)
    requires j.Lookup(Some(db), to).Some?
    ensures var prep := S.Prepare(ctx, j, Some(db), to, value, request, available);
            var ready := S.Parties(j, Some(db), ctx.address, to);
            && (prep.Refused? ==> prep.journal == ready)
            && (prep.Ready? ==>
                  && value <= S.BalanceOf(ready, Some(db), ctx.address)
                  && prep.journal == (if value == 0 then ready else S.Transfer(ready, Some(db), ctx.address, to, value))
                                       .CodeAsked(Some(db), to))
  {
  }

  ghost function PrepareOps(
    ctx: S.Context, j: JournalState, db: DbState, to: Address, value: U256, request: nat, available: nat): seq<Op>
  {
    if j.Lookup(Some(db), to).None? then []
    else
      PrepareParts(ctx, j, db, to, value, request, available);
      PartiesOps(j, db, ctx.address, to) +
      if S.Prepare(ctx, j, Some(db), to, value, request, available).Refused? then []
      else PayOps(S.Parties(j, Some(db), ctx.address, to), db, ctx.address, to, value)
  }

  lemma PrepareIsOps(
    ctx: S.Context, j: JournalState, db: DbState, to: Address, value: U256, request: nat, available: nat)
    ensures Fold(j, db, PrepareOps(ctx, j, db, to, value, request, available)) ==
            S.Prepare(ctx, j, Some(db), to, value, request, available).journal
    ensures Allowed(j, db, PrepareOps(ctx, j, db, to, value, request, available))
  {
    var self := ctx.address;
    if j.Lookup(Some(db), to).Some? {
      PrepareParts(ctx, j, db, to, value, request, available);
      PartiesIsOps(j, db, self, to);
      var ready := S.Parties(j, Some(db), self, to);
      if S.Prepare(ctx, j, Some(db), to, value, request, available).Refused? {
        assert PartiesOps(j, db, self, to) + [] == PartiesOps(j, db, self, to);
      } else {
        PayIsOps(ready, db, self, to, value);
        FoldConcat(j, db, PartiesOps(j, db, self, to), PayOps(ready, db, self, to, value));
      }
    }
  }

  ghost function CreateAskedOps(ctx: S.Context, j: JournalState, db: DbState, dest: Address, salted: bool): seq<Op> {
    match j.Lookup(Some(db), ctx.address)
    case None => []
    case Some(sender) =>
      [GetAccount(ctx.address)] +
      if !salted && sender.nonce + 1 >= TWO_64 then [] else [GetAccount(dest)] + []
  }

  lemma CreateAskedIsOps(ctx: S.Context, j: JournalState, db: DbState, dest: Address, salted: bool)
    ensures Fold(j, db, CreateAskedOps(ctx, j, db, dest, salted)) == S.CreateAsked(ctx, j, Some(db), dest, salted)
    ensures Allowed(j, db, CreateAskedOps(ctx, j, db, dest, salted))
  {
    if j.Lookup(Some(db), ctx.address).Some? {
      var loaded := j.Loaded(Some(db), ctx.address);
      var rest := if !salted && j.Lookup(Some(db), ctx.address).value.nonce + 1 >= TWO_64
                  then [] else [GetAccount(dest)] + [];
      FoldCons(j, db, GetAccount(ctx.address), rest);
      FoldCons(loaded, db, GetAccount(dest), []);
    }
  }

  ghost function AnnounceOps(ctx: S.Context, dest: Address): seq<Op> {
    [GetAccount(ctx.address)] + ([AddAccountAsWarm(dest)] + [])
  }

  lemma AnnounceIsOps(ctx: S.Context, j: JournalState, db: DbState, dest: Address)
    requires dest !in db.accounts
    ensures Fold(j, db, AnnounceOps(ctx, dest)) == j.Loaded(Some(db), ctx.address).AddAccountAsWarm(dest)
    ensures Allowed(j, db, AnnounceOps(ctx, dest))
  {
    FoldCons(j, db, GetAccount(ctx.address), [AddAccountAsWarm(dest)] + []);
    FoldCons(j.Loaded(Some(db), ctx.address), db, AddAccountAsWarm(dest), []);
  }

  ghost function CreateEndOps(
    ctx: S.Context, sender: AccountInfo, dest: Address, value: U256, deployed: Bytecode): seq<Op>
  {
    if sender.balance < value then []
    else
      [NewContract(dest, deployed, value)] +
      if sender.nonce + 1 >= TWO_64 then []
      else [SetNonce(ctx.address, sender.nonce + 1)] + ([SetBalance(ctx.address, sender.balance - value)] + [])
  }

  lemma CreateEndIsOps(
    ctx: S.Context, sender: AccountInfo, j: JournalState, db: DbState, dest: Address, value: U256, deployed: Bytecode)
    requires dest !in db.accounts
    ensures Fold(j, db, CreateEndOps(ctx, sender, dest, value, deployed)) ==
            S.CreateEnd(ctx, sender, j, Some(db), dest, value, deployed).0
    ensures Allowed(j, db, CreateEndOps(ctx, sender, dest, value, deployed))
  {
    if sender.balance >= value {
      var made := j.NewContract(dest, deployed, value);
      if sender.nonce + 1 >= TWO_64 {
        FoldCons(j, db, NewContract(dest, deployed, value), []);
      } else {
        var nonce, pay := SetNonce(ctx.address, sender.nonce + 1), SetBalance(ctx.address, sender.balance - value);
        FoldCons(j, db, NewContract(dest, deployed, value), [nonce] + ([pay] + []));
        FoldCons(made, db, nonce, [pay] + []);
        FoldCons(made.SetNonce(Some(db), ctx.address, sender.nonce + 1), db, pay, []);
      }
    }
  }

  // ----- The steps of a whole run -----

  ghost function Dos(ops: seq<Op>): seq<Step> {
    if ops == [] then [] else [Do(ops[0])] + Dos(ops[1..])
  }

  ghost function RunSteps(script: S.Script, ctx: S.Context, st: S.FrameState, db: DbState): seq<Step>
    decreases script, 0
  {
    match script
    case End(_, _) => []
    case Then(action, rest) =>
      var outcome := S.Act(action, ctx, st, db);
      ActSteps(action, ctx, st, db) +
      if outcome.halted then [] else RunSteps(rest, ctx, outcome.state, db)
  }

  ghost function CalledSteps(
    prep: S.Preparation, kind: S.CallKind, to: Address, value: U256, callee: S.Script,
    ctx: S.Context, st: S.FrameState, db: DbState): seq<Step>
    decreases callee, 1
  {
    if prep.Refused? then []
    else
      var child := S.Callee(ctx, kind, to, value, prep.forwarded + prep.stipend);
      var start := S.Enter(st, prep.journal, child, prep.overflow);
      CallSteps(RunSteps(callee, child, start, db), S.Run(callee, child, start, db).exit.Success())
  }

  ghost function ActSteps(action: S.Action, ctx: S.Context, st: S.FrameState, db: DbState): seq<Step>
    decreases action, 0
  {
    if S.Forbidden(ctx, action) then []
    else
      match action
      case CallTo(kind, to, value, request, spent, callee) =>
        if spent > ctx.limit || S.IsPrecompile(to) then []
        else
          var v := S.Transferred(kind, value);
          var prep := S.Prepare(ctx, st.journal, Some(db), to, v, request, ctx.limit - spent);
          Dos(PrepareOps(ctx, st.journal, db, to, v, request, ctx.limit - spent)) +
          CalledSteps(prep, kind, to, v, callee, ctx, st, db)
      case Create(dest, value, salted, available, init, deployed) =>
        if S.CreateRefused(ctx, st.journal, Some(db), dest, salted) then
          Dos(CreateAskedOps(ctx, st.journal, db, dest, salted))
        else
          var sender := st.journal.Lookup(Some(db), ctx.address).value.Info();
          var child := S.Initialiser(ctx, dest, available);
          var start := S.Enter(st, S.CreateStart(ctx, st.journal, Some(db), dest, value), child, false);
          Dos(AnnounceOps(ctx, dest)) +
          (CallSteps([Do(NewAccount(dest, value))] + RunSteps(init, child, start, db), true) +
           Dos(CreateEndOps(ctx, sender, dest, value, deployed)))
      case _ => Dos(EffectOps(ctx, st.journal, db, action))
  }

  ghost function CallSteps(body: seq<Step>, success: bool): seq<Step> {
    [Enter] + (body + [if success then LeaveSuccessful else LeaveReverted])
  }

  lemma {:induction false} AfterConcat(s: Stack<FrameJournal>, db: DbState, xs: seq<Step>, ys: seq<Step>)
    ensures After(s, xs + ys) == After(After(s, xs), ys)
    ensures Runs(s, db, xs + ys) <==> Runs(s, db, xs) && Runs(After(s, xs), db, ys)
    decreases |xs|
  {
    if xs == [] {
      assert xs + ys == ys;
    } else {
      assert (xs + ys)[1..] == xs[1..] + ys;
      AfterConcat(Next(s, xs[0]), db, xs[1..], ys);
    }
  }

  lemma {:induction false} DosRun(s: Stack<FrameJournal>, db: DbState, ops: seq<Op>)
    requires s.top.base == Some(db) && Allowed(s.top.state, db, ops)
    ensures Runs(s, db, Dos(ops))
    ensures After(s, Dos(ops)) == s.(top := FrameJournal(Fold(s.top.state, db, ops), Some(db)))
    decreases |ops|
  {
    if ops != [] {
      var steps := [Do(ops[0])] + Dos(ops[1..]);
      assert steps[1..] == Dos(ops[1..]);
      DosRun(Next(s, Do(ops[0])), db, ops[1..]);
    }
  }

  /** The frame on top goes on with other contents; the database stays with it. */
  ghost function Onwards(s: Stack<FrameJournal>, db: DbState, j: JournalState): Stack<FrameJournal> {
    s.(top := FrameJournal(j, Some(db)))
  }

  lemma CallRun(s: Stack<FrameJournal>, db: DbState, body: seq<Step>, success: bool, j: JournalState)
    requires s.top.base == Some(db)
    requires Runs(Next(s, Enter), db, body) && After(Next(s, Enter), body) == Onwards(Next(s, Enter), db, j)
    ensures Runs(s, db, CallSteps(body, success))
    ensures After(s, CallSteps(body, success)) == Onwards(s, db, if success then j else s.top.state)
  {
    var leave := [if success then LeaveSuccessful else LeaveReverted];
    var steps := [Enter] + (body + leave);
    assert steps[1..] == body + leave;
    AfterConcat(Next(s, Enter), db, body, leave);
    assert leave[1..] == [];
  }

  /** A run is its steps: they are enabled one after the other and lead to the run's last journal. */
  lemma {:induction false} RunTraced(
    script: S.Script, ctx: S.Context, st: S.FrameState, db: DbState, s: Stack<FrameJournal>)
    requires s.top == FrameJournal(st.journal, Some(db))
    ensures Runs(s, db, RunSteps(script, ctx, st, db))
    ensures After(s, RunSteps(script, ctx, st, db)) == Onwards(s, db, S.Run(script, ctx, st, db).state.journal)
    decreases script, 2
  {
    if script.Then? {
      var outcome := S.Act(script.action, ctx, st, db);
      var steps := ActSteps(script.action, ctx, st, db);
      ActTraced(script.action, ctx, st, db, s);
      if outcome.halted {
        assert steps + [] == steps;
      } else {
        var next := Onwards(s, db, outcome.state.journal);
        RunTraced(script.rest, ctx, outcome.state, db, next);
        AfterConcat(s, db, steps, RunSteps(script.rest, ctx, outcome.state, db));
      }
    }
  }

  lemma {:induction false} ActTraced(
    action: S.Action, ctx: S.Context, st: S.FrameState, db: DbState, s: Stack<FrameJournal>)
    requires s.top == FrameJournal(st.journal, Some(db))
    ensures Runs(s, db, ActSteps(action, ctx, st, db))
    ensures After(s, ActSteps(action, ctx, st, db)) == Onwards(s, db, S.Act(action, ctx, st, db).state.journal)
    decreases action, 1
  {
    if !S.Forbidden(ctx, action) {
      match action
      case CallTo(_, _, _, _, _, _) => CallTraced(action, ctx, st, db, s);
      case Create(dest, value, salted, available, init, deployed) =>
        if S.CreateRefused(ctx, st.journal, Some(db), dest, salted) {
          CreateAskedIsOps(ctx, st.journal, db, dest, salted);
          DosRun(s, db, CreateAskedOps(ctx, st.journal, db, dest, salted));
        } else {
          CreateTraced(action, ctx, st, db, s);
        }
      case _ =>
        EffectIsOps(ctx, st, db, action);
        DosRun(s, db, EffectOps(ctx, st.journal, db, action));
    }
  }

  lemma {:induction false} CallTraced(
    action: S.Action, ctx: S.Context, st: S.FrameState, db: DbState, s: Stack<FrameJournal>)
    requires s.top == FrameJournal(st.journal, Some(db)) && action.CallTo? && !S.Forbidden(ctx, action)
    ensures Runs(s, db, ActSteps(action, ctx, st, db))
    ensures After(s, ActSteps(action, ctx, st, db)) == Onwards(s, db, S.Act(action, ctx, st, db).state.journal)
    decreases action, 0
  {
    var CallTo(kind, to, value, request, spent, callee) := action;
    if spent <= ctx.limit && !S.IsPrecompile(to) {
      var v, available := S.Transferred(kind, value), ctx.limit - spent;
      var prep := S.Prepare(ctx, st.journal, Some(db), to, v, request, available);
      var ops := PrepareOps(ctx, st.journal, db, to, v, request, available);
      PrepareIsOps(ctx, st.journal, db, to, v, request, available);
      DosRun(s, db, ops);
      assert ActSteps(action, ctx, st, db) == Dos(ops) + CalledSteps(prep, kind, to, v, callee, ctx, st, db);
      assert S.Act(action, ctx, st, db).state == S.Called(prep, kind, to, v, callee, ctx, st, db);
      CalledTraced(prep, kind, to, v, callee, ctx, st, db, Onwards(s, db, prep.journal));
      AfterConcat(s, db, Dos(ops), CalledSteps(prep, kind, to, v, callee, ctx, st, db));
    }
  }

  lemma {:induction false} CalledTraced(
    prep: S.Preparation, kind: S.CallKind, to: Address, value: U256, callee: S.Script,
    ctx: S.Context, st: S.FrameState, db: DbState, s: Stack<FrameJournal>)
    requires s.top == FrameJournal(prep.journal, Some(db))
    ensures var steps := CalledSteps(prep, kind, to, value, callee, ctx, st, db);
            && Runs(s, db, steps)
            && After(s, steps) == Onwards(s, db, S.Called(prep, kind, to, value, callee, ctx, st, db).journal)
    decreases callee, 3
  {
    if prep.Ready? {
      var child := S.Callee(ctx, kind, to, value, prep.forwarded + prep.stipend);
      var start := S.Enter(st, prep.journal, child, prep.overflow);
      var result := S.Run(callee, child, start, db);
      RunTraced(callee, child, start, db, Next(s, Enter));
      CallRun(s, db, RunSteps(callee, child, start, db), result.exit.Success(), result.state.journal);
    }
  }

  lemma {:induction false} CreateTraced(
    action: S.Action, ctx: S.Context, st: S.FrameState, db: DbState, s: Stack<FrameJournal>)
    requires s.top == FrameJournal(st.journal, Some(db)) && action.Create? && !S.Forbidden(ctx, action)
    requires !S.CreateRefused(ctx, st.journal, Some(db), action.dest, action.salted)
    ensures Runs(s, db, ActSteps(action, ctx, st, db))
    ensures After(s, ActSteps(action, ctx, st, db)) == Onwards(s, db, S.Act(action, ctx, st, db).state.journal)
    decreases action, 0
  {
    var Create(dest, value, salted, available, init, deployed) := action;
    var sender := st.journal.Lookup(Some(db), ctx.address).value.Info();
    var child := S.Initialiser(ctx, dest, available);
    var start := S.Enter(st, S.CreateStart(ctx, st.journal, Some(db), dest, value), child, false);
    AnnounceIsOps(ctx, st.journal, db, dest);
    DosRun(s, db, AnnounceOps(ctx, dest));
    var mid := After(s, Dos(AnnounceOps(ctx, dest)));
    var inner := Next(mid, Enter);
    var steps := RunSteps(init, child, start, db);
    var body := [Do(NewAccount(dest, value))] + steps;
    RunTraced(init, child, start, db, Next(inner, Do(NewAccount(dest, value))));
    assert body[1..] == steps;
    var ran := S.Run(init, child, start, db).state.journal;
    CallRun(mid, db, body, true, ran);
    var end := CreateEndOps(ctx, sender, dest, value, deployed);
    CreateEndIsOps(ctx, sender, ran, db, dest, value, deployed);
    DosRun(Onwards(s, db, ran), db, end);
    AfterConcat(mid, db, CallSteps(body, true), Dos(end));
    AfterConcat(s, db, Dos(AnnounceOps(ctx, dest)), CallSteps(body, true) + Dos(end));
  }

  /**
   Any call tree, from any frame of a coherent stack: the frame ends with a coherent journal that
   shows the plain world its steps lead to, the database with it and its callers untouched.
   */
  lemma RunKeepsProtocol(
    script: S.Script, ctx: S.Context, st: S.FrameState, db: DbState, s: Stack<FrameJournal>, w: Stack<World>)
    requires db.WellFormed() && Protocol(s, w, db) && s.top.state == st.journal
    ensures Protocol(Onwards(s, db, S.Run(script, ctx, st, db).state.journal),
                     PlainAfter(w, RunSteps(script, ctx, st, db)), db)
  {
    RunTraced(script, ctx, st, db, s);
    RunRefines(s, w, db, RunSteps(script, ctx, st, db));
  }

  // ----- Accounts are never forgotten -----

  ghost predicate Visible(j: JournalState, db: DbState, a: Address) {
    j.Lookup(Some(db), a).Some?
  }

  ghost predicate VisibleBelow(callers: List<FrameJournal>, db: DbState, a: Address) {
    callers.Cons? ==> Visible(callers.head.state, db, a) && VisibleBelow(callers.tail, db, a)
  }

  lemma ApplyKeepsVisible(j: JournalState, db: DbState, op: Op, a: Address)
    requires Visible(j, db, a)
    ensures Visible(Apply(j, Some(db), op), db, a)
  {
  }

  lemma {:induction false} StepsKeepVisible(s: Stack<FrameJournal>, db: DbState, steps: seq<Step>, a: Address)
    requires s.top.base == Some(db) && Visible(s.top.state, db, a) && VisibleBelow(s.callers, db, a)
    ensures Visible(After(s, steps).top.state, db, a)
    decreases |steps|
  {
    if steps != [] {
      if steps[0].Do? {
        ApplyKeepsVisible(s.top.state, db, steps[0].op, a);
      }
      StepsKeepVisible(Next(s, steps[0]), db, steps[1..], a);
    }
  }

  lemma RunKeepsVisible(script: S.Script, ctx: S.Context, st: S.FrameState, db: DbState, a: Address)
    requires Visible(st.journal, db, a)
    ensures Visible(S.Run(script, ctx, st, db).state.journal, db, a)
  {
    var s := Stack(FrameJournal(st.journal, Some(db)), Nil);
    RunTraced(script, ctx, st, db, s);
    StepsKeepVisible(s, db, RunSteps(script, ctx, st, db), a);
  }

  lemma ActKeepsVisible(action: S.Action, ctx: S.Context, st: S.FrameState, db: DbState, a: Address)
    requires Visible(st.journal, db, a)
    ensures Visible(S.Act(action, ctx, st, db).state.journal, db, a)
  {
    var s := Stack(FrameJournal(st.journal, Some(db)), Nil);
    ActTraced(action, ctx, st, db, s);
    StepsKeepVisible(s, db, ActSteps(action, ctx, st, db), a);
  }
}
