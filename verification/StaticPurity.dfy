/** A static call tree changes nothing that can be read. */
module StaticPurity {
  import opened Primitives
  import opened Database
  import opened Journaling
  import opened CacheRefinement
  import opened NestedFrames
  import opened SyscallTrace
  import S = Syscalls

  ghost function NonceOf(j: JournalState, db: DbState, a: Address): nat {
    match j.Lookup(Some(db), a)
    case None => 0
    case Some(acc) => acc.nonce
  }

  /** Everything there is to read about accounts; an absent account reads as zero with no code. */
  ghost predicate ReadsSame(j: JournalState, j': JournalState, db: DbState) {
    && (forall a: Address :: S.BalanceOf(j, Some(db), a) == S.BalanceOf(j', Some(db), a))
    && (forall a: Address :: NonceOf(j, db, a) == NonceOf(j', db, a))
    && (forall a: Address :: j.Code(Some(db), a) == j'.Code(Some(db), a))
    && (forall cell: Cell :: SlotValue(j, db, cell) == SlotValue(j', db, cell))
  }

  ghost predicate PureOp(op: Op) {
    op.AddAccountAsWarm? || op.GetAccount? || op.CodeByAddress? || op.ReadStorage? || op.GetBlockHash?
  }

  /** The entry reads like what is visible at the address. */
  ghost predicate ReadsLike(j: JournalState, db: DbState, a: Address, acc: JournalAccount) {
    && acc.balance == S.BalanceOf(j, Some(db), a)
    && acc.nonce == NonceOf(j, db, a)
    && (if HasCode(acc.codeHash) then j.CodeOf(Some(db), acc.codeHash) else []) == j.Code(Some(db), a)
    && forall k: U256 :: SlotsOf(acc, db, a, k) == SlotValue(j, db, (a, k))
  }

  lemma PutReadsSame(j: JournalState, db: DbState, a: Address, acc: JournalAccount)
    requires ReadsLike(j, db, a, acc)
    ensures ReadsSame(j, j.Put(a, acc), db)
  {
    StorageOfPut(j, db, a, acc);
  }

  lemma PureOpReadsSame(j: JournalState, db: DbState, op: Op)
    requires PureOp(op) && Admissible(j, db, op)
    ensures ReadsSame(j, Apply(j, Some(db), op), db)
  {
    if !op.GetBlockHash? {
      var j' := Apply(j, Some(db), op);
      if j' != j {
        assert j' == j.Put(op.address, j'.accounts[op.address]);
        PutReadsSame(j, db, op.address, j'.accounts[op.address]);
      }
    }
  }

  ghost predicate Pure(steps: seq<Step>) {
    forall i | 0 <= i < |steps| :: steps[i].Do? ==> PureOp(steps[i].op)
  }

  ghost predicate AllRead(callers: List<FrameJournal>, j: JournalState, db: DbState) {
    callers.Cons? ==> ReadsSame(j, callers.head.state, db) && AllRead(callers.tail, j, db)
  }

  /** Through pure steps every frame keeps reading like the first one. */
  lemma {:induction false} PureSteps(s: Stack<FrameJournal>, db: DbState, steps: seq<Step>, j: JournalState)
    requires s.top.base == Some(db) && Pure(steps) && Runs(s, db, steps)
    requires ReadsSame(j, s.top.state, db) && AllRead(s.callers, j, db)
    ensures ReadsSame(j, After(s, steps).top.state, db)
    decreases |steps|
  {
    if steps != [] {
      if steps[0].Do? {
        PureOpReadsSame(s.top.state, db, steps[0].op);
      }
      PureSteps(Next(s, steps[0]), db, steps[1..], j);
    }
  }

  ghost predicate PureOps(ops: seq<Op>) {
    forall i | 0 <= i < |ops| :: PureOp(ops[i])
  }

  lemma {:induction false} PureDos(ops: seq<Op>)
    requires PureOps(ops)
    ensures Pure(Dos(ops))
  {
    if ops != [] {
      PureDos(ops[1..]);
    }
  }

  lemma PureConcat(xs: seq<Step>, ys: seq<Step>)
    requires Pure(xs) && Pure(ys)
    ensures Pure(xs + ys)
  {
  }

  lemma {:induction false} StaticRunIsPure(script: S.Script, ctx: S.Context, st: S.FrameState, db: DbState)
    requires ctx.isStatic
    ensures Pure(RunSteps(script, ctx, st, db))
    decreases script, 0
  {
    if script.Then? {
      var outcome := S.Act(script.action, ctx, st, db);
      StaticActIsPure(script.action, ctx, st, db);
      if !outcome.halted {
        StaticRunIsPure(script.rest, ctx, outcome.state, db);
      }
    }
  }

  lemma {:induction false} StaticActIsPure(action: S.Action, ctx: S.Context, st: S.FrameState, db: DbState)
    requires ctx.isStatic
    ensures Pure(ActSteps(action, ctx, st, db))
    decreases action, 0
  {
    if !S.Forbidden(ctx, action) {
      if action.CallTo? {
        var CallTo(kind, to, value, request, spent, callee) := action;
        if spent <= ctx.limit && !S.IsPrecompile(to) {
          var available := ctx.limit - spent;
          var ops := PrepareOps(ctx, st.journal, db, to, 0, request, available);
          assert PureOps(ops);
          PureDos(ops);
          var prep := S.Prepare(ctx, st.journal, Some(db), to, 0, request, available);
          StaticCalledIsPure(prep, kind, to, 0, callee, ctx, st, db);
          PureConcat(Dos(ops), CalledSteps(prep, kind, to, 0, callee, ctx, st, db));
        }
      } else {
        PureDos(EffectOps(ctx, st.journal, db, action));
      }
    }
  }

  lemma {:induction false} StaticCalledIsPure(
    prep: S.Preparation, kind: S.CallKind, to: Address, value: U256, callee: S.Script,
    ctx: S.Context, st: S.FrameState, db: DbState)
    requires ctx.isStatic
    ensures Pure(CalledSteps(prep, kind, to, value, callee, ctx, st, db))
    decreases callee, 1
  {
    if prep.Ready? {
      var child := S.Callee(ctx, kind, to, value, prep.forwarded + prep.stipend);
      StaticRunIsPure(callee, child, S.Enter(st, prep.journal, child, prep.overflow), db);
    }
  }

  /**
   Whatever a static frame and the frames below it do, and however they end: balances, nonces, code
   and storage read the same afterwards.
   */
  lemma StaticCallsChangeNothing(script: S.Script, ctx: S.Context, st: S.FrameState, db: DbState)
    requires ctx.isStatic
    ensures ReadsSame(st.journal, S.Run(script, ctx, st, db).state.journal, db)
  {
    var s := Stack(FrameJournal(st.journal, Some(db)), Nil);
    RunTraced(script, ctx, st, db, s);
    StaticRunIsPure(script, ctx, st, db);
    PureSteps(s, db, RunSteps(script, ctx, st, db), st.journal);
  }

  /** Without value to move, looking up the parties of a call changes nothing. */
  lemma PreparingIsPure(ctx: S.Context, j: JournalState, db: DbState, to: Address, request: nat, available: nat)
    ensures ReadsSame(j, S.Prepare(ctx, j, Some(db), to, 0, request, available).journal, db)
  {
    var ops := PrepareOps(ctx, j, db, to, 0, request, available);
    var s := Stack(FrameJournal(j, Some(db)), Nil);
    PrepareIsOps(ctx, j, db, to, 0, request, available);
    assert PureOps(ops);
    PureDos(ops);
    DosRun(s, db, ops);
    PureSteps(s, db, Dos(ops), j);
  }

  /** STATICCALL from any frame, static or not, leaves the caller's world as it was. */
  lemma StaticCallIsPure(
    ctx: S.Context, st: S.FrameState, db: DbState, to: Address, value: U256, request: nat, spent: nat, callee: S.Script)
    ensures ReadsSame(st.journal,
                      S.Act(S.CallTo(S.StaticCall, to, value, request, spent, callee), ctx, st, db).state.journal, db)
  {
    if spent <= ctx.limit && !S.IsPrecompile(to) {
      var available := ctx.limit - spent;
      var prep := S.Prepare(ctx, st.journal, Some(db), to, 0, request, available);
      PreparingIsPure(ctx, st.journal, db, to, request, available);
      if prep.Ready? {
        var child := S.Callee(ctx, S.StaticCall, to, 0, prep.forwarded + prep.stipend);
        StaticCallsChangeNothing(callee, child, S.Enter(st, prep.journal, child, prep.overflow), db);
      }
    }
  }

  /** The same, question by question: balance, nonce, code and slots read as before the call. */
  lemma StaticCallKeeps(
    ctx: S.Context, st: S.FrameState, db: DbState, to: Address, value: U256, request: nat, spent: nat,
    callee: S.Script, a: Address, key: U256)
    ensures var before := st.journal;
            var after := S.Act(S.CallTo(S.StaticCall, to, value, request, spent, callee), ctx, st, db).state.journal;
            var acc, acc' := before.Lookup(Some(db), a), after.Lookup(Some(db), a);
            && (if acc.Some? then acc.value.balance else 0) == (if acc'.Some? then acc'.value.balance else 0)
            && (if acc.Some? then acc.value.nonce else 0) == (if acc'.Some? then acc'.value.nonce else 0)
            && before.Code(Some(db), a) == after.Code(Some(db), a)
            && View(before, db).storage[(a, key)] == View(after, db).storage[(a, key)]
  {
    StaticCallIsPure(ctx, st, db, to, value, request, spent, callee);
    var after := S.Act(S.CallTo(S.StaticCall, to, value, request, spent, callee), ctx, st, db).state.journal;
    Asked(st.journal, after, db, a, (a, key));
  }

  lemma Asked(j: JournalState, j': JournalState, db: DbState, a: Address, cell: Cell)
    requires ReadsSame(j, j', db)
    ensures S.BalanceOf(j, Some(db), a) == S.BalanceOf(j', Some(db), a) && NonceOf(j, db, a) == NonceOf(j', db, a)
    ensures j.Code(Some(db), a) == j'.Code(Some(db), a) && SlotValue(j, db, cell) == SlotValue(j', db, cell)
  {
  }
}
