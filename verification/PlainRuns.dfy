/**
 Running a script on journals over the database is running it on plain maps. The proof goes through for any
 relation between the two that every operation keeps; `PlainSteps.Shows` is one.
 */
module PlainRuns {
  import opened Primitives
  import opened Database
  import opened Journaling
  import opened CacheRefinement
  import opened StorageGas
  import opened PlainSteps
  import S = Syscalls
  import P = PlainFrames

  type Relation = (JournalState, P.Plain) -> bool

  /** A relation, the database beneath the journals, and the world the transaction found. */
  datatype Setting = Setting(rel: Relation, db: DbState, start: World)

  ghost predicate Kept(m: Setting) {
    forall j, p, op :: m.rel(j, p) && Usable(j, m.db, op) ==> m.rel(Apply(j, Some(m.db), op), P.Do(p, op))
  }

  ghost predicate Truthful(m: Setting) {
    && (forall j, p, a :: m.rel(j, p) ==> SameAccount(j, m.db, p, a))
    && (forall j, p, a, k :: m.rel(j, p) ==> SameSlot(j, m.db, p, m.start, a, k))
    && (forall j, p :: m.rel(j, p) ==> NoneCold(j))
  }

  ghost predicate Simulates(m: Setting) {
    Kept(m) && Truthful(m)
  }

  // ----- One operation -----

  lemma OneStep(m: Setting, j: JournalState, p: P.Plain, op: Op) returns (j': JournalState, p': P.Plain)
    requires Simulates(m) && m.rel(j, p) && Usable(j, m.db, op)
    ensures j' == Apply(j, Some(m.db), op) && p' == P.Do(p, op) && m.rel(j', p')
  {
    j', p' := Apply(j, Some(m.db), op), P.Do(p, op);
  }

  lemma TwoSteps(m: Setting, j: JournalState, p: P.Plain, one: Op, other: Op) returns (j': JournalState, p': P.Plain)
    requires Simulates(m) && m.rel(j, p) && Usable(j, m.db, one) && Usable(Apply(j, Some(m.db), one), m.db, other)
    ensures j' == Apply(Apply(j, Some(m.db), one), Some(m.db), other) && p' == P.Do(P.Do(p, one), other)
    ensures m.rel(j', p')
  {
    var j1, p1 := OneStep(m, j, p, one);
    j', p' := OneStep(m, j1, p1, other);
  }

  lemma Found(m: Setting, j: JournalState, p: P.Plain, a: Address)
    requires Simulates(m) && m.rel(j, p)
    ensures SameAccount(j, m.db, p, a)
  {
  }

  /** Looking an account up does not show, and makes it warm if it is there. */
  lemma Loading(m: Setting, j: JournalState, p: P.Plain, a: Address) returns (j': JournalState)
    requires Simulates(m) && m.rel(j, p)
    ensures j' == j.Loaded(Some(m.db), a) && m.rel(j', p)
    ensures j.Lookup(Some(m.db), a).Some? <==> j'.AccountIsWarm(a)
  {
    var p';
    j', p' := OneStep(m, j, p, GetAccount(a));
    assert NoneCold(j');
  }

  lemma Asking(m: Setting, j: JournalState, p: P.Plain, a: Address) returns (j': JournalState)
    requires Simulates(m) && m.rel(j, p)
    ensures j' == j.CodeAsked(Some(m.db), a) && m.rel(j', p)
    ensures j.Lookup(Some(m.db), a).Some? <==> j'.AccountIsWarm(a)
  {
    var p';
    j', p' := OneStep(m, j, p, CodeByAddress(a));
    assert NoneCold(j');
  }

  // ----- A call up to its callee -----

  /** A call never pays for a cold account: looking the callee up has made it warm. */
  lemma Parties(m: Setting, j: JournalState, p: P.Plain, self: Address, to: Address) returns (ready: JournalState)
    requires Simulates(m) && m.rel(j, p) && j.Lookup(Some(m.db), to).Some?
    ensures ready == S.Parties(j, Some(m.db), self, to) && m.rel(ready, p)
    ensures S.AccessCost(j, Some(m.db), to) == S.CALL_WARM
  {
    var loaded := Loading(m, j, p, to);
    ready := Loading(m, loaded, p, self);
  }

  lemma Paying(m: Setting, j: JournalState, p: P.Plain, from: Address, to: Address, value: nat)
    returns (j': JournalState, p': P.Plain)
    requires Simulates(m) && m.rel(j, p) && value <= S.BalanceOf(j, Some(m.db), from)
    ensures value <= P.Balance(p, from) && p' == P.Pay(p, from, to, value)
    ensures j' == S.Transfer(j, Some(m.db), from, to, value).CodeAsked(Some(m.db), to) && m.rel(j', p')
  {
    Found(m, j, p, from);
    Found(m, j, p, to);
    var j2;
    j2, p' := TwoBalances(m, j, p, from, P.Balance(p, from) - value, to, P.Balance(p, to) + value);
    j' := Asking(m, j2, p', to);
  }

  lemma TwoBalances(m: Setting, j: JournalState, p: P.Plain, a: Address, x: nat, b: Address, y: nat)
    returns (j': JournalState, p': P.Plain)
    requires Simulates(m) && m.rel(j, p)
    ensures j' == j.SetBalance(Some(m.db), a, x).SetBalance(Some(m.db), b, y)
    ensures p' == P.Do(P.Do(p, SetBalance(a, x)), SetBalance(b, y)) && m.rel(j', p')
  {
    j', p' := TwoSteps(m, j, p, SetBalance(a, x), SetBalance(b, y));
  }

  ghost predicate SamePreparation(m: Setting, prep: S.Preparation, plain: P.Preparation) {
    && m.rel(prep.journal, plain.plain)
    && match prep
       case Refused(_, _, _) => plain.Refused?
       case Ready(_, charge, forwarded, stipend, overflow) =>
         plain == P.Ready(plain.plain, charge, forwarded, stipend, overflow)
  }

  lemma Preparing(
    m: Setting, ctx: S.Context, j: JournalState, p: P.Plain, to: Address, value: U256, request: nat, available: nat)
    requires Simulates(m) && m.rel(j, p)
    ensures SamePreparation(m, S.Prepare(ctx, j, Some(m.db), to, value, request, available),
                            P.Prepare(ctx, p, to, value, request, available))
  {
    Found(m, j, p, to);
    if j.Lookup(Some(m.db), to).Some? {
      var ready := Parties(m, j, p, ctx.address, to);
      Found(m, ready, p, ctx.address);
      Found(m, ready, p, to);
      if value == 0 {
        var asked := Asking(m, ready, p, to);
      } else if value <= S.BalanceOf(ready, Some(m.db), ctx.address) {
        var paid, p' := Paying(m, ready, p, ctx.address, to, value);
      }
    }
  }

  // ----- Creations -----

  lemma RefusingCreation(m: Setting, ctx: S.Context, j: JournalState, p: P.Plain, dest: Address, salted: bool)
    requires Simulates(m) && m.rel(j, p)
    ensures S.CreateRefused(ctx, j, Some(m.db), dest, salted) <==> P.CreateRefused(ctx, p, dest, salted)
    ensures m.rel(S.CreateAsked(ctx, j, Some(m.db), dest, salted), p)
  {
    Found(m, j, p, ctx.address);
    Found(m, j, p, dest);
    var loaded := Loading(m, j, p, ctx.address);
    var asked := Loading(m, loaded, p, dest);
  }

  /** Announcing the new account and then making it is making it. */
  lemma MadeTwice(p: P.Plain, a: Address, balance: nat)
    ensures P.Do(P.Do(p, AddAccountAsWarm(a)), NewAccount(a, balance)) == P.Do(p, NewAccount(a, balance))
  {
    var one, other := PlainAccount(0, 0, EMPTY_CODE_HASH), PlainAccount(0, balance, EMPTY_CODE_HASH);
    assert Fresh(Fresh(p.world, a, one), a, other) == Fresh(p.world, a, other);
  }

  lemma StartingCreation(m: Setting, ctx: S.Context, j: JournalState, p: P.Plain, dest: Address, value: U256)
    returns (j': JournalState)
    requires Simulates(m) && m.rel(j, p) && j.Lookup(Some(m.db), dest).None?
    ensures j' == S.CreateStart(ctx, j, Some(m.db), dest, value) && m.rel(j', P.Do(p, NewAccount(dest, value)))
  {
    var loaded := Loading(m, j, p, ctx.address);
    var j1, p1 := OneStep(m, loaded, p, AddAccountAsWarm(dest));
    var p2;
    j', p2 := OneStep(m, j1, p1, NewAccount(dest, value));
    MadeTwice(p, dest, value);
  }

  lemma Debiting(m: Setting, j: JournalState, p: P.Plain, a: Address, nonce: nat, balance: nat)
    requires Simulates(m) && m.rel(j, p)
    ensures m.rel(j.SetNonce(Some(m.db), a, nonce).SetBalance(Some(m.db), a, balance),
                  P.Do(P.Do(p, SetNonce(a, nonce)), SetBalance(a, balance)))
  {
    var j', p' := TwoSteps(m, j, p, SetNonce(a, nonce), SetBalance(a, balance));
  }

  lemma Deploying(m: Setting, j: JournalState, p: P.Plain, a: Address, code: Bytecode, balance: nat)
    requires Simulates(m) && m.rel(j, p) && a !in m.db.accounts
    ensures m.rel(j.NewContract(a, code, balance), P.Do(p, NewContract(a, code, balance)))
  {
    var j', p' := OneStep(m, j, p, NewContract(a, code, balance));
  }

  lemma EndingCreation(
    m: Setting, ctx: S.Context, sender: AccountInfo, plain: PlainAccount, j: JournalState, p: P.Plain, dest: Address,
    value: U256, deployed: Bytecode)
    requires Simulates(m) && m.rel(j, p) && dest !in m.db.accounts
    requires sender.balance == plain.balance && sender.nonce == plain.nonce
    ensures var (j', done) := S.CreateEnd(ctx, sender, j, Some(m.db), dest, value, deployed);
            var (p', alike) := P.CreateEnd(ctx, plain, p, dest, value, deployed);
            m.rel(j', p') && done == alike
  {
    if sender.balance >= value {
      Deploying(m, j, p, dest, deployed, value);
      if sender.nonce + 1 < TWO_64 {
        Debiting(m, j.NewContract(dest, deployed, value), P.Do(p, NewContract(dest, deployed, value)),
                 ctx.address, sender.nonce + 1, sender.balance - value);
      }
    }
  }

  // ----- Actions that run no other frame -----

  ghost predicate Related(m: Setting, st: S.FrameState, plain: P.PlainState) {
    m.rel(st.journal, plain.plain) && plain.refund == st.refund && plain.trail == st.trail
  }

  lemma Crediting(m: Setting, j: JournalState, p: P.Plain, receiver: Address, amount: nat)
    returns (j': JournalState, p': P.Plain)
    requires Simulates(m) && m.rel(j, p)
    ensures j' == S.Credited(j, Some(m.db), receiver, amount) && p' == P.Credited(p, receiver, amount) && m.rel(j', p')
  {
    Found(m, j, p, receiver);
    if j.Lookup(Some(m.db), receiver).Some? {
      var loaded := Loading(m, j, p, receiver);
      j', p' := OneStep(m, loaded, p, SetBalance(receiver, S.BalanceOf(j, Some(m.db), receiver) + amount));
    } else {
      j', p' := OneStep(m, j, p, NewAccount(receiver, amount));
    }
  }

  lemma Destroying(m: Setting, ctx: S.Context, j: JournalState, p: P.Plain, receiver: Address)
    requires Simulates(m) && m.rel(j, p)
    ensures m.rel(S.Destroyed(ctx, j, Some(m.db), receiver), P.Destroyed(ctx, p, receiver))
  {
    Found(m, j, p, ctx.address);
    var loaded := Loading(m, j, p, ctx.address);
    var j1, p1 := Crediting(m, loaded, p, receiver, S.BalanceOf(j, Some(m.db), ctx.address));
    var j2, p2 := TwoSteps(m, j1, p1, SetBalance(ctx.address, 0), SetStatus(ctx.address, SELF_DESTRUCTED));
  }

  /** An account asked about is there afterwards. */
  lemma Warming(m: Setting, asked: JournalState, p: P.Plain, of: Address)
    requires Simulates(m) && m.rel(asked, p) && asked.AccountIsWarm(of) == P.Exists(p, of)
    ensures m.rel(asked.AddAccountAsWarm(of), P.Do(p, AddAccountAsWarm(of)))
    ensures asked.AccountIsWarm(of) ==> m.rel(asked, P.Do(p, AddAccountAsWarm(of)))
  {
    Found(m, asked, p, of);
    var j', p' := OneStep(m, asked, p, AddAccountAsWarm(of));
  }

  lemma Questioning(m: Setting, ctx: S.Context, st: S.FrameState, plain: P.PlainState, action: S.Action)
    requires action.Balance? || action.ExtCodeSize? || action.ExtCodeCopy? || action.ExtCodeHash?
    requires Simulates(m) && Related(m, st, plain)
    ensures Related(m, S.Effect(ctx, st, Some(m.db), action), P.Effect(ctx, plain, m.start, action))
  {
    var j, p, of := st.journal, plain.plain, action.of;
    Found(m, j, p, of);
    if action.Balance? || action.ExtCodeHash? {
      var loaded := Loading(m, j, p, of);
      Warming(m, loaded, p, of);
    } else {
      var asked := Asking(m, j, p, of);
      Warming(m, asked, p, of);
    }
  }

  lemma Storing(m: Setting, ctx: S.Context, st: S.FrameState, plain: P.PlainState, action: S.Action)
    requires action.SStore? && Simulates(m) && Related(m, st, plain)
    ensures Related(m, S.Effect(ctx, st, Some(m.db), action), P.Effect(ctx, plain, m.start, action))
  {
    var j, p, self := st.journal, plain.plain, ctx.address;
    Found(m, j, p, self);
    assert SameSlot(j, m.db, p, m.start, self, action.key);
    var j2, p2 := TwoSteps(m, j, p, ReadStorage(self, action.key), WriteStorage(self, action.key, action.value));
  }

  lemma Acting(m: Setting, ctx: S.Context, st: S.FrameState, plain: P.PlainState, action: S.Action)
    requires !action.CallTo? && !action.Create? && Simulates(m) && Related(m, st, plain)
    ensures Related(m, S.Effect(ctx, st, Some(m.db), action), P.Effect(ctx, plain, m.start, action))
  {
    match action
    case BlockHash(n) => var j', p' := OneStep(m, st.journal, plain.plain, GetBlockHash(n));
    case SLoad(key) => var j', p' := OneStep(m, st.journal, plain.plain, ReadStorage(ctx.address, key));
    case SStore(_, _) => Storing(m, ctx, st, plain, action);
    case Log =>
    case SelfDestruct(receiver) =>
      Found(m, st.journal, plain.plain, ctx.address);
      Found(m, st.journal, plain.plain, receiver);
      Destroying(m, ctx, st.journal, plain.plain, receiver);
    case _ => Questioning(m, ctx, st, plain, action);
  }

  // ----- Every script -----

  ghost predicate SameResult(m: Setting, result: S.FrameResult, plain: P.PlainResult) {
    && Related(m, result.state, plain.state) && plain.exit == result.exit
    && plain.gasUsed == result.gasUsed && plain.refunded == result.refunded
  }

  lemma {:induction false} RunsAlike(
    m: Setting, script: S.Script, ctx: S.Context, st: S.FrameState, plain: P.PlainState)
    requires Simulates(m) && Related(m, st, plain)
    ensures SameResult(m, S.Run(script, ctx, st, m.db), P.Run(script, ctx, plain, m.start))
    decreases script, 0
  {
    if script.Then? {
      var outcome := S.Act(script.action, ctx, st, m.db);
      ActsAlike(m, script.action, ctx, st, plain);
      if !outcome.halted {
        RunsAlike(m, script.rest, ctx, outcome.state, P.Act(script.action, ctx, plain, m.start).0);
      }
    }
  }

  lemma {:induction false} ActsAlike(
    m: Setting, action: S.Action, ctx: S.Context, st: S.FrameState, plain: P.PlainState)
    requires Simulates(m) && Related(m, st, plain)
    ensures var outcome := S.Act(action, ctx, st, m.db);
            var (after, halted) := P.Act(action, ctx, plain, m.start);
            Related(m, outcome.state, after) && halted == outcome.halted
    decreases action, 0
  {
    if !S.Forbidden(ctx, action) {
      if action.CallTo? {
        CallsAlike(m, action, ctx, st, plain);
      } else if action.Create? {
        CreatesAlike(m, action, ctx, st, plain);
      } else {
        Acting(m, ctx, st, plain, action);
      }
    }
  }

  lemma {:induction false} CallsAlike(
    m: Setting, action: S.Action, ctx: S.Context, st: S.FrameState, plain: P.PlainState)
    requires action.CallTo? && !S.Forbidden(ctx, action) && Simulates(m) && Related(m, st, plain)
    ensures var outcome := S.Act(action, ctx, st, m.db);
            var (after, halted) := P.Act(action, ctx, plain, m.start);
            Related(m, outcome.state, after) && halted == outcome.halted
    decreases action.callee, 2
  {
    var CallTo(kind, to, value, request, spent, callee) := action;
    if spent <= ctx.limit && !S.IsPrecompile(to) {
      var v, available := S.Transferred(kind, value), ctx.limit - spent;
      Preparing(m, ctx, st.journal, plain.plain, to, v, request, available);
      CalleesAlike(m, S.Prepare(ctx, st.journal, Some(m.db), to, v, request, available),
                   P.Prepare(ctx, plain.plain, to, v, request, available), kind, to, v, callee, ctx, st, plain);
    }
  }

  lemma {:induction false} CalleesAlike(
    m: Setting, prep: S.Preparation, plainPrep: P.Preparation, kind: S.CallKind, to: Address, value: U256,
    callee: S.Script, ctx: S.Context, st: S.FrameState, plain: P.PlainState)
    requires Simulates(m) && Related(m, st, plain) && SamePreparation(m, prep, plainPrep)
    ensures Related(m, S.Called(prep, kind, to, value, callee, ctx, st, m.db),
                    P.Called(plainPrep, kind, to, value, callee, ctx, plain, m.start))
    decreases callee, 1
  {
    if prep.Ready? {
      var child := S.Callee(ctx, kind, to, value, prep.forwarded + prep.stipend);
      RunsAlike(m, callee, child, S.Enter(st, prep.journal, child, prep.overflow),
                P.Enter(plain, plainPrep.plain, child, prep.overflow));
    }
  }

  lemma {:induction false} CreatesAlike(
    m: Setting, action: S.Action, ctx: S.Context, st: S.FrameState, plain: P.PlainState)
    requires action.Create? && !S.Forbidden(ctx, action) && Simulates(m) && Related(m, st, plain)
    ensures var outcome := S.Act(action, ctx, st, m.db);
            var (after, halted) := P.Act(action, ctx, plain, m.start);
            Related(m, outcome.state, after) && halted == outcome.halted
    decreases action.init, 2
  {
    var Create(dest, value, salted, available, init, deployed) := action;
    var j, p := st.journal, plain.plain;
    RefusingCreation(m, ctx, j, p, dest, salted);
    if !S.CreateRefused(ctx, j, Some(m.db), dest, salted) {
      var child := S.Initialiser(ctx, dest, available);
      var begun := StartingCreation(m, ctx, j, p, dest, value);
      var frame := S.Enter(st, begun, child, false);
      var plainFrame := P.Enter(plain, P.Do(p, NewAccount(dest, value)), child, false);
      RunsAlike(m, init, child, frame, plainFrame);
      Found(m, j, p, ctx.address);
      EndingCreation(m, ctx, j.Lookup(Some(m.db), ctx.address).value.Info(), p.world.accounts[ctx.address],
                     S.Run(init, child, frame, m.db).state.journal, P.Run(init, child, plainFrame, m.start).state.plain,
                     dest, value, deployed);
    }
  }

  // ----- The view -----

  ghost function ShowsOver(db: DbState): Relation {
    (j, p) => Shows(j, db, p)
  }

  lemma ViewSimulates(db: DbState)
    ensures Simulates(Setting(ShowsOver(db), db, View(EMPTY_JOURNAL, db)))
  {
    var m := Setting(ShowsOver(db), db, View(EMPTY_JOURNAL, db));
    forall j, p, op | m.rel(j, p) && Usable(j, db, op)
      ensures m.rel(Apply(j, Some(db), op), P.Do(p, op))
    {
      ShowsNext(j, db, p, op);
    }
    forall j, p, a | m.rel(j, p)
      ensures SameAccount(j, db, p, a)
    {
      ShowsAccount(j, db, p, a);
    }
    forall j, p, a, k | m.rel(j, p)
      ensures SameSlot(j, db, p, m.start, a, k)
    {
      ShowsSlot(j, db, p, a, k);
    }
  }

  /**
   For every script: running it on a journal over the database and running it on plain maps give the same exit,
   the same gas used and refunded, the same frames entered and the same refund counter, and the journal in the
   end shows the plain world, with the same accounts created and destroyed.
   */
  lemma RunIsPlain(script: S.Script, ctx: S.Context, st: S.FrameState, db: DbState, p: P.Plain)
    requires Shows(st.journal, db, p)
    ensures var result := S.Run(script, ctx, st, db);
            var plain := P.Run(script, ctx, P.PlainState(p, st.refund, st.trail), View(EMPTY_JOURNAL, db));
            && Shows(result.state.journal, db, plain.state.plain)
            && plain.state.refund == result.state.refund && plain.state.trail == result.state.trail
            && plain.exit == result.exit && plain.gasUsed == result.gasUsed && plain.refunded == result.refunded
  {
    ViewSimulates(db);
    RunsAlike(Setting(ShowsOver(db), db, View(EMPTY_JOURNAL, db)), script, ctx, st,
              P.PlainState(p, st.refund, st.trail));
  }

  /**
   A call never pays for a cold account, because looking the callee up has made it warm. That is the price of
   EIP-2929 exactly when the callee had been looked up before.
   */
  lemma CallsAreNeverCold(j: JournalState, db: DbState, p: P.Plain, to: Address)
    requires Shows(j, db, p) && j.Lookup(Some(db), to).Some?
    ensures S.AccessCost(j, Some(db), to) == S.CALL_WARM
    ensures S.AccessCost(j, Some(db), to) == (if j.AccountIsWarm(to) then S.CALL_WARM else S.CALL_COLD) <==>
            to in j.accounts
  {
    ViewSimulates(db);
    var ready := Parties(Setting(ShowsOver(db), db, View(EMPTY_JOURNAL, db)), j, p, to, to);
  }

  /** Even the first call of a transaction, to an account nobody has asked about. */
  lemma FirstCallIsWarm()
    ensures var db := DbState(map[300 := DbAccount(1, 1, map[], EMPTY_CODE_HASH, COLD)], map[], map[]);
            !EMPTY_JOURNAL.AccountIsWarm(300) && S.AccessCost(EMPTY_JOURNAL, Some(db), 300) == S.CALL_WARM
  {
  }
}
