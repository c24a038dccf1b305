/** The exact balance sheet of a call tree: what its events make and lose, over every script. */
module Accounting {
  import opened Primitives
  import opened Database
  import opened Journaling
  import opened CacheRefinement
  import opened Syscalls
  import opened Conservation
  import SyscallTrace

  /**
   The value a run makes, less what it loses. A call to oneself with value makes the value; a selfdestruct
   to oneself loses the balance; a creation makes its endowment and, at its end, what the two resets
   leave over. A failed callee's events do not count, because its journal is dropped.
   */
  ghost function Made(script: Script, ctx: Context, st: FrameState, db: DbState): int
    decreases script, 0
  {
    match script
    case End(_, _) => 0
    case Then(action, rest) =>
      var outcome := Act(action, ctx, st, db);
      MadeBy(action, ctx, st, db) + if outcome.halted then 0 else Made(rest, ctx, outcome.state, db)
  }

  ghost function MadeBy(action: Action, ctx: Context, st: FrameState, db: DbState): int
    decreases action, 0
  {
    if Forbidden(ctx, action) then 0
    else
      match action
      case CallTo(kind, to, value, request, spent, callee) =>
        if spent > ctx.limit || IsPrecompile(to) then 0
        else
          var v := Transferred(kind, value);
          var prep := Prepare(ctx, st.journal, Some(db), to, v, request, ctx.limit - spent);
          MadeByCall(prep, kind, to, v, callee, ctx, st, db)
      case Create(dest, value, salted, available, init, deployed) =>
        if CreateRefused(ctx, st.journal, Some(db), dest, salted) then 0
        else
          var sender := st.journal.Lookup(Some(db), ctx.address).value.Info();
          var child := Initialiser(ctx, dest, available);
          var start := Enter(st, CreateStart(ctx, st.journal, Some(db), dest, value), child, false);
          var ran := Run(init, child, start, db).state.journal;
          value + Made(init, child, start, db) + EndGain(ctx, sender, ran, db, dest, value)
      case SelfDestruct(receiver) =>
        if receiver == ctx.address then 0 - BalanceOf(st.journal, Some(db), receiver) else 0
      case _ => 0
  }

  ghost function MadeByCall(
    prep: Preparation, kind: CallKind, to: Address, value: U256, callee: Script,
    ctx: Context, st: FrameState, db: DbState): int
    decreases callee, 1
  {
    if prep.Refused? then 0
    else
      var child := Callee(ctx, kind, to, value, prep.forwarded + prep.stipend);
      var start := Enter(st, prep.journal, child, prep.overflow);
      (if ctx.address == to then value else 0)
      + if Run(callee, child, start, db).exit.Success() then Made(callee, child, start, db) else 0
  }

  // ----- Every run -----

  /** Over any call tree whatsoever the total of all balances changes by exactly what its events make. */
  lemma {:induction false} RunAccounts(script: Script, ctx: Context, st: FrameState, db: DbState)
    ensures Total(Run(script, ctx, st, db).state.journal, db) == Total(st.journal, db) + Made(script, ctx, st, db)
    decreases script, 0
  {
    if script.Then? {
      var outcome := Act(script.action, ctx, st, db);
      ActAccounts(script.action, ctx, st, db);
      if !outcome.halted {
        RunAccounts(script.rest, ctx, outcome.state, db);
      }
    }
  }

  lemma {:induction false} ActAccounts(action: Action, ctx: Context, st: FrameState, db: DbState)
    ensures Total(Act(action, ctx, st, db).state.journal, db) == Total(st.journal, db) + MadeBy(action, ctx, st, db)
    decreases action, 0
  {
    if !Forbidden(ctx, action) {
      if action.CallTo? {
        CallAccounts(action, ctx, st, db);
      } else if action.Create? {
        if CreateRefused(ctx, st.journal, Some(db), action.dest, action.salted) {
          AskedTotal(ctx, st.journal, db, action.dest, action.salted);
        } else {
          CreationAccounts(action, ctx, st, db);
        }
      } else if action.SelfDestruct? {
        DestroyedTotal(ctx, st.journal, db, action.receiver);
      } else {
        EffectTotal(ctx, st, db, action);
      }
    }
  }

  lemma AskedTotal(ctx: Context, j: JournalState, db: DbState, dest: Address, salted: bool)
    ensures Total(CreateAsked(ctx, j, Some(db), dest, salted), db) == Total(j, db)
  {
    StillOp(j, db, GetAccount(ctx.address));
    StillOp(j.Loaded(Some(db), ctx.address), db, GetAccount(dest));
  }

  lemma {:induction false} CallAccounts(action: Action, ctx: Context, st: FrameState, db: DbState)
    requires action.CallTo? && !Forbidden(ctx, action)
    ensures Total(Act(action, ctx, st, db).state.journal, db) == Total(st.journal, db) + MadeBy(action, ctx, st, db)
    decreases action.callee, 3
  {
    var CallTo(kind, to, value, request, spent, callee) := action;
    if spent <= ctx.limit && !IsPrecompile(to) {
      PreparedAccounts(kind, to, Transferred(kind, value), request, ctx.limit - spent, callee, ctx, st, db);
    }
  }

  lemma {:induction false} PreparedAccounts(
    kind: CallKind, to: Address, value: U256, request: nat, available: nat, callee: Script,
    ctx: Context, st: FrameState, db: DbState)
    ensures var prep := Prepare(ctx, st.journal, Some(db), to, value, request, available);
            Total(Called(prep, kind, to, value, callee, ctx, st, db).journal, db) ==
            Total(st.journal, db) + MadeByCall(prep, kind, to, value, callee, ctx, st, db)
    decreases callee, 2
  {
    PreparedTotal(ctx, st.journal, db, to, value, request, available);
    CalledAccounts(Prepare(ctx, st.journal, Some(db), to, value, request, available), kind, to, value, callee,
                   ctx, st, db);
  }

  lemma {:induction false} CalledAccounts(
    prep: Preparation, kind: CallKind, to: Address, value: U256, callee: Script,
    ctx: Context, st: FrameState, db: DbState)
    ensures Total(Called(prep, kind, to, value, callee, ctx, st, db).journal, db) ==
            Total(prep.journal, db) + MadeByCall(prep, kind, to, value, callee, ctx, st, db)
            - if prep.Ready? && ctx.address == to then value else 0
    decreases callee, 1
  {
    if prep.Ready? {
      var child := Callee(ctx, kind, to, value, prep.forwarded + prep.stipend);
      RunAccounts(callee, child, Enter(st, prep.journal, child, prep.overflow), db);
    }
  }

  lemma {:induction false} CreationAccounts(action: Action, ctx: Context, st: FrameState, db: DbState)
    requires action.Create? && !Forbidden(ctx, action)
    requires !CreateRefused(ctx, st.journal, Some(db), action.dest, action.salted)
    ensures Total(Act(action, ctx, st, db).state.journal, db) == Total(st.journal, db) + MadeBy(action, ctx, st, db)
    decreases action.init, 2
  {
    var Create(dest, value, salted, available, init, deployed) := action;
    var sender := st.journal.Lookup(Some(db), ctx.address).value.Info();
    var child := Initialiser(ctx, dest, available);
    var start := Enter(st, CreateStart(ctx, st.journal, Some(db), dest, value), child, false);
    var ran := Run(init, child, start, db).state.journal;
    CreateStartTotal(ctx, st.journal, db, dest, value);
    RunAccounts(init, child, start, db);
    SyscallTrace.RunKeepsVisible(init, child, start, db, ctx.address);
    CreateEndTotal(ctx, sender, ran, db, dest, value, deployed);
  }

  /**
   A creation keeps the total exactly when, leaving aside what its initialisation code made or lost: the creator
   could pay, and that code left creator and new account with as much together as they had when it began.
   With the creator's nonce exhausted nothing is paid, and the new account's balance alone is replaced.
   */
  lemma CreationKeepsExactly(action: Action, ctx: Context, st: FrameState, db: DbState)
    requires action.Create? && !Forbidden(ctx, action)
    requires !CreateRefused(ctx, st.journal, Some(db), action.dest, action.salted)
    ensures var sender := st.journal.Lookup(Some(db), ctx.address).value.Info();
            var child := Initialiser(ctx, action.dest, action.available);
            var start := Enter(st, CreateStart(ctx, st.journal, Some(db), action.dest, action.value), child, false);
            var ran := Run(action.init, child, start, db).state.journal;
            var made := Made(action.init, child, start, db);
            var created, creator := BalanceOf(ran, Some(db), action.dest), BalanceOf(ran, Some(db), ctx.address);
            Total(Act(action, ctx, st, db).state.journal, db) == Total(st.journal, db) <==>
            if sender.balance < action.value then action.value + made == 0
            else if sender.nonce + 1 >= TWO_64 then created == 2 * action.value + made
            else created + creator == action.value + sender.balance + made
  {
    CreationAccounts(action, ctx, st, db);
  }

  /** So a transaction conserves value exactly when what its events make and lose comes to nothing. */
  lemma ConservedExactly(script: Script, ctx: Context, j: JournalState, db: DbState)
    ensures var st := FrameState(j, 0, Trail([], false));
            Total(Run(script, ctx, st, db).state.journal, db) == Total(j, db) <==> Made(script, ctx, st, db) == 0
  {
    RunAccounts(script, ctx, FrameState(j, 0, Trail([], false)), db);
  }

  /** Without creations and transfers to oneself there are no such events. */
  lemma HonestMakesNothing(script: Script, ctx: Context, st: FrameState, db: DbState)
    requires Honest(script, ctx.address)
    ensures Made(script, ctx, st, db) == 0
  {
    RunAccounts(script, ctx, st, db);
    RunConserves(script, ctx, st, db);
  }
}
