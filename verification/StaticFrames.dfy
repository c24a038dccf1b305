/** A static frame is refused what changes state and nothing else. */
module StaticFrames {
  import opened Primitives
  import opened Database
  import opened Journaling
  import opened Syscalls

  /** The actions EIP-214 forbids: SSTORE, LOG, SELFDESTRUCT, CREATE, and a CALL or CALLCODE with value. */
  predicate ChangesState(action: Action) {
    match action
    case SStore(_, _) => true
    case Log => true
    case SelfDestruct(_) => true
    case Create(_, _, _, _, _, _) => true
    case CallTo(kind, _, value, _, _, _) => (kind == Call || kind == CallCode) && value > 0
    case Balance(_) => false
    case ExtCodeSize(_) => false
    case ExtCodeCopy(_) => false
    case ExtCodeHash(_) => false
    case BlockHash(_) => false
    case SLoad(_) => false
  }

  /** Of the actions a frame carries out, the static flag halts exactly those. */
  lemma StaticHaltsExactly(action: Action, ctx: Context, st: FrameState, db: DbState)
    requires !ctx.isStatic && !Act(action, ctx, st, db).halted
    ensures Act(action, ctx.(isStatic := true), st, db).halted <==> ChangesState(action)
  {
  }

  /** Nowhere, in no frame, an action that changes state. */
  predicate Harmless(script: Script) {
    match script
    case End(_, _) => true
    case Then(action, rest) => HarmlessAction(action) && Harmless(rest)
  }

  predicate HarmlessAction(action: Action) {
    !ChangesState(action) && (action.CallTo? ==> Harmless(action.callee))
  }

  /** The same frame, but for the flag. */
  ghost predicate SameButFlag(ctx: Context, ctx': Context) {
    ctx' == ctx.(isStatic := ctx'.isStatic)
  }

  /** The same state, but for the flags of the frames entered. */
  ghost predicate SameState(st: FrameState, st': FrameState) {
    && st.journal == st'.journal && st.refund == st'.refund && st.trail.overflow == st'.trail.overflow
    && |st.trail.entered| == |st'.trail.entered|
    && forall i | 0 <= i < |st.trail.entered| :: SameButFlag(st.trail.entered[i], st'.trail.entered[i])
  }

  ghost predicate SameResult(result: FrameResult, result': FrameResult) {
    && result.exit == result'.exit && result.gasUsed == result'.gasUsed && result.refunded == result'.refunded
    && SameState(result.state, result'.state)
  }

  /**
   For every script that nowhere stores, logs, creates, destroys or sends value: the frame ends the same way, with
   the same gas, refund and journal, whether it is static or not.
   */
  lemma {:induction false} FlagDoesNotShow(
    script: Script, ctx: Context, ctx': Context, st: FrameState, st': FrameState, db: DbState)
    requires Harmless(script) && SameButFlag(ctx, ctx') && SameState(st, st')
    ensures SameResult(Run(script, ctx, st, db), Run(script, ctx', st', db))
    decreases script, 0
  {
    if script.Then? {
      ActsAlike(script.action, ctx, ctx', st, st', db);
      var one, other := Act(script.action, ctx, st, db), Act(script.action, ctx', st', db);
      if !one.halted {
        FlagDoesNotShow(script.rest, ctx, ctx', one.state, other.state, db);
      }
    }
  }

  lemma {:induction false} ActsAlike(
    action: Action, ctx: Context, ctx': Context, st: FrameState, st': FrameState, db: DbState)
    requires HarmlessAction(action) && SameButFlag(ctx, ctx') && SameState(st, st')
    ensures var one, other := Act(action, ctx, st, db), Act(action, ctx', st', db);
            one.halted == other.halted && SameState(one.state, other.state)
    decreases action, 0
  {
    if action.CallTo? {
      var CallTo(kind, to, value, request, spent, callee) := action;
      if spent <= ctx.limit && !IsPrecompile(to) {
        var v, available := Transferred(kind, value), ctx.limit - spent;
        assert v == 0;
        SamePreparation(ctx, ctx', st.journal, db, to, request, available);
        CallsAlike(Prepare(ctx, st.journal, Some(db), to, 0, request, available), kind, to, callee,
                   ctx, ctx', st, st', db);
      }
    }
  }

  lemma SamePreparation(
    ctx: Context, ctx': Context, j: JournalState, db: DbState, to: Address, request: nat, available: nat)
    requires SameButFlag(ctx, ctx')
    ensures Prepare(ctx, j, Some(db), to, 0, request, available) ==
            Prepare(ctx', j, Some(db), to, 0, request, available)
  {
  }

  lemma {:induction false} CallsAlike(
    prep: Preparation, kind: CallKind, to: Address, callee: Script,
    ctx: Context, ctx': Context, st: FrameState, st': FrameState, db: DbState)
    requires Harmless(callee) && SameButFlag(ctx, ctx') && SameState(st, st')
    ensures SameState(Called(prep, kind, to, 0, callee, ctx, st, db), Called(prep, kind, to, 0, callee, ctx', st', db))
    decreases callee, 1
  {
    if prep.Ready? {
      var limit := prep.forwarded + prep.stipend;
      var child, child' := Callee(ctx, kind, to, 0, limit), Callee(ctx', kind, to, 0, limit);
      FlagDoesNotShow(callee, child, child', Enter(st, prep.journal, child, prep.overflow),
                      Enter(st', prep.journal, child', prep.overflow), db);
    }
  }
}
