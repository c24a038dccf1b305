/** What a call tells its caller and leaves it with, spelled out case by case. */
module CallOutcomes {
  import opened Primitives
  import opened Database
  import opened Journaling
  import opened CacheRefinement
  import opened Syscalls
  import opened SyscallTrace

  /** What a call is charged before its callee runs: access, a value sent, and a receiver still empty. */
  function Charged(warm: bool, value: U256, empty: bool): nat {
    (if warm then 100 else 2600) + if value == 0 then 0 else 9000 + if empty then 25000 else 0
  }

  /** Whether the callee counts as warm, and as empty, once it has been looked up. */
  ghost predicate WarmOnceFound(j: JournalState, db: DbState, to: Address) {
    if to in j.accounts then !j.accounts[to].status.cold else to in db.accounts
  }

  ghost predicate Empty(acc: JournalAccount) {
    acc.balance == 0 && acc.nonce == 0 && acc.codeHash == Keccak([])
  }

  ghost predicate Affords(j: JournalState, db: DbState, a: Address, value: U256) {
    value == 0 ||
    match j.Lookup(Some(db), a)
    case None => false
    case Some(acc) => value <= acc.balance
  }

  /** The call goes ahead exactly if the callee exists, and a value sent is affordable and its charge is available. */
  lemma GoesAhead(ctx: Context, j: JournalState, db: DbState, to: Address, value: U256, request: nat, available: nat)
    ensures var prep := Prepare(ctx, j, Some(db), to, value, request, available);
            match j.Lookup(Some(db), to)
            case None => prep == Refused(j, 0, RevertCode)
            case Some(callee) =>
              var charge := Charged(WarmOnceFound(j, db, to), value, Empty(callee));
              if !Affords(j, db, ctx.address, value) then
                prep.Refused? && prep.code == RevertCode && prep.consumed == Charged(WarmOnceFound(j, db, to), 0, false)
              else if value != 0 && available < charge then
                prep.Refused? && prep.code == HaltCode && prep.consumed == charge
              else
                && prep.Ready? && prep.charge == charge && prep.stipend == (if value == 0 then 0 else 2300)
                && prep.forwarded == Min((if available < charge then 0 else available - charge) / 64, request)
  {
    if j.Lookup(Some(db), to).Some? {
      Looked(j, db, ctx.address, to);
    }
  }

  lemma Looked(j: JournalState, db: DbState, self: Address, to: Address)
    requires j.Lookup(Some(db), to).Some?
    ensures AccessCost(j, Some(db), to) == if WarmOnceFound(j, db, to) then 100 else 2600
    ensures var ready := Parties(j, Some(db), self, to);
            forall a: Address :: BalanceOf(ready, Some(db), a) == BalanceOf(j, Some(db), a)
  {
  }

  /** The frame a call enters, from src/syscall.rs:432-436. */
  lemma CalleeOf(ctx: Context, kind: CallKind, to: Address, value: U256, limit: nat)
    ensures var child := Callee(ctx, kind, to, value, limit);
            && child.limit == limit && child.depth == ctx.depth + 1
            && (child.isStatic <==> ctx.isStatic || kind == StaticCall)
            && (kind == Call || kind == StaticCall ==>
                  child.address == to && child.caller == ctx.address && child.value == value)
            && (kind == CallCode ==>
                  child.address == ctx.address && child.caller == ctx.address && child.value == value)
            && (kind == DelegateCall ==>
                  child.address == ctx.address && child.caller == ctx.caller && child.value == ctx.value)
  {
  }

  /** The frame a creation enters: it keeps its creator's value and is never static. */
  lemma InitialiserOf(ctx: Context, dest: Address, limit: nat)
    ensures var child := Initialiser(ctx, dest, limit);
            && child.address == dest && child.caller == ctx.address && child.value == ctx.value
            && !child.isStatic && child.limit == limit && child.depth == ctx.depth + 1
  {
  }

  /** A frame's report: all its gas if it failed exceptionally, and a refund of at most a fifth if it succeeded. */
  lemma FrameReports(ctx: Context, st: FrameState, exit: Exit, gasLeft: nat)
    requires gasLeft <= ctx.limit
    ensures var result := Finish(ctx, st, exit, gasLeft);
            && result.exit == exit && result.state == st
            && result.gasUsed == (if exit == Error then ctx.limit else ctx.limit - gasLeft)
            && result.refunded == (if exit == Return || exit == Stop then Min(st.refund, result.gasUsed / 5) else 0)
  {
  }

  /** A call that goes ahead: what its code, its journal and the gas it takes are, by how the callee ends. */
  lemma Reported(
    prep: Preparation, kind: CallKind, to: Address, value: U256, callee: Script,
    ctx: Context, st: FrameState, db: DbState)
    requires prep.Ready?
    ensures var child := Callee(ctx, kind, to, value, prep.forwarded + prep.stipend);
            var result := Run(callee, child, Enter(st, prep.journal, child, prep.overflow), db);
            var (code, consumed) := CallReport(prep, kind, to, value, callee, ctx, st, db);
            var after := Called(prep, kind, to, value, callee, ctx, st, db);
            && consumed == prep.charge + result.gasUsed - prep.stipend - result.refunded
            && (result.exit == Return || result.exit == Stop ==>
                  code == SuccessCode && after.journal == result.state.journal)
            && (result.exit == Revert || result.exit == Error ==>
                  code == RevertCode && after.journal == prep.journal)
  {
  }

  /**
   What a call tells its caller. A missing callee costs nothing and fails; a value that can be afforded but whose
   charge is not available halts; success is a callee that went ahead and returned or stopped, and only then is its
   journal adopted. Otherwise the caller has the journal as the call found it, lookups and transfer included.
   */
  ghost predicate Tells(
    kind: CallKind, to: Address, value: U256, request: nat, available: nat, callee: Script,
    ctx: Context, st: FrameState, db: DbState, code: ReturnCode, consumed: int, after: JournalState)
  {
    var found := st.journal.Lookup(Some(db), to);
    var prep := Prepare(ctx, st.journal, Some(db), to, value, request, available);
    && (found.None? ==> code == RevertCode && consumed == 0 && after == st.journal)
    && (code == HaltCode <==>
          && found.Some? && value != 0 && Affords(st.journal, db, ctx.address, value)
          && available < Charged(WarmOnceFound(st.journal, db, to), value, Empty(found.value)))
    && (code == SuccessCode <==>
          prep.Ready? && var exit := CalleeResult(prep, kind, to, value, callee, ctx, st, db).exit;
                         exit == Return || exit == Stop)
    && (code == SuccessCode ==> after == CalleeResult(prep, kind, to, value, callee, ctx, st, db).state.journal)
    && (code != SuccessCode ==> after == prep.journal)
  }

  ghost function CalleeResult(
    prep: Preparation, kind: CallKind, to: Address, value: U256, callee: Script,
    ctx: Context, st: FrameState, db: DbState): FrameResult
    requires prep.Ready?
  {
    var child := Callee(ctx, kind, to, value, prep.forwarded + prep.stipend);
    Run(callee, child, Enter(st, prep.journal, child, prep.overflow), db)
  }

  lemma CallTells(
    kind: CallKind, to: Address, value: U256, request: nat, available: nat, callee: Script,
    ctx: Context, st: FrameState, db: DbState)
    ensures var prep := Prepare(ctx, st.journal, Some(db), to, value, request, available);
            var (code, consumed) := CallReport(prep, kind, to, value, callee, ctx, st, db);
            Tells(kind, to, value, request, available, callee, ctx, st, db, code, consumed,
                  Called(prep, kind, to, value, callee, ctx, st, db).journal)
  {
    var prep := Prepare(ctx, st.journal, Some(db), to, value, request, available);
    GoesAhead(ctx, st.journal, db, to, value, request, available);
    if prep.Ready? {
      Reported(prep, kind, to, value, callee, ctx, st, db);
    }
  }

  // ----- The value sent with a call that fails -----

  lemma QuietLookups(j: JournalState, db: DbState, self: Address, to: Address)
    requires db.WellFormed() && Coherent(j, db) && j.Lookup(Some(db), to).Some?
    ensures View(Parties(j, Some(db), self, to), db) == View(j, db) && Coherent(Parties(j, Some(db), self, to), db)
  {
    var base := Some(db);
    ReadsAreInvisible(j, db, GetAccount(to));
    ApplyCoherent(j, db, GetAccount(to));
    var found := j.Loaded(base, to);
    ApplyRefines(found, db, AddAccountAsWarm(to));
    ApplyCoherent(found, db, AddAccountAsWarm(to));
    var warm := if found.AccountIsWarm(to) then found else found.AddAccountAsWarm(to);
    ReadsAreInvisible(warm, db, GetAccount(self));
    ApplyCoherent(warm, db, GetAccount(self));
  }

  /** What the caller has after the transfer; the receiver is credited last. */
  lemma PaidBalance(j: JournalState, db: DbState, self: Address, to: Address, value: nat)
    requires 0 < value <= BalanceOf(j, Some(db), self) && j.Lookup(Some(db), to).Some?
    ensures var paid := Transfer(j, Some(db), self, to, value).CodeAsked(Some(db), to);
            BalanceOf(paid, Some(db), self) != BalanceOf(j, Some(db), self)
  {
  }

  lemma BalanceInView(j: JournalState, db: DbState, a: Address)
    ensures BalanceOf(j, Some(db), a) == if a in View(j, db).accounts then View(j, db).accounts[a].balance else 0
  {
    AnswersAgree(j, db, GetAccount(a));
  }

  /** A callee that fails leaves the caller's world as it was exactly if no value was sent: the transfer stays. */
  lemma FailedCallWorld(
    kind: CallKind, to: Address, value: U256, request: nat, available: nat, callee: Script,
    ctx: Context, st: FrameState, db: DbState)
    requires db.WellFormed() && Coherent(st.journal, db)
    requires var prep := Prepare(ctx, st.journal, Some(db), to, value, request, available);
             prep.Ready? && CallReport(prep, kind, to, value, callee, ctx, st, db).0 == RevertCode
    ensures var prep := Prepare(ctx, st.journal, Some(db), to, value, request, available);
            var after := Called(prep, kind, to, value, callee, ctx, st, db);
            View(after.journal, db) == View(st.journal, db) <==> value == 0
  {
    Reported(Prepare(ctx, st.journal, Some(db), to, value, request, available), kind, to, value, callee, ctx, st, db);
    PreparedWorld(ctx, st.journal, db, to, value, request, available);
  }

  lemma PreparedWorld(
    ctx: Context, j: JournalState, db: DbState, to: Address, value: U256, request: nat, available: nat)
    requires db.WellFormed() && Coherent(j, db)
    requires Prepare(ctx, j, Some(db), to, value, request, available).Ready?
    ensures View(Prepare(ctx, j, Some(db), to, value, request, available).journal, db) == View(j, db) <==> value == 0
  {
    PrepareParts(ctx, j, db, to, value, request, available);
    var ready, after := Parties(j, Some(db), ctx.address, to), Prepare(ctx, j, Some(db), to, value, request, available);
    QuietLookups(j, db, ctx.address, to);
    StillFound(j, db, ctx.address, to);
    if value == 0 {
      AskedWorld(ready, db, to, after.journal);
    } else {
      PaidBalance(ready, db, ctx.address, to, value);
      OtherWorld(ready, after.journal, db, ctx.address);
    }
  }

  lemma StillFound(j: JournalState, db: DbState, self: Address, to: Address)
    requires j.Lookup(Some(db), to).Some?
    ensures Parties(j, Some(db), self, to).Lookup(Some(db), to).Some?
  {
  }

  lemma AskedWorld(ready: JournalState, db: DbState, to: Address, asked: JournalState)
    requires asked == ready.CodeAsked(Some(db), to)
    ensures View(asked, db) == View(ready, db)
  {
    assert asked == Apply(ready, Some(db), CodeByAddress(to));
    ReadsAreInvisible(ready, db, CodeByAddress(to));
  }

  lemma OtherWorld(j: JournalState, j': JournalState, db: DbState, a: Address)
    requires BalanceOf(j, Some(db), a) != BalanceOf(j', Some(db), a)
    ensures View(j', db) != View(j, db)
  {
    BalanceInView(j, db, a);
    BalanceInView(j', db, a);
  }

  /** An account with 5 sends 1 to another, whose code reverts: the other keeps it. */
  lemma FailedCallKeepsValue()
    ensures var db := DbState(map[100 := DbAccount(1, 5, map[], EMPTY_CODE_HASH, COLD),
                                  200 := DbAccount(1, 0, map[], EMPTY_CODE_HASH, COLD)], map[], map[]);
            var ctx := Context(100, 1, 0, false, 1_000_000, 0);
            var call := Then(CallTo(Call, 200, 1, 0, 0, End(Revert, 0)), End(Stop, 0));
            var after := Run(call, ctx, FrameState(EMPTY_JOURNAL, 0, Trail([], false)), db).state.journal;
            BalanceOf(after, Some(db), 100) == 4 && BalanceOf(after, Some(db), 200) == 1
  {
  }

  // ----- Which calls run a frame -----

  /** The nine precompiles run no frame; a call to any other account that goes ahead enters its own, first of all. */
  lemma CallEnters(
    kind: CallKind, to: Address, value: U256, request: nat, spent: nat, callee: Script,
    ctx: Context, st: FrameState, db: DbState)
    requires spent <= ctx.limit && !ctx.isStatic
    ensures var outcome := Act(CallTo(kind, to, value, request, spent, callee), ctx, st, db);
            var sent := Sent(kind, value);
            var prep := Prepare(ctx, st.journal, Some(db), to, sent, request, ctx.limit - spent);
            && !outcome.halted
            && outcome.state == if 1 <= to <= 9 then st else Called(prep, kind, to, sent, callee, ctx, st, db)
  {
    SentIs(kind, value);
    var v, available := Sent(kind, value), ctx.limit - spent;
    CallActs(kind, to, value, v, request, spent, available, callee, ctx, st, db,
             Prepare(ctx, st.journal, Some(db), to, v, request, available));
  }

  lemma CallActs(
    kind: CallKind, to: Address, value: U256, v: U256, request: nat, spent: nat, available: nat, callee: Script,
    ctx: Context, st: FrameState, db: DbState, prep: Preparation)
    requires !ctx.isStatic && spent + available == ctx.limit && v == Transferred(kind, value)
    requires prep == Prepare(ctx, st.journal, Some(db), to, v, request, available)
    ensures Act(CallTo(kind, to, value, request, spent, callee), ctx, st, db) ==
            Outcome(if IsPrecompile(to) then st else Called(prep, kind, to, v, callee, ctx, st, db), false)
  {
  }

  /** Only CALL and CALLCODE send value. */
  function Sent(kind: CallKind, value: U256): U256 {
    match kind
    case Call => value
    case CallCode => value
    case DelegateCall => 0
    case StaticCall => 0
  }

  lemma SentIs(kind: CallKind, value: U256)
    ensures Transferred(kind, value) == Sent(kind, value)
  {
  }
}
