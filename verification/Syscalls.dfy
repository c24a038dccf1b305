/**
 Call frames. What a frame's code does between its start and its end is an arbitrary script of
 syscalls, so whatever holds for every script holds for every bytecode.
 */
module Syscalls {
  import opened Primitives
  import opened Database
  import opened Journaling
  import opened StorageGas

  const CALL_WARM := 100
  const CALL_COLD := 2600
  const NOT_ZERO_VALUE_COST := 9000
  const EMPTY_CALLEE_COST := 25000
  const STIPEND := 2300
  const GAS_CAP_DIVISION_FACTOR := 64
  const GAS_REFUND_DENOMINATOR := 5

  datatype ReturnCode = RevertCode | SuccessCode | HaltCode

  datatype CallKind = Call | StaticCall | DelegateCall | CallCode

  datatype Exit = Return | Stop | Revert | Error {
    predicate Success() {
      Return? || Stop?
    }
  }

  /** Who runs: the account acted for, its caller, the value sent, the static flag and the gas limit. */
  datatype Context = Context(
    address: Address,
    caller: Address,
    value: U256,
    isStatic: bool,
    limit: nat,
    depth: nat
  )

  /** The syscalls a frame makes, in order, until it exits and reports its remaining gas. */
  datatype Script =
    | End(exit: Exit, gasLeft: nat)
    | Then(action: Action, rest: Script)

  datatype Action =
    | Balance(of: Address)
    | ExtCodeSize(of: Address)
    | ExtCodeCopy(of: Address)
    | ExtCodeHash(of: Address)
    | BlockHash(number: U256)
    | SLoad(key: U256)
    | SStore(key: U256, value: U256)
    | Log
    | SelfDestruct(receiver: Address)
      /** `spent` is the gas this frame has used so far; `callee` is what the called code does. */
    | CallTo(kind: CallKind, to: Address, value: U256, request: nat, spent: nat, callee: Script)
      /** `init` is what the initialisation code does, `deployed` the bytes it returns. */
    | Create(dest: Address, value: U256, salted: bool, available: nat, init: Script, deployed: Bytecode)

  /** What the run has met: every frame entered, and whether a balance left the 256-bit range. */
  datatype Trail = Trail(entered: seq<Context>, overflow: bool)

  datatype FrameState = FrameState(journal: JournalState, refund: nat, trail: Trail) {
    function With(j: JournalState): FrameState {
      this.(journal := j)
    }
  }

  datatype FrameResult = FrameResult(state: FrameState, exit: Exit, gasUsed: nat, refunded: nat)

  predicate IsPrecompile(a: Address) {
    1 <= a < 10
  }

  /** A static frame may not change state: these actions go to the revert block instead. */
  predicate Forbidden(ctx: Context, action: Action) {
    && ctx.isStatic
    && match action
       case SStore(_, _) => true
       case Log => true
       case SelfDestruct(_) => true
       case Create(_, _, _, _, _, _) => true
       case CallTo(kind, _, value, _, _, _) => Transferred(kind, value) != 0
       case _ => false
  }

  /** STATICCALL and DELEGATECALL take no value from the stack. */
  function Transferred(kind: CallKind, value: U256): U256 {
    if kind.Call? || kind.CallCode? then value else 0
  }

  /** The balances after moving `value`, both computed from the balances read beforehand. */
  function Transfer(j: JournalState, base: Option<DbState>, from: Address, to: Address, value: nat): JournalState
    requires value <= BalanceOf(j, base, from)
  {
    j.SetBalance(base, from, BalanceOf(j, base, from) - value)
      .SetBalance(base, to, BalanceOf(j, base, to) + value)
  }

  /** The balance a frame reads: zero for an absent account. */
  function BalanceOf(j: JournalState, base: Option<DbState>, a: Address): nat {
    match j.Lookup(base, a)
    case None => 0
    case Some(acc) => acc.balance
  }

  /** How the call syscall decides, up to the point where the callee would run. */
  datatype Preparation =
    | Refused(journal: JournalState, consumed: nat, code: ReturnCode)
    | Ready(journal: JournalState, charge: nat, forwarded: nat, stipend: nat, overflow: bool)

  function Forward(available: nat, charge: nat, request: nat): nat {
    Min(SaturatingSub(available, charge) / GAS_CAP_DIVISION_FACTOR, request)
  }

  /** The journal once both parties of a call have been looked up and the callee warmed. */
  function Parties(j: JournalState, base: Option<DbState>, self: Address, to: Address): JournalState {
    var loaded := j.Loaded(base, to);
    (if loaded.AccountIsWarm(to) then loaded else loaded.AddAccountAsWarm(to)).Loaded(base, self)
  }

  function AccessCost(j: JournalState, base: Option<DbState>, to: Address): nat {
    if j.Loaded(base, to).AccountIsWarm(to) then CALL_WARM else CALL_COLD
  }

  function Prepare(
    ctx: Context, j: JournalState, base: Option<DbState>, to: Address, value: U256, request: nat, available: nat)
    : Preparation
  {
    match j.Lookup(base, to)
    case None => Refused(j, 0, RevertCode)
    case Some(callee) =>
      var ready := Parties(j, base, ctx.address, to);
      var access := AccessCost(j, base, to);
      if value == 0 then
        Ready(ready.CodeAsked(base, to), access, Forward(available, access, request), 0, false)
      else if BalanceOf(ready, base, ctx.address) < value then
        Refused(ready, access, RevertCode)
      else
        var charge := access + NOT_ZERO_VALUE_COST
                      + if callee.Info().IsEmpty() then EMPTY_CALLEE_COST else 0;
        if available < charge then
          Refused(ready, charge, HaltCode)
        else
          Ready(Transfer(ready, base, ctx.address, to, value).CodeAsked(base, to), charge,
                Forward(available, charge, request), STIPEND, BalanceOf(ready, base, to) + value >= TWO_256)
  }

  /** The context of a called frame. */
  function Callee(ctx: Context, kind: CallKind, to: Address, value: U256, limit: nat): Context {
    var isStatic := ctx.isStatic || kind.StaticCall?;
    match kind
    case CallCode => Context(ctx.address, ctx.address, value, isStatic, limit, ctx.depth + 1)
    case DelegateCall => Context(ctx.address, ctx.caller, ctx.value, isStatic, limit, ctx.depth + 1)
    case _ => Context(to, ctx.address, value, isStatic, limit, ctx.depth + 1)
  }

  /** The gas a call finally consumes, before asking whether it is a natural number. */
  function Settled(prep: Preparation, result: FrameResult): int
    requires prep.Ready?
  {
    prep.charge + prep.forwarded - (prep.forwarded + prep.stipend - result.gasUsed) - result.refunded
  }

  function Initialiser(ctx: Context, dest: Address, limit: nat): Context {
    Context(dest, ctx.address, ctx.value, false, limit, ctx.depth + 1)
  }

  /** Whether a creation is turned away before its code runs. */
  predicate CreateRefused(ctx: Context, j: JournalState, base: Option<DbState>, dest: Address, salted: bool) {
    match j.Lookup(base, ctx.address)
    case None => true
    case Some(sender) => (!salted && sender.nonce + 1 >= TWO_64) || j.Lookup(base, dest).Some?
  }

  /** The journal after the sender and, if it came to that, the new address have been looked up. */
  function CreateAsked(ctx: Context, j: JournalState, base: Option<DbState>, dest: Address, salted: bool)
    : JournalState
  {
    match j.Lookup(base, ctx.address)
    case None => j
    case Some(sender) =>
      var loaded := j.Loaded(base, ctx.address);
      if !salted && sender.nonce + 1 >= TWO_64 then loaded else loaded.Loaded(base, dest)
  }

  /** The journal handed to the initialisation code. */
  function CreateStart(ctx: Context, j: JournalState, base: Option<DbState>, dest: Address, value: U256)
    : JournalState
  {
    j.Loaded(base, ctx.address).AddAccountAsWarm(dest).NewAccount(dest, value)
  }

  /**
   The journal once the initialisation code is done, computed from the sender as it was before,
   and whether the creation is reported as done.
   */
  function CreateEnd(
    ctx: Context, sender: AccountInfo, j: JournalState, base: Option<DbState>,
    dest: Address, value: U256, deployed: Bytecode): (JournalState, bool)
  {
    if sender.balance < value then (j, true)
    else
      var made := j.NewContract(dest, deployed, value);
      if sender.nonce + 1 >= TWO_64 then (made, false)
      else
        (made.SetNonce(base, ctx.address, sender.nonce + 1)
           .SetBalance(base, ctx.address, sender.balance - value), true)
  }

  function Credited(j: JournalState, base: Option<DbState>, receiver: Address, amount: nat): JournalState {
    if j.Lookup(base, receiver).Some?
    then j.Loaded(base, receiver).SetBalance(base, receiver, BalanceOf(j, base, receiver) + amount)
    else j.NewAccount(receiver, amount)
  }

  function Buried(j: JournalState, base: Option<DbState>, self: Address): JournalState {
    j.SetBalance(base, self, 0).SetStatus(base, self, SELF_DESTRUCTED)
  }

  /** Moves the balance to the receiver, then zeroes and marks the sender. */
  function Destroyed(ctx: Context, j: JournalState, base: Option<DbState>, receiver: Address): JournalState {
    var loaded := j.Loaded(base, ctx.address);
    Buried(Credited(loaded, base, receiver, BalanceOf(j, base, ctx.address)), base, ctx.address)
  }

  /** The effect of an action that runs no other frame. */
  function Effect(ctx: Context, st: FrameState, base: Option<DbState>, action: Action): FrameState
    requires !action.CallTo? && !action.Create?
  {
    var j := st.journal;
    match action
    case Balance(of) =>
      st.With(if j.AccountIsWarm(of) then j.Loaded(base, of) else j.Loaded(base, of).AddAccountAsWarm(of))
    case ExtCodeSize(of) =>
      st.With(if j.AccountIsWarm(of) then j.CodeAsked(base, of) else j.CodeAsked(base, of).AddAccountAsWarm(of))
    case ExtCodeCopy(of) =>
      var asked := j.CodeAsked(base, of);
      st.With(if asked.AccountIsWarm(of) then asked else asked.AddAccountAsWarm(of))
    case ExtCodeHash(of) =>
      st.With(if j.Lookup(base, of).Some? then j.Loaded(base, of) else j.AddAccountAsWarm(of))
    case BlockHash(n) => st.With(j.BlockHashAsked(base, n))
    case SLoad(key) => st.With(j.ReadStorage(base, ctx.address, key))
    case SStore(key, value) =>
      var slot := j.SlotAt(base, ctx.address, key).GetOr(Slot(value, value));
      st.With(j.ReadStorage(base, ctx.address, key).WriteStorage(base, ctx.address, key, value))
        .(refund := AddRefund(st.refund, StoreRefund(slot.original, slot.present, value)))
    case Log => st
    case SelfDestruct(receiver) =>
      var sum := BalanceOf(j, base, ctx.address) + BalanceOf(j, base, receiver);
      st.With(Destroyed(ctx, j, base, receiver))
        .(trail := st.trail.(overflow := st.trail.overflow || sum >= TWO_256))
  }

  /** A frame ends; only a successful one keeps its refund, and a failed one reports no gas left. */
  function Finish(ctx: Context, st: FrameState, exit: Exit, gasLeft: nat): FrameResult {
    var used := SaturatingSub(ctx.limit, if exit.Error? then 0 else gasLeft);
    FrameResult(st, exit, used, if exit.Success() then Min(st.refund, used / GAS_REFUND_DENOMINATOR) else 0)
  }

  /** The state a child frame starts from. */
  function Enter(st: FrameState, j: JournalState, child: Context, overflow: bool): FrameState {
    FrameState(j, 0, Trail(st.trail.entered + [child], st.trail.overflow || overflow))
  }

  /** The caller after a callee: its journal replaced on success, as at the call on failure. */
  function Returned(st: FrameState, called: JournalState, result: FrameResult): FrameState {
    FrameState(if result.exit.Success() then result.state.journal else called, st.refund, result.state.trail)
  }

  /** Where an action leaves its frame: still running, or bound for the revert block. */
  datatype Outcome = Outcome(state: FrameState, halted: bool)

  /** Runs a script to its end. */
  function Run(script: Script, ctx: Context, st: FrameState, db: DbState): FrameResult
    decreases script, 0
  {
    match script
    case End(exit, gasLeft) => Finish(ctx, st, exit, gasLeft)
    case Then(action, rest) =>
      var outcome := Act(action, ctx, st, db);
      if outcome.halted then Finish(ctx, outcome.state, Error, 0) else Run(rest, ctx, outcome.state, db)
  }

  /** The caller's state once a prepared call is over. */
  function Called(
    prep: Preparation, kind: CallKind, to: Address, value: U256, callee: Script,
    ctx: Context, st: FrameState, db: DbState): FrameState
    decreases callee, 1
  {
    if prep.Refused? then st.With(prep.journal)
    else
      var child := Callee(ctx, kind, to, value, prep.forwarded + prep.stipend);
      var result := Run(callee, child, Enter(st, prep.journal, child, prep.overflow), db);
      Returned(st, prep.journal, result)
  }

  /** What the call syscall reports: its return code and the gas it consumed. */
  function CallReport(
    prep: Preparation, kind: CallKind, to: Address, value: U256, callee: Script,
    ctx: Context, st: FrameState, db: DbState): (ReturnCode, int)
  {
    if prep.Refused? then (prep.code, prep.consumed)
    else
      var child := Callee(ctx, kind, to, value, prep.forwarded + prep.stipend);
      var result := Run(callee, child, Enter(st, prep.journal, child, prep.overflow), db);
      (if result.exit.Success() then SuccessCode else RevertCode, Settled(prep, result))
  }

  function Act(action: Action, ctx: Context, st: FrameState, db: DbState): Outcome
    decreases action, 0
  {
    if Forbidden(ctx, action) then Outcome(st, true)
    else
      match action
      case CallTo(kind, to, value, request, spent, callee) =>
        if spent > ctx.limit then Outcome(st, true)
        else if IsPrecompile(to) then Outcome(st, false)
        else
          var v := Transferred(kind, value);
          var prep := Prepare(ctx, st.journal, Some(db), to, v, request, ctx.limit - spent);
          Outcome(Called(prep, kind, to, v, callee, ctx, st, db), false)
      case Create(dest, value, salted, available, init, deployed) =>
        if CreateRefused(ctx, st.journal, Some(db), dest, salted) then
          Outcome(st.With(CreateAsked(ctx, st.journal, Some(db), dest, salted)), true)
        else
          var sender := st.journal.Lookup(Some(db), ctx.address).value.Info();
          var child := Initialiser(ctx, dest, available);
          var start := Enter(st, CreateStart(ctx, st.journal, Some(db), dest, value), child, false);
          var result := Run(init, child, start, db);
          var (after, done) := CreateEnd(ctx, sender, result.state.journal, Some(db), dest, value, deployed);
          Outcome(FrameState(after, st.refund, result.state.trail), !done)
      case _ => Outcome(Effect(ctx, st, Some(db), action), false)
  }
}
