/**
 Call frames without any cache: the same scripts, run on plain maps of accounts, slots and code. Nothing is
 loaded, handed down or taken back, and no status flags are kept but who was created and who was destroyed.
 */
module PlainFrames {
  import opened Primitives
  import opened Database
  import opened Journaling
  import opened CacheRefinement
  import opened StorageGas
  import S = Syscalls

  /** A world, and the addresses created and destroyed in it. */
  datatype Plain = Plain(world: World, created: set<Address>, destroyed: set<Address>)

  datatype PlainState = PlainState(plain: Plain, refund: nat, trail: S.Trail) {
    function With(p: Plain): PlainState {
      this.(plain := p)
    }
  }

  datatype PlainResult = PlainResult(state: PlainState, exit: S.Exit, gasUsed: nat, refunded: nat)

  // ----- The interpreter -----

  ghost predicate Exists(p: Plain, a: Address) {
    a in p.world.accounts
  }

  ghost function Balance(p: Plain, a: Address): nat {
    if Exists(p, a) then p.world.accounts[a].balance else 0
  }

  ghost predicate IsEmpty(acc: PlainAccount) {
    acc.balance == 0 && acc.nonce == 0 && acc.codeHash == EMPTY_CODE_HASH
  }

  ghost function Do(p: Plain, op: Op): Plain {
    var w := PlainApply(p.world, op);
    match op
    case NewAccount(a, _) => Plain(w, p.created + {a}, p.destroyed - {a})
    case NewContract(a, _, _) => Plain(w, p.created + {a}, p.destroyed - {a})
    case AddAccountAsWarm(a) => if Exists(p, a) then p else Plain(w, p.created + {a}, p.destroyed - {a})
    case SetStatus(a, status) =>
      if !Exists(p, a) then p
      else Plain(w, if status.created then p.created + {a} else p.created,
                 if status.selfDestructed then p.destroyed + {a} else p.destroyed)
    case _ => p.(world := w)
  }

  ghost function Pay(p: Plain, from: Address, to: Address, value: nat): Plain
    requires value <= Balance(p, from)
  {
    Do(Do(p, SetBalance(from, Balance(p, from) - value)), SetBalance(to, Balance(p, to) + value))
  }

  datatype Preparation =
    | Refused(plain: Plain)
    | Ready(plain: Plain, charge: nat, forwarded: nat, stipend: nat, overflow: bool)

  ghost function Prepare(ctx: S.Context, p: Plain, to: Address, value: U256, request: nat, available: nat)
    : Preparation
  {
    if !Exists(p, to) then Refused(p)
    else if value == 0 then Ready(p, S.CALL_WARM, S.Forward(available, S.CALL_WARM, request), 0, false)
    else if Balance(p, ctx.address) < value then Refused(p)
    else
      var charge := S.CALL_WARM + S.NOT_ZERO_VALUE_COST
                    + if IsEmpty(p.world.accounts[to]) then S.EMPTY_CALLEE_COST else 0;
      if available < charge then Refused(p)
      else Ready(Pay(p, ctx.address, to, value), charge, S.Forward(available, charge, request), S.STIPEND,
                 Balance(p, to) + value >= TWO_256)
  }

  ghost predicate CreateRefused(ctx: S.Context, p: Plain, dest: Address, salted: bool) {
    || !Exists(p, ctx.address) || Exists(p, dest)
    || (!salted && p.world.accounts[ctx.address].nonce + 1 >= TWO_64)
  }

  /** The end of a creation, computed from the creator as it was before. */
  ghost function CreateEnd(
    ctx: S.Context, sender: PlainAccount, p: Plain, dest: Address, value: U256, deployed: Bytecode): (Plain, bool)
  {
    if sender.balance < value then (p, true)
    else
      var made := Do(p, NewContract(dest, deployed, value));
      if sender.nonce + 1 >= TWO_64 then (made, false)
      else
        (Do(Do(made, SetNonce(ctx.address, sender.nonce + 1)), SetBalance(ctx.address, sender.balance - value)), true)
  }

  ghost function Credited(p: Plain, receiver: Address, amount: nat): Plain {
    if Exists(p, receiver) then Do(p, SetBalance(receiver, Balance(p, receiver) + amount))
    else Do(p, NewAccount(receiver, amount))
  }

  ghost function Destroyed(ctx: S.Context, p: Plain, receiver: Address): Plain {
    var credited := Credited(p, receiver, Balance(p, ctx.address));
    Do(Do(credited, SetBalance(ctx.address, 0)), SetStatus(ctx.address, SELF_DESTRUCTED))
  }

  /** What a store adds to the refund counter, `start` being the world as the transaction found it. */
  ghost function Refund(ctx: S.Context, p: Plain, start: World, key: U256, value: U256): int {
    var cell := (ctx.address, key);
    if !Exists(p, ctx.address) then StoreRefund(value, value, value)
    else if cell in start.storage && cell in p.world.storage
    then StoreRefund(start.storage[cell], p.world.storage[cell], value)
    else 0
  }

  /** Asking about an account that is not there brings it into being. */
  ghost function Effect(ctx: S.Context, st: PlainState, start: World, action: S.Action): PlainState
    requires !action.CallTo? && !action.Create?
  {
    var p := st.plain;
    match action
    case Balance(of) => st.With(Do(p, AddAccountAsWarm(of)))
    case ExtCodeSize(of) => st.With(Do(p, AddAccountAsWarm(of)))
    case ExtCodeCopy(of) => st.With(Do(p, AddAccountAsWarm(of)))
    case ExtCodeHash(of) => st.With(Do(p, AddAccountAsWarm(of)))
    case SStore(key, value) =>
      st.With(Do(p, WriteStorage(ctx.address, key, value)))
        .(refund := AddRefund(st.refund, Refund(ctx, p, start, key, value)))
    case SelfDestruct(receiver) =>
      var sum := Balance(p, ctx.address) + Balance(p, receiver);
      st.With(Destroyed(ctx, p, receiver)).(trail := st.trail.(overflow := st.trail.overflow || sum >= TWO_256))
    case _ => st
  }

  ghost function Finish(ctx: S.Context, st: PlainState, exit: S.Exit, gasLeft: nat): PlainResult {
    var used := SaturatingSub(ctx.limit, if exit.Error? then 0 else gasLeft);
    PlainResult(st, exit, used, if exit.Success() then Min(st.refund, used / S.GAS_REFUND_DENOMINATOR) else 0)
  }

  ghost function Enter(st: PlainState, p: Plain, child: S.Context, overflow: bool): PlainState {
    PlainState(p, 0, S.Trail(st.trail.entered + [child], st.trail.overflow || overflow))
  }

  ghost function Run(script: S.Script, ctx: S.Context, st: PlainState, start: World): PlainResult
    decreases script, 0
  {
    match script
    case End(exit, gasLeft) => Finish(ctx, st, exit, gasLeft)
    case Then(action, rest) =>
      var (after, halted) := Act(action, ctx, st, start);
      if halted then Finish(ctx, after, S.Error, 0) else Run(rest, ctx, after, start)
  }

  /** A callee that fails leaves the world as it was when it was entered. */
  ghost function Called(
    prep: Preparation, kind: S.CallKind, to: Address, value: U256, callee: S.Script,
    ctx: S.Context, st: PlainState, start: World): PlainState
    decreases callee, 1
  {
    if prep.Refused? then st.With(prep.plain)
    else
      var child := S.Callee(ctx, kind, to, value, prep.forwarded + prep.stipend);
      var result := Run(callee, child, Enter(st, prep.plain, child, prep.overflow), start);
      PlainState(if result.exit.Success() then result.state.plain else prep.plain, st.refund, result.state.trail)
  }

  ghost function Created(
    dest: Address, value: U256, available: nat, init: S.Script, deployed: Bytecode,
    ctx: S.Context, st: PlainState, start: World): (PlainState, bool)
    requires Exists(st.plain, ctx.address)
    decreases init, 1
  {
    var child := S.Initialiser(ctx, dest, available);
    var result := Run(init, child, Enter(st, Do(st.plain, NewAccount(dest, value)), child, false), start);
    var (after, done) :=
      CreateEnd(ctx, st.plain.world.accounts[ctx.address], result.state.plain, dest, value, deployed);
    (PlainState(after, st.refund, result.state.trail), !done)
  }

  /** The state after an action, and whether the frame halts. */
  ghost function Act(action: S.Action, ctx: S.Context, st: PlainState, start: World): (PlainState, bool)
    decreases action, 0
  {
    if S.Forbidden(ctx, action) then (st, true)
    else
      match action
      case CallTo(kind, to, value, request, spent, callee) =>
        if spent > ctx.limit then (st, true)
        else if S.IsPrecompile(to) then (st, false)
        else
          var v := S.Transferred(kind, value);
          var prep := Prepare(ctx, st.plain, to, v, request, ctx.limit - spent);
          (Called(prep, kind, to, v, callee, ctx, st, start), false)
      case Create(dest, value, salted, available, init, deployed) =>
        if CreateRefused(ctx, st.plain, dest, salted) then (st, true)
        else Created(dest, value, available, init, deployed, ctx, st, start)
      case _ => (Effect(ctx, st, start, action), false)
  }
}
