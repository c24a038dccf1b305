/** Gas across calls: exact settlement, and a bound on how deep calls can nest. */
module CallGas {
  import opened Arithmetic
  import opened Primitives
  import opened Database
  import opened Journaling
  import opened Syscalls
  import SyscallContexts

  /**
   The gas of a call that runs its callee: no subtraction underflows, the caller pays the charge plus
   what the callee used, less the stipend and the refund, and it can pay exactly when it could pay
   the charge.
   */
  lemma Settlement(
    ctx: Context, st: FrameState, db: DbState, kind: CallKind, to: Address, value: U256,
    request: nat, available: nat, callee: Script)
    requires Prepare(ctx, st.journal, Some(db), to, value, request, available).Ready?
    ensures var prep := Prepare(ctx, st.journal, Some(db), to, value, request, available);
            var sent := prep.forwarded + prep.stipend;
            var child := Callee(ctx, kind, to, value, sent);
            var result := Run(callee, child, Enter(st, prep.journal, child, prep.overflow), db);
            var consumed := CallReport(prep, kind, to, value, callee, ctx, st, db).1;
            && result.gasUsed <= sent
            && sent - result.gasUsed <= prep.charge + prep.forwarded
            && result.refunded <= prep.charge + prep.forwarded - (sent - result.gasUsed)
            && consumed == prep.charge + result.gasUsed - prep.stipend - result.refunded
            && (consumed <= available <==> prep.charge <= available)
  {
    var prep := Prepare(ctx, st.journal, Some(db), to, value, request, available);
    var child := Callee(ctx, kind, to, value, prep.forwarded + prep.stipend);
    SyscallContexts.GasBounds(callee, child, Enter(st, prep.journal, child, prep.overflow), db);
  }

  /** A called frame gets at most a third of what its caller had. */
  lemma CalleeLimit(
    ctx: Context, j: JournalState, db: DbState, to: Address, value: U256, request: nat, available: nat)
    requires Prepare(ctx, j, Some(db), to, value, request, available).Ready?
    ensures var prep := Prepare(ctx, j, Some(db), to, value, request, available);
            && 3 * (prep.forwarded + prep.stipend) <= available
            && (available > 0 ==> prep.forwarded + prep.stipend < available)
  {
  }

  // ----- How deep calls nest -----

  function Pow3(n: nat): nat {
    if n == 0 then 1 else 3 * Pow3(n - 1)
  }

  /** The least gas the six stack arguments of a call cost: six times the cheapest push. */
  const ARGUMENTS_COST := 12

  /** No creations, and every call is made after `price` gas was spent. */
  predicate Frugal(script: Script, price: nat) {
    match script
    case End(_, _) => true
    case Then(action, rest) => FrugalAction(action, price) && Frugal(rest, price)
  }

  predicate FrugalAction(action: Action, price: nat) {
    match action
    case CallTo(_, _, _, _, spent, callee) => spent >= price && Frugal(callee, price)
    case Create(_, _, _, _, _, _) => false
    case _ => true
  }

  /**
   A frame entered below `ctx`: deeper, static if `ctx` is, and, if calls cost `price`, with no more gas
   and no deeper than the gas of `ctx` allows.
   */
  ghost predicate Descends(ctx: Context, child: Context, price: Option<nat>) {
    && child.depth > ctx.depth
    && (ctx.isStatic ==> child.isStatic)
    && (price.Some? ==> child.limit * Pow3(child.depth - ctx.depth) <= ctx.limit)
    && (price.Some? ==> price.value * Pow3(child.depth - ctx.depth - 1) <= ctx.limit)
  }

  ghost predicate Entries(before: seq<Context>, after: seq<Context>, ctx: Context, price: Option<nat>) {
    && |before| <= |after|
    && after[..|before|] == before
    && forall i | |before| <= i < |after| :: Descends(ctx, after[i], price)
  }

  lemma EntriesCompose(a: seq<Context>, b: seq<Context>, c: seq<Context>, ctx: Context, price: Option<nat>)
    requires Entries(a, b, ctx, price) && Entries(b, c, ctx, price)
    ensures Entries(a, c, ctx, price)
  {
    assert c[..|a|] == c[..|b|][..|a|];
    forall i | |a| <= i < |c|
      ensures Descends(ctx, c[i], price)
    {
      if i < |b| {
        assert c[i] == c[..|b|][i] == b[i];
      }
    }
  }

  lemma DescendsFurther(ctx: Context, child: Context, below: Context, price: Option<nat>)
    requires Descends(child, below, price) && child.depth == ctx.depth + 1 && (ctx.isStatic ==> child.isStatic)
    requires price.Some? ==> 3 * child.limit <= ctx.limit
    ensures Descends(ctx, below, price)
  {
    var d := below.depth - child.depth;
    assert Pow3(d + 1) == 3 * Pow3(d) && Pow3(d) == 3 * Pow3(d - 1);
    if price.Some? {
      assert below.limit * Pow3(d + 1) == 3 * (below.limit * Pow3(d));
      assert price.value * Pow3(d) == 3 * (price.value * Pow3(d - 1));
    }
  }

  /** What a child enters counts for its parent too. */
  lemma EntriesOfChild(before: seq<Context>, after: seq<Context>, ctx: Context, child: Context, price: Option<nat>)
    requires Entries(before + [child], after, child, price)
    requires child.depth == ctx.depth + 1 && (ctx.isStatic ==> child.isStatic)
    requires price.Some? ==> 3 * child.limit <= ctx.limit && price.value <= ctx.limit
    ensures Entries(before, after, ctx, price)
  {
    assert after[..|before|] == after[..|before| + 1][..|before|];
    forall i | |before| <= i < |after|
      ensures Descends(ctx, after[i], price)
    {
      if i == |before| {
        assert after[i] == after[..|before| + 1][i] == child;
      } else {
        DescendsFurther(ctx, child, after[i], price);
      }
    }
  }

  lemma {:induction false} RunEntries(script: Script, ctx: Context, st: FrameState, db: DbState, price: Option<nat>)
    requires price.Some? ==> Frugal(script, price.value)
    ensures Entries(st.trail.entered, Run(script, ctx, st, db).state.trail.entered, ctx, price)
    decreases script, 0
  {
    if script.Then? {
      var outcome := Act(script.action, ctx, st, db);
      ActEntries(script.action, ctx, st, db, price);
      if !outcome.halted {
        RunEntries(script.rest, ctx, outcome.state, db, price);
        EntriesCompose(st.trail.entered, outcome.state.trail.entered,
                       Run(script.rest, ctx, outcome.state, db).state.trail.entered, ctx, price);
      }
    }
  }

  lemma {:induction false} ActEntries(action: Action, ctx: Context, st: FrameState, db: DbState, price: Option<nat>)
    requires price.Some? ==> FrugalAction(action, price.value)
    ensures Entries(st.trail.entered, Act(action, ctx, st, db).state.trail.entered, ctx, price)
    decreases action, 0
  {
    if !Forbidden(ctx, action) {
      match action
      case CallTo(kind, to, value, request, spent, callee) =>
        if spent <= ctx.limit && !IsPrecompile(to) {
          var v, available := Transferred(kind, value), ctx.limit - spent;
          var prep := Prepare(ctx, st.journal, Some(db), to, v, request, available);
          if prep.Ready? {
            CalleeLimit(ctx, st.journal, db, to, v, request, available);
          }
          CalledEntries(prep, kind, to, v, callee, ctx, st, db, price);
        }
      case Create(dest, value, salted, available, init, deployed) =>
        if !CreateRefused(ctx, st.journal, Some(db), dest, salted) {
          var child := Initialiser(ctx, dest, available);
          var start := Enter(st, CreateStart(ctx, st.journal, Some(db), dest, value), child, false);
          RunEntries(init, child, start, db, None);
          EntriesOfChild(st.trail.entered, Run(init, child, start, db).state.trail.entered, ctx, child, None);
        }
      case _ =>
    }
  }

  lemma {:induction false} CalledEntries(
    prep: Preparation, kind: CallKind, to: Address, value: U256, callee: Script,
    ctx: Context, st: FrameState, db: DbState, price: Option<nat>)
    requires price.Some? ==> Frugal(callee, price.value)
    requires price.Some? && prep.Ready? ==>
               3 * (prep.forwarded + prep.stipend) <= ctx.limit && price.value <= ctx.limit
    ensures Entries(st.trail.entered, Called(prep, kind, to, value, callee, ctx, st, db).trail.entered, ctx, price)
    decreases callee, 1
  {
    if prep.Ready? {
      var child := Callee(ctx, kind, to, value, prep.forwarded + prep.stipend);
      var start := Enter(st, prep.journal, child, prep.overflow);
      RunEntries(callee, child, start, db, price);
      EntriesOfChild(st.trail.entered, Run(callee, child, start, db).state.trail.entered, ctx, child, price);
    }
  }

  lemma {:induction false} Pow3Monotone(m: nat, n: nat)
    requires m <= n
    ensures Pow3(m) <= Pow3(n)
    decreases n
  {
    if m < n {
      Pow3Monotone(m, n - 1);
    }
  }

  lemma {:induction false} Pow3Sum(m: nat, n: nat)
    ensures Pow3(m + n) == Pow3(m) * Pow3(n)
    decreases n
  {
    if n > 0 {
      Pow3Sum(m, n - 1);
    }
  }

  lemma Pow3Of38()
    ensures Pow3(38) == 1350851717672992089
  {
    assert Pow3(9) == 19683 by {
      assert Pow3(3) == 27;
      Pow3Sum(3, 3);
      Pow3Sum(6, 3);
    }
    Pow3Sum(9, 9);
    Pow3Sum(18, 1);
    Pow3Sum(19, 19);
  }

  /** Without creations, every level of calls divides the gas by three at least. */
  lemma CallsThinGas(script: Script, ctx: Context, st: FrameState, db: DbState, i: nat)
    requires Frugal(script, 0)
    requires |st.trail.entered| <= i < |Run(script, ctx, st, db).state.trail.entered|
    ensures var child := Run(script, ctx, st, db).state.trail.entered[i];
            && child.depth > ctx.depth
            && child.limit * Pow3(child.depth - ctx.depth) <= ctx.limit
            && (ctx.limit <= I64_MAX && child.depth >= ctx.depth + 38 ==> child.limit < ARGUMENTS_COST)
  {
    RunEntries(script, ctx, st, db, Some(0));
    assert Descends(ctx, Run(script, ctx, st, db).state.trail.entered[i], Some(0));
    DeepIsPoor(ctx, Run(script, ctx, st, db).state.trail.entered[i]);
  }

  lemma DeepIsPoor(ctx: Context, child: Context)
    requires Descends(ctx, child, Some(0))
    ensures ctx.limit <= I64_MAX && child.depth >= ctx.depth + 38 ==> child.limit < ARGUMENTS_COST
  {
    if child.depth >= ctx.depth + 38 && child.limit >= ARGUMENTS_COST {
      var power := Pow3(child.depth - ctx.depth);
      Pow3Monotone(38, child.depth - ctx.depth);
      Pow3Of38();
      MulMonotone(ARGUMENTS_COST, child.limit, power);
    }
  }

  /**
   Whatever the gas, as long as the signed gas counter can hold it, calls nest at most 38 deep: the
   call syscall's missing depth check is never needed for calls alone.
   */
  lemma CallsNestAtMost38(script: Script, ctx: Context, st: FrameState, db: DbState, i: nat)
    requires Frugal(script, ARGUMENTS_COST) && ctx.limit <= I64_MAX
    requires |st.trail.entered| <= i < |Run(script, ctx, st, db).state.trail.entered|
    ensures Run(script, ctx, st, db).state.trail.entered[i].depth <= ctx.depth + 38
  {
    RunEntries(script, ctx, st, db, Some(ARGUMENTS_COST));
    assert Descends(ctx, Run(script, ctx, st, db).state.trail.entered[i], Some(ARGUMENTS_COST));
    DepthIsPaidFor(ctx, Run(script, ctx, st, db).state.trail.entered[i]);
  }

  lemma DepthIsPaidFor(ctx: Context, child: Context)
    requires Descends(ctx, child, Some(ARGUMENTS_COST)) && ctx.limit <= I64_MAX
    ensures child.depth <= ctx.depth + 38
  {
    if child.depth > ctx.depth + 38 {
      Pow3Monotone(38, child.depth - ctx.depth - 1);
      Pow3Of38();
    }
  }

  /** Every frame below a static one is static. */
  lemma StaticIsInherited(script: Script, ctx: Context, st: FrameState, db: DbState, i: nat)
    requires ctx.isStatic
    requires |st.trail.entered| <= i < |Run(script, ctx, st, db).state.trail.entered|
    ensures Run(script, ctx, st, db).state.trail.entered[i].isStatic
  {
    RunEntries(script, ctx, st, db, None);
    assert Descends(ctx, Run(script, ctx, st, db).state.trail.entered[i], None);
  }
}
