/** Calls and selfdestructs move value around without making or losing any, and exactly when. */
module Conservation {
  import opened Primitives
  import opened Database
  import opened Journaling
  import opened CacheRefinement
  import opened Syscalls
  import SyscallTrace

  // ----- Sums of balances -----

  ghost function Sum(accounts: map<Address, PlainAccount>): nat
    decreases |accounts|
  {
    if accounts == map[] then 0
    else
      var a :| a in accounts;
      accounts[a].balance + Sum(accounts - {a})
  }

  /** The sum does not depend on the order of summation. */
  lemma {:induction false} SumSplit(accounts: map<Address, PlainAccount>, a: Address)
    requires a in accounts
    ensures Sum(accounts) == accounts[a].balance + Sum(accounts - {a})
    decreases |accounts|
  {
    var b :| b in accounts && Sum(accounts) == accounts[b].balance + Sum(accounts - {b});
    if a != b {
      SumSplit(accounts - {b}, a);
      SumSplit(accounts - {a}, b);
      assert accounts - {a} - {b} == accounts - {b} - {a};
    }
  }

  ghost function BalanceIn(accounts: map<Address, PlainAccount>, a: Address): nat {
    if a in accounts then accounts[a].balance else 0
  }

  lemma SumUpdate(accounts: map<Address, PlainAccount>, a: Address, acc: PlainAccount)
    ensures Sum(accounts[a := acc]) == Sum(accounts) - BalanceIn(accounts, a) + acc.balance
  {
    SumSplit(accounts[a := acc], a);
    assert accounts[a := acc] - {a} == accounts - {a};
    if a in accounts {
      SumSplit(accounts, a);
    } else {
      assert accounts - {a} == accounts;
    }
  }

  lemma TwoBalances(accounts: map<Address, PlainAccount>, a: Address, b: Address)
    requires a != b
    ensures BalanceIn(accounts, a) + BalanceIn(accounts, b) <= Sum(accounts)
  {
    if a in accounts {
      SumSplit(accounts, a);
      if b in accounts {
        SumSplit(accounts - {a}, b);
      }
    } else if b in accounts {
      SumSplit(accounts, b);
    }
  }

  /** All the value in the journal's view. */
  ghost function Total(j: JournalState, db: DbState): nat {
    Sum(ViewAccounts(j, db))
  }

  lemma ViewBalance(j: JournalState, db: DbState, a: Address)
    ensures BalanceIn(ViewAccounts(j, db), a) == BalanceOf(j, Some(db), a)
  {
  }

  lemma TotalOfPut(j: JournalState, db: DbState, a: Address, acc: JournalAccount)
    ensures Total(j.Put(a, acc), db) == Total(j, db) - BalanceOf(j, Some(db), a) + acc.balance
  {
    AccountsOfPut(j, db, a, acc);
    SumUpdate(ViewAccounts(j, db), a, PlainAccount(acc.nonce, acc.balance, acc.codeHash));
    ViewBalance(j, db, a);
  }

  /** An operation changes the total by what it changes at its own address. */
  lemma TotalOfOp(j: JournalState, db: DbState, op: Op)
    requires !op.GetBlockHash? && !op.NewContract?
    ensures var j' := Apply(j, Some(db), op);
            Total(j', db) - BalanceOf(j', Some(db), op.address) == Total(j, db) - BalanceOf(j, Some(db), op.address)
    ensures forall a: Address | a != op.address ::
              BalanceOf(Apply(j, Some(db), op), Some(db), a) == BalanceOf(j, Some(db), a)
  {
    var j' := Apply(j, Some(db), op);
    if j' != j {
      assert j' == j.Put(op.address, j'.accounts[op.address]);
      TotalOfPut(j, db, op.address, j'.accounts[op.address]);
    }
  }

  /** Operations that leave every balance alone. */
  ghost predicate Still(op: Op) {
    || op.AddAccountAsWarm? || op.SetNonce? || op.SetStatus? || op.GetAccount?
    || op.CodeByAddress? || op.ReadStorage? || op.WriteStorage?
  }

  lemma StillOp(j: JournalState, db: DbState, op: Op)
    requires Still(op) && Admissible(j, db, op)
    ensures Total(Apply(j, Some(db), op), db) == Total(j, db)
    ensures forall a: Address :: BalanceOf(Apply(j, Some(db), op), Some(db), a) == BalanceOf(j, Some(db), a)
  {
    TotalOfOp(j, db, op);
  }

  lemma TotalOfSetBalance(j: JournalState, db: DbState, a: Address, balance: nat)
    requires j.Lookup(Some(db), a).Some?
    ensures Total(j.SetBalance(Some(db), a, balance), db) == Total(j, db) - BalanceOf(j, Some(db), a) + balance
    ensures forall b: Address ::
              BalanceOf(j.SetBalance(Some(db), a, balance), Some(db), b) ==
              if a == b then balance else BalanceOf(j, Some(db), b)
  {
    TotalOfOp(j, db, CacheRefinement.SetBalance(a, balance));
  }

  lemma StillThere(j: JournalState, db: DbState, a: Address, balance: nat, b: Address)
    requires j.Lookup(Some(db), b).Some?
    ensures j.SetBalance(Some(db), a, balance).Lookup(Some(db), b).Some?
  {
  }

  // ----- One transfer -----

  /** Value moved between two accounts stays; moved from an account to itself, it is made. */
  lemma TransferTotal(j: JournalState, db: DbState, from: Address, to: Address, value: nat)
    requires j.Lookup(Some(db), from).Some? && j.Lookup(Some(db), to).Some?
    requires value <= BalanceOf(j, Some(db), from)
    ensures Total(Transfer(j, Some(db), from, to, value), db) == Total(j, db) + (if from == to then value else 0)
  {
    var left, given := BalanceOf(j, Some(db), from) - value, BalanceOf(j, Some(db), to) + value;
    var taken := j.SetBalance(Some(db), from, left);
    TotalOfSetBalance(j, db, from, left);
    StillThere(j, db, from, left, to);
    assert Transfer(j, Some(db), from, to, value) == taken.SetBalance(Some(db), to, given);
    TotalOfSetBalance(taken, db, to, given);
  }

  lemma PartiesTotal(j: JournalState, db: DbState, self: Address, to: Address)
    requires j.Lookup(Some(db), to).Some?
    ensures Total(Parties(j, Some(db), self, to), db) == Total(j, db)
    ensures forall a: Address :: BalanceOf(Parties(j, Some(db), self, to), Some(db), a) == BalanceOf(j, Some(db), a)
  {
    var loaded := j.Loaded(Some(db), to);
    StillOp(j, db, GetAccount(to));
    StillOp(loaded, db, AddAccountAsWarm(to));
    StillOp(if loaded.AccountIsWarm(to) then loaded else loaded.AddAccountAsWarm(to), db, GetAccount(self));
  }

  /** A call that goes ahead keeps the total exactly when it moves nothing or moves it elsewhere. */
  lemma PreparedTotal(
    ctx: Context, j: JournalState, db: DbState, to: Address, value: U256, request: nat, available: nat)
    ensures var prep := Prepare(ctx, j, Some(db), to, value, request, available);
            && (prep.Refused? ==> Total(prep.journal, db) == Total(j, db))
            && (prep.Ready? ==>
                  && Total(prep.journal, db) == Total(j, db) + (if ctx.address == to then value else 0)
                  && (Total(prep.journal, db) == Total(j, db) <==> value == 0 || ctx.address != to)
                  && (prep.overflow ==> ctx.address == to || Total(j, db) >= TWO_256))
  {
    var base, self := Some(db), ctx.address;
    if j.Lookup(base, to).Some? {
      PartiesTotal(j, db, self, to);
      var ready := Parties(j, base, self, to);
      var prep := Prepare(ctx, j, base, to, value, request, available);
      if prep.Ready? {
        if value == 0 {
          StillOp(ready, db, CodeByAddress(to));
        } else {
          TransferTotal(ready, db, self, to, value);
          StillOp(Transfer(ready, base, self, to, value), db, CodeByAddress(to));
          if self != to {
            TwoBalances(ViewAccounts(ready, db), self, to);
            ViewBalance(ready, db, self);
            ViewBalance(ready, db, to);
          }
        }
      }
    }
  }

  // ----- One selfdestruct -----

  lemma CreditedTotal(j: JournalState, db: DbState, receiver: Address, amount: nat)
    ensures var credited := Credited(j, Some(db), receiver, amount);
            && Total(credited, db) == Total(j, db) + amount
            && forall a: Address :: BalanceOf(credited, Some(db), a) ==
                                    BalanceOf(j, Some(db), a) + if a == receiver then amount else 0
  {
    if j.Lookup(Some(db), receiver).Some? {
      LoadedTotal(j, db, receiver);
      TotalOfSetBalance(j.Loaded(Some(db), receiver), db, receiver, BalanceOf(j, Some(db), receiver) + amount);
    } else {
      TotalOfOp(j, db, NewAccount(receiver, amount));
    }
  }

  lemma LoadedTotal(j: JournalState, db: DbState, a: Address)
    ensures var loaded := j.Loaded(Some(db), a);
            && Total(loaded, db) == Total(j, db)
            && loaded.Lookup(Some(db), a) == j.Lookup(Some(db), a)
            && forall b: Address :: BalanceOf(loaded, Some(db), b) == BalanceOf(j, Some(db), b)
  {
    StillOp(j, db, GetAccount(a));
  }

  lemma BuriedTotal(j: JournalState, db: DbState, self: Address)
    ensures Total(Buried(j, Some(db), self), db) == Total(j, db) - BalanceOf(j, Some(db), self)
  {
    if j.Lookup(Some(db), self).Some? {
      TotalOfSetBalance(j, db, self, 0);
    }
    StillOp(j.SetBalance(Some(db), self, 0), db, SetStatus(self, SELF_DESTRUCTED));
  }

  /** A selfdestruct keeps the total exactly when it names another account or has nothing to give. */
  lemma DestroyedTotal(ctx: Context, j: JournalState, db: DbState, receiver: Address)
    ensures Total(Destroyed(ctx, j, Some(db), receiver), db) ==
            Total(j, db) - (if receiver == ctx.address then BalanceOf(j, Some(db), receiver) else 0)
    ensures Total(Destroyed(ctx, j, Some(db), receiver), db) == Total(j, db) <==>
            receiver != ctx.address || BalanceOf(j, Some(db), ctx.address) == 0
    ensures receiver != ctx.address ==>
              BalanceOf(j, Some(db), ctx.address) + BalanceOf(j, Some(db), receiver) <= Total(j, db)
  {
    var self := ctx.address;
    var balance := BalanceOf(j, Some(db), self);
    var loaded := j.Loaded(Some(db), self);
    StillOp(j, db, GetAccount(self));
    CreditedTotal(loaded, db, receiver, balance);
    BuriedTotal(Credited(loaded, Some(db), receiver, balance), db, self);
    if receiver != self {
      TwoBalances(ViewAccounts(j, db), self, receiver);
      ViewBalance(j, db, self);
      ViewBalance(j, db, receiver);
    }
  }

  // ----- Whole call trees -----

  /** Value only ever goes to another account: no creations, no value or balance sent to oneself. */
  predicate Honest(script: Script, self: Address) {
    match script
    case End(_, _) => true
    case Then(action, rest) => HonestAction(action, self) && Honest(rest, self)
  }

  predicate HonestAction(action: Action, self: Address) {
    match action
    case CallTo(kind, to, value, _, _, callee) =>
      && (Transferred(kind, value) == 0 || to != self)
      && Honest(callee, if kind.Call? || kind.StaticCall? then to else self)
    case SelfDestruct(receiver) => receiver != self
    case Create(_, _, _, _, _, _) => false
    case _ => true
  }

  lemma EffectTotal(ctx: Context, st: FrameState, db: DbState, action: Action)
    requires !action.CallTo? && !action.Create? && HonestAction(action, ctx.address)
    ensures var st' := Effect(ctx, st, Some(db), action);
            && Total(st'.journal, db) == Total(st.journal, db)
            && (st'.trail.overflow ==> st.trail.overflow || Total(st.journal, db) >= TWO_256)
            && (!action.SelfDestruct? ==>
                  forall a: Address :: BalanceOf(st'.journal, Some(db), a) == BalanceOf(st.journal, Some(db), a))
  {
    var j, base := st.journal, Some(db);
    match action
    case Balance(of) =>
      StillOp(j, db, GetAccount(of));
      StillOp(j.Loaded(base, of), db, AddAccountAsWarm(of));
    case ExtCodeSize(of) =>
      StillOp(j, db, CodeByAddress(of));
      StillOp(j.CodeAsked(base, of), db, AddAccountAsWarm(of));
    case ExtCodeCopy(of) =>
      StillOp(j, db, CodeByAddress(of));
      StillOp(j.CodeAsked(base, of), db, AddAccountAsWarm(of));
    case ExtCodeHash(of) =>
      StillOp(j, db, GetAccount(of));
      if j.Lookup(base, of).None? {
        StillOp(j, db, AddAccountAsWarm(of));
      }
    case BlockHash(n) =>
      assert ViewAccounts(j.BlockHashAsked(base, n), db) == ViewAccounts(j, db);
    case SLoad(key) => StillOp(j, db, ReadStorage(ctx.address, key));
    case SStore(key, value) =>
      StillOp(j, db, ReadStorage(ctx.address, key));
      StillOp(j.ReadStorage(base, ctx.address, key), db, WriteStorage(ctx.address, key, value));
    case Log =>
    case SelfDestruct(receiver) => DestroyedTotal(ctx, j, db, receiver);
  }

  lemma {:induction false} RunConserves(script: Script, ctx: Context, st: FrameState, db: DbState)
    requires Honest(script, ctx.address)
    ensures var st' := Run(script, ctx, st, db).state;
            && Total(st'.journal, db) == Total(st.journal, db)
            && (st'.trail.overflow ==> st.trail.overflow || Total(st.journal, db) >= TWO_256)
    decreases script, 0
  {
    if script.Then? {
      var outcome := Act(script.action, ctx, st, db);
      ActConserves(script.action, ctx, st, db);
      if !outcome.halted {
        RunConserves(script.rest, ctx, outcome.state, db);
      }
    }
  }

  lemma {:induction false} ActConserves(action: Action, ctx: Context, st: FrameState, db: DbState)
    requires HonestAction(action, ctx.address)
    ensures var st' := Act(action, ctx, st, db).state;
            && Total(st'.journal, db) == Total(st.journal, db)
            && (st'.trail.overflow ==> st.trail.overflow || Total(st.journal, db) >= TWO_256)
    decreases action, 0
  {
    if !Forbidden(ctx, action) {
      if action.CallTo? {
        CallConserves(action, ctx, st, db);
      } else {
        EffectTotal(ctx, st, db, action);
      }
    }
  }

  lemma {:induction false} CallConserves(action: Action, ctx: Context, st: FrameState, db: DbState)
    requires action.CallTo? && !Forbidden(ctx, action) && HonestAction(action, ctx.address)
    ensures var st' := Act(action, ctx, st, db).state;
            && Total(st'.journal, db) == Total(st.journal, db)
            && (st'.trail.overflow ==> st.trail.overflow || Total(st.journal, db) >= TWO_256)
    decreases action.callee, 2
  {
    var CallTo(kind, to, value, request, spent, callee) := action;
    if spent <= ctx.limit && !IsPrecompile(to) {
      var v, available := Transferred(kind, value), ctx.limit - spent;
      var prep := Prepare(ctx, st.journal, Some(db), to, v, request, available);
      assert Act(action, ctx, st, db).state == Called(prep, kind, to, v, callee, ctx, st, db);
      PreparedTotal(ctx, st.journal, db, to, v, request, available);
      CalledConserves(prep, kind, to, v, callee, ctx, st, db);
    }
  }

  lemma {:induction false} CalledConserves(
    prep: Preparation, kind: CallKind, to: Address, value: U256, callee: Script,
    ctx: Context, st: FrameState, db: DbState)
    requires Honest(callee, if kind.Call? || kind.StaticCall? then to else ctx.address)
    ensures var st' := Called(prep, kind, to, value, callee, ctx, st, db);
            && Total(st'.journal, db) == Total(prep.journal, db)
            && (st'.trail.overflow ==>
                  st.trail.overflow || (prep.Ready? && prep.overflow) || Total(prep.journal, db) >= TWO_256)
    decreases callee, 1
  {
    if prep.Ready? {
      var child := Callee(ctx, kind, to, value, prep.forwarded + prep.stipend);
      RunConserves(callee, child, Enter(st, prep.journal, child, prep.overflow), db);
    }
  }

  /**
   Over any honest call tree, whichever of its calls succeed or fail, the total of all balances is
   constant, and below two to the 256 no balance ever overflows.
   */
  lemma ValueIsConserved(script: Script, ctx: Context, j: JournalState, db: DbState)
    requires Honest(script, ctx.address) && Total(j, db) < TWO_256
    ensures var st' := Run(script, ctx, FrameState(j, 0, Trail([], false)), db).state;
            && Total(st'.journal, db) == Total(j, db)
            && !st'.trail.overflow
            && forall a: Address :: BalanceOf(st'.journal, Some(db), a) < TWO_256
  {
    var st := FrameState(j, 0, Trail([], false));
    RunConserves(script, ctx, st, db);
    var j' := Run(script, ctx, st, db).state.journal;
    forall a: Address
      ensures BalanceOf(j', Some(db), a) < TWO_256
    {
      ViewBalance(j', db, a);
      if a in ViewAccounts(j', db) {
        SumSplit(ViewAccounts(j', db), a);
      }
    }
  }

  // ----- Creations -----

  /** Code that calls nothing, creates nothing and destroys nothing. */
  predicate Idle(script: Script) {
    script.Then? ==>
      && !script.action.CallTo? && !script.action.Create? && !script.action.SelfDestruct?
      && Idle(script.rest)
  }

  lemma {:induction false} IdleRun(script: Script, ctx: Context, st: FrameState, db: DbState)
    requires Idle(script)
    ensures var j := Run(script, ctx, st, db).state.journal;
            && Total(j, db) == Total(st.journal, db)
            && forall a: Address :: BalanceOf(j, Some(db), a) == BalanceOf(st.journal, Some(db), a)
    decreases script
  {
    if script.Then? && !Forbidden(ctx, script.action) {
      EffectTotal(ctx, st, db, script.action);
      IdleRun(script.rest, ctx, Effect(ctx, st, Some(db), script.action), db);
    }
  }

  lemma CreateStartTotal(ctx: Context, j: JournalState, db: DbState, dest: Address, value: U256)
    requires j.Lookup(Some(db), dest).None?
    ensures var start := CreateStart(ctx, j, Some(db), dest, value);
            && Total(start, db) == Total(j, db) + value
            && forall a: Address :: BalanceOf(start, Some(db), a) ==
                                    if a == dest then value else BalanceOf(j, Some(db), a)
  {
    var loaded := j.Loaded(Some(db), ctx.address);
    StillOp(j, db, GetAccount(ctx.address));
    StillOp(loaded, db, AddAccountAsWarm(dest));
    TotalOfOp(loaded.AddAccountAsWarm(dest), db, NewAccount(dest, value));
  }

  lemma NewContractTotal(j: JournalState, db: DbState, dest: Address, code: Bytecode, value: nat)
    ensures Total(j.NewContract(dest, code, value), db) == Total(j, db) - BalanceOf(j, Some(db), dest) + value
    ensures forall a: Address | a != dest ::
              j.NewContract(dest, code, value).Lookup(Some(db), a) == j.Lookup(Some(db), a)
  {
    var acc := JournalAccount(1, value, map[], Keccak(code), CREATED);
    TotalOfPut(j, db, dest, acc);
    assert ViewAccounts(j.NewContract(dest, code, value), db) == ViewAccounts(j.Put(dest, acc), db);
  }

  /** The last two steps of a creation give the creator a nonce and a balance worked out before it began. */
  lemma ResetTotal(j: JournalState, db: DbState, self: Address, nonce: U64, balance: nat)
    requires j.Lookup(Some(db), self).Some?
    ensures Total(j.SetNonce(Some(db), self, nonce).SetBalance(Some(db), self, balance), db) ==
            Total(j, db) - BalanceOf(j, Some(db), self) + balance
  {
    var nonced := j.SetNonce(Some(db), self, nonce);
    assert nonced == Apply(j, Some(db), SetNonce(self, nonce));
    StillOp(j, db, SetNonce(self, nonce));
    assert nonced.Lookup(Some(db), self).Some?;
    TotalOfSetBalance(nonced, db, self, balance);
  }

  /**
   What the end of a creation makes or loses: the new account is given the endowment whatever it held,
   and the creator the balance it had before, less the endowment, whatever it holds now.
   */
  ghost function EndGain(
    ctx: Context, sender: AccountInfo, j: JournalState, db: DbState, dest: Address, value: U256): int
  {
    if sender.balance < value then 0
    else
      value - BalanceOf(j, Some(db), dest)
      + if sender.nonce + 1 >= TWO_64 then 0 else sender.balance - value - BalanceOf(j, Some(db), ctx.address)
  }

  lemma CreateEndTotal(
    ctx: Context, sender: AccountInfo, j: JournalState, db: DbState, dest: Address, value: U256, deployed: Bytecode)
    requires j.Lookup(Some(db), ctx.address).Some? && ctx.address != dest
    ensures Total(CreateEnd(ctx, sender, j, Some(db), dest, value, deployed).0, db) ==
            Total(j, db) + EndGain(ctx, sender, j, db, dest, value)
  {
    if sender.balance >= value {
      if sender.nonce + 1 < TWO_64 {
        DeployedTotal(ctx.address, sender, j, db, dest, value, deployed);
      } else {
        NewContractTotal(j, db, dest, deployed, value);
      }
    }
  }

  lemma NewContractElsewhere(
    j: JournalState, db: DbState, dest: Address, deployed: Bytecode, value: U256, other: Address)
    requires other != dest
    ensures j.NewContract(dest, deployed, value).Lookup(Some(db), other) == j.Lookup(Some(db), other)
    ensures BalanceOf(j.NewContract(dest, deployed, value), Some(db), other) == BalanceOf(j, Some(db), other)
  {
  }

  lemma DeployedTotal(
    self: Address, sender: AccountInfo, j: JournalState, db: DbState, dest: Address, value: U256, deployed: Bytecode)
    requires j.Lookup(Some(db), self).Some? && self != dest && sender.nonce + 1 < TWO_64 && value <= sender.balance
    ensures Total(j.NewContract(dest, deployed, value).SetNonce(Some(db), self, sender.nonce + 1)
                   .SetBalance(Some(db), self, sender.balance - value), db) ==
            Total(j, db) - BalanceOf(j, Some(db), dest) + value
            - BalanceOf(j, Some(db), self) + (sender.balance - value)
  {
    NewContractTotal(j, db, dest, deployed, value);
    NewContractElsewhere(j, db, dest, deployed, value, self);
    ResetTotal(j.NewContract(dest, deployed, value), db, self, sender.nonce + 1, sender.balance - value);
  }

  /** The creator's and the new account as the initialisation code leaves them. */
  lemma CreatedBalances(
    ctx: Context, st: FrameState, db: DbState, dest: Address, value: U256, available: nat, init: Script)
    requires st.journal.Lookup(Some(db), ctx.address).Some? && st.journal.Lookup(Some(db), dest).None? && Idle(init)
    ensures var child := Initialiser(ctx, dest, available);
            var start := Enter(st, CreateStart(ctx, st.journal, Some(db), dest, value), child, false);
            var ran := Run(init, child, start, db).state.journal;
            && Total(ran, db) == Total(st.journal, db) + value
            && BalanceOf(ran, Some(db), dest) == value
            && BalanceOf(ran, Some(db), ctx.address) == BalanceOf(st.journal, Some(db), ctx.address)
            && ran.Lookup(Some(db), ctx.address).Some?
  {
    var child := Initialiser(ctx, dest, available);
    var start := Enter(st, CreateStart(ctx, st.journal, Some(db), dest, value), child, false);
    CreateStartTotal(ctx, st.journal, db, dest, value);
    IdleRun(init, child, start, db);
    SyscallTrace.RunKeepsVisible(init, child, start, db, ctx.address);
  }

  /**
   A creation whose initialisation code moves no value keeps the total exactly when the creator can
   afford the endowment: otherwise the new account keeps an endowment nobody paid for.
   */
  lemma CreationTotal(
    ctx: Context, st: FrameState, db: DbState, dest: Address, value: U256, salted: bool, available: nat,
    init: Script, deployed: Bytecode)
    requires !ctx.isStatic && !CreateRefused(ctx, st.journal, Some(db), dest, salted) && Idle(init)
    requires st.journal.Lookup(Some(db), ctx.address).value.nonce + 1 < TWO_64
    ensures var after := Act(Create(dest, value, salted, available, init, deployed), ctx, st, db).state.journal;
            var paid := value <= BalanceOf(st.journal, Some(db), ctx.address);
            && Total(after, db) == Total(st.journal, db) + (if paid then 0 else value)
            && (Total(after, db) == Total(st.journal, db) <==> paid)
  {
    var sender := st.journal.Lookup(Some(db), ctx.address).value.Info();
    var child := Initialiser(ctx, dest, available);
    var start := Enter(st, CreateStart(ctx, st.journal, Some(db), dest, value), child, false);
    CreatedBalances(ctx, st, db, dest, value, available, init);
    CreateEndTotal(ctx, sender, Run(init, child, start, db).state.journal, db, dest, value, deployed);
  }

  // ----- Where the code makes or loses value -----

  /** An account with 5 to its name that calls itself with value 1 ends up with 6. */
  lemma SelfCallMakesValue()
    ensures var db := DbState(map[100 := DbAccount(1, 5, map[], EMPTY_CODE_HASH, COLD)], map[], map[]);
            var ctx := Context(100, 1, 0, false, 1_000_000, 0);
            var call := Then(CallTo(Call, 100, 1, 0, 0, End(Stop, 0)), End(Stop, 0));
            && BalanceOf(EMPTY_JOURNAL, Some(db), 100) == 5
            && BalanceOf(Run(call, ctx, FrameState(EMPTY_JOURNAL, 0, Trail([], false)), db).state.journal,
                         Some(db), 100) == 6
  {
  }

  /** An account that names itself in a selfdestruct loses its balance. */
  lemma SelfDestructToSelfLosesValue()
    ensures var db := DbState(map[100 := DbAccount(1, 5, map[], EMPTY_CODE_HASH, COLD)], map[], map[]);
            var ctx := Context(100, 1, 0, false, 1_000_000, 0);
            var destroy := Then(SelfDestruct(100), End(Stop, 0));
            && BalanceOf(EMPTY_JOURNAL, Some(db), 100) == 5
            && BalanceOf(Run(destroy, ctx, FrameState(EMPTY_JOURNAL, 0, Trail([], false)), db).state.journal,
                         Some(db), 100) == 0
  {
  }

  /** A creator with 5 that endows a new account with 7 keeps its 5, and the new account has 7. */
  lemma UnpaidEndowmentIsKept()
    ensures var db := DbState(map[100 := DbAccount(1, 5, map[], EMPTY_CODE_HASH, COLD)], map[], map[]);
            var ctx := Context(100, 1, 0, false, 1_000_000, 0);
            var create := Then(Create(200, 7, false, 1_000, End(Stop, 0), []), End(Stop, 0));
            var after := Run(create, ctx, FrameState(EMPTY_JOURNAL, 0, Trail([], false)), db).state.journal;
            && BalanceOf(EMPTY_JOURNAL, Some(db), 100) == 5 && BalanceOf(EMPTY_JOURNAL, Some(db), 200) == 0
            && BalanceOf(after, Some(db), 100) == 5 && BalanceOf(after, Some(db), 200) == 7
  {
  }

  /** The account that calls, the one it creates, and a third. */
  function ThreeParties(): DbState {
    DbState(map[100 := DbAccount(1, 10, map[], EMPTY_CODE_HASH, COLD),
                300 := DbAccount(1, 1, map[], EMPTY_CODE_HASH, COLD)], map[], map[])
  }

  /** Initialisation code that sends 3 away. */
  function Spending(): Script {
    Then(CallTo(Call, 300, 3, 0, 0, End(Stop, 0)), End(Stop, 0))
  }

  function Creator(): Context {
    Context(100, 1, 0, false, 1_000_000, 0)
  }

  /** The new account's frame as it begins. */
  function SpendingStart(): FrameState {
    var db := Some(ThreeParties());
    Enter(FrameState(EMPTY_JOURNAL, 0, Trail([], false)), CreateStart(Creator(), EMPTY_JOURNAL, db, 200, 7),
          Initialiser(Creator(), 200, 100_000), false)
  }

  lemma EndowmentIsSpent()
    ensures var db := Some(ThreeParties());
            var ran := Run(Spending(), Initialiser(Creator(), 200, 100_000), SpendingStart(), db.value).state.journal;
            && ran.Lookup(db, 100).Some? && BalanceOf(ran, db, 100) == 10
            && BalanceOf(ran, db, 200) == 4 && BalanceOf(ran, db, 300) == 4
  {
  }

  /** What a paid creation leaves every account with. */
  lemma EndBalances(
    ctx: Context, sender: AccountInfo, j: JournalState, db: DbState, dest: Address, value: U256, deployed: Bytecode,
    a: Address)
    requires j.Lookup(Some(db), ctx.address).Some? && ctx.address != dest
    requires value <= sender.balance && sender.nonce + 1 < TWO_64
    ensures BalanceOf(CreateEnd(ctx, sender, j, Some(db), dest, value, deployed).0, Some(db), a) ==
            if a == dest then value else if a == ctx.address then sender.balance - value else BalanceOf(j, Some(db), a)
  {
  }

  /** A script that does nothing but create. */
  function JustCreate(dest: Address, value: U256, available: nat, init: Script): Script {
    Then(Create(dest, value, false, available, init, []), End(Stop, 0))
  }

  lemma JustCreateRuns(
    ctx: Context, st: FrameState, db: DbState, dest: Address, value: U256, available: nat, init: Script)
    requires !ctx.isStatic && !CreateRefused(ctx, st.journal, Some(db), dest, false)
    ensures var child := Initialiser(ctx, dest, available);
            var start := Enter(st, CreateStart(ctx, st.journal, Some(db), dest, value), child, false);
            Run(JustCreate(dest, value, available, init), ctx, st, db).state.journal ==
            CreateEnd(ctx, st.journal.Lookup(Some(db), ctx.address).value.Info(),
                      Run(init, child, start, db).state.journal, Some(db), dest, value, []).0
  {
  }

  /**
   A creator with 10 endows a new account with 7, whose initialisation code sends 3 to a third one: the creator
   is left with 3 and the third has its 3 more, yet the new account has 7 again.
   */
  lemma SpentEndowmentIsRestored()
    ensures var db := Some(ThreeParties());
            var create := JustCreate(200, 7, 100_000, Spending());
            var after := Run(create, Creator(), FrameState(EMPTY_JOURNAL, 0, Trail([], false)), db.value).state.journal;
            && BalanceOf(EMPTY_JOURNAL, db, 100) == 10 && BalanceOf(after, db, 100) == 3
            && BalanceOf(EMPTY_JOURNAL, db, 200) == 0 && BalanceOf(after, db, 200) == 7
            && BalanceOf(EMPTY_JOURNAL, db, 300) == 1 && BalanceOf(after, db, 300) == 4
  {
    EndowmentIsSpent();
    var db := ThreeParties();
    JustCreateRuns(Creator(), FrameState(EMPTY_JOURNAL, 0, Trail([], false)), db, 200, 7, 100_000, Spending());
    var sender := EMPTY_JOURNAL.Lookup(Some(db), 100).value.Info();
    var ran := Run(Spending(), Initialiser(Creator(), 200, 100_000), SpendingStart(), db).state.journal;
    EndBalances(Creator(), sender, ran, db, 200, 7, [], 100);
    EndBalances(Creator(), sender, ran, db, 200, 7, [], 200);
    EndBalances(Creator(), sender, ran, db, 200, 7, [], 300);
  }
}
