/** The syscall layer as objects: every frame owns a journal, and the database handle moves between them. */
module SyscallContexts {
  import opened Primitives
  import opened Database
  import opened Journaling
  import opened StorageGas
  import opened Syscalls
  import opened CallOutcomes
  import SyscallTrace

  lemma {:induction false} GasBounds(script: Script, ctx: Context, st: FrameState, db: DbState)
    ensures var result := Run(script, ctx, st, db);
            && result.gasUsed <= ctx.limit
            && result.refunded <= result.gasUsed / GAS_REFUND_DENOMINATOR
            && (!result.exit.Success() ==> result.refunded == 0)
    decreases script
  {
    if script.Then? && !Act(script.action, ctx, st, db).halted {
      GasBounds(script.rest, ctx, Act(script.action, ctx, st, db).state, db);
    }
  }

  /** Both parties of a prepared call exist, and the stipend is covered by the charge. */
  lemma PreparedParties(
    ctx: Context, j: JournalState, db: DbState, to: Address, value: U256, request: nat, available: nat)
    requires j.Lookup(Some(db), ctx.address).Some?
    ensures var prep := Prepare(ctx, j, Some(db), to, value, request, available);
            prep.Ready? ==>
              && prep.journal.Lookup(Some(db), ctx.address).Some?
              && prep.journal.Lookup(Some(db), to).Some?
              && prep.stipend <= prep.charge
  {
  }

  /** A prepared call does not look at the caller's journal again. */
  lemma PreparedStart(
    prep: Preparation, kind: CallKind, to: Address, value: U256, callee: Script,
    ctx: Context, st: FrameState, st': FrameState, db: DbState)
    requires prep.Ready? && st' == st.With(prep.journal)
    ensures Called(prep, kind, to, value, callee, ctx, st, db) == Called(prep, kind, to, value, callee, ctx, st', db)
    ensures CallReport(prep, kind, to, value, callee, ctx, st, db) ==
            CallReport(prep, kind, to, value, callee, ctx, st', db)
  {
  }

  class SyscallContext {
    const ctx: Context
    const journal: Journal
    var gasRefund: nat
    ghost var trail: Trail

    ghost function State(): FrameState
      reads this, journal
    {
      FrameState(journal.State(), gasRefund, trail)
    }

    /** The frame runs: it holds the database, and the account it acts for exists. */
    ghost predicate Live()
      reads this, journal, journal.db
    {
      journal.db != null && journal.State().Lookup(Some(journal.db.State()), ctx.address).Some?
    }

    constructor (ctx: Context, journal: Journal, ghost trail: Trail)
      ensures this.ctx == ctx && this.journal == journal && gasRefund == 0 && this.trail == trail
    {
      this.ctx, this.journal, gasRefund, this.trail := ctx, journal, 0, trail;
    }

    /** SLOAD: the value found and its price. */
    method ReadStorage(key: U256) returns (value: U256, gas: int)
      requires Live()
      modifies journal`accounts
      ensures State() == Effect(ctx, old(State()), Some(journal.db.State()), SLoad(key))
      ensures value == Found(old(journal.State()), journal.db.State(), ctx.address, key).present
      ensures gas == Charge(old(journal.State()), journal.db.State(), ctx.address, Load(key))
    {
      var cold := !(ctx.address in journal.accounts && key in journal.accounts[ctx.address].storage);
      var slot := journal.ReadStorage(ctx.address, key);
      value := slot.GetOr(Slot(0, 0)).present;
      gas := LoadCost(cold);
    }

    /** SSTORE: writes through the journal, adjusts the refund counter and returns the price. */
    method WriteStorage(key: U256, value: U256) returns (gas: int)
      requires Live()
      modifies this`gasRefund, journal`accounts
      ensures State() == Effect(ctx, old(State()), Some(journal.db.State()), SStore(key, value))
      ensures gas == Charge(old(journal.State()), journal.db.State(), ctx.address, Store(key, value))
      ensures gasRefund ==
              AddRefund(old(gasRefund),
                        RefundOf(old(journal.State()), journal.db.State(), ctx.address, Store(key, value)))
    {
      var cold := !(ctx.address in journal.accounts && key in journal.accounts[ctx.address].storage);
      var slot := journal.ReadStorage(ctx.address, key);
      journal.WriteStorage(ctx.address, key, value);
      var found := slot.GetOr(Slot(value, value));
      gas := StoreCost(found.original, found.present, value, cold);
      var refund := StoreRefund(found.original, found.present, value);
      if refund > 0 {
        gasRefund := gasRefund + refund;
      } else {
        gasRefund := SaturatingSub(gasRefund, -refund);
      }
    }

    /** The receiver's account after it has been given the balance, and whether it was empty before. */
    method Credit(receiver: Address, balance: nat) returns (wasEmpty: bool)
      requires journal.db != null
      modifies this`trail, journal`accounts
      ensures var base := Some(journal.db.State());
              var found := old(journal.State()).Lookup(base, receiver);
              && journal.State() == Credited(old(journal.State()), base, receiver, balance)
              && wasEmpty == (found.Some? ==> found.value.Info().IsEmpty())
              && trail == old(trail).(overflow := old(trail).overflow ||
                                                  BalanceOf(old(journal.State()), base, receiver) + balance >= TWO_256)
    {
      var found := journal.GetAccount(receiver);
      wasEmpty := true;
      ghost var sum := balance;
      if found.Some? {
        wasEmpty := found.value.IsEmpty();
        sum := found.value.balance + balance;
        journal.SetBalance(receiver, found.value.balance + balance);
      } else {
        journal.NewAccount(receiver, balance);
      }
      trail := trail.(overflow := trail.overflow || sum >= TWO_256);
    }

    method Bury()
      requires journal.db != null
      modifies journal`accounts
      ensures journal.State() == Buried(old(journal.State()), Some(journal.db.State()), ctx.address)
    {
      journal.SetBalance(ctx.address, 0);
      var still := journal.GetAccount(ctx.address);
      if still.Some? {
        journal.SetStatus(ctx.address, SELF_DESTRUCTED);
      }
    }

    /** SELFDESTRUCT: hands the balance over, zeroes and marks this account. */
    method SelfDestruct(receiver: Address) returns (gas: nat)
      requires journal.db != null
      modifies this`trail, journal`accounts
      ensures State() == Effect(ctx, old(State()), Some(journal.db.State()), Action.SelfDestruct(receiver))
      ensures var found := old(journal.State()).Lookup(Some(journal.db.State()), receiver);
              gas == if BalanceOf(old(journal.State()), Some(journal.db.State()), ctx.address) != 0
                        && (found.Some? ==> found.value.Info().IsEmpty())
                     then 25000 else 0
    {
      var sender := journal.GetAccount(ctx.address);
      var balance := if sender.Some? then sender.value.balance else 0;
      var receiverIsEmpty := Credit(receiver, balance);
      Bury();
      gas := if balance != 0 && receiverIsEmpty then 25000 else 0;
    }

    /** The syscalls that only look at accounts, code and block hashes. */
    method Query(action: Action)
      requires journal.db != null
      requires action.Balance? || action.ExtCodeSize? || action.ExtCodeCopy? || action.ExtCodeHash? || action.BlockHash?
      modifies journal`accounts, journal`blockHashes
      ensures State() == Effect(ctx, old(State()), Some(journal.db.State()), action)
    {
      match action
      case Balance(of) =>
        var cold := !(of in journal.accounts && !journal.accounts[of].status.cold);
        var _ := journal.GetAccount(of);
        if cold {
          journal.AddAccountAsWarm(of);
        }
      case ExtCodeSize(of) =>
        var cold := !(of in journal.accounts && !journal.accounts[of].status.cold);
        var _ := journal.CodeByAddress(of);
        if cold {
          journal.AddAccountAsWarm(of);
        }
      case ExtCodeCopy(of) =>
        var _ := journal.CodeByAddress(of);
        if !(of in journal.accounts && !journal.accounts[of].status.cold) {
          journal.AddAccountAsWarm(of);
        }
      case ExtCodeHash(of) =>
        var found := journal.GetAccount(of);
        if found.None? {
          journal.AddAccountAsWarm(of);
        }
      case BlockHash(n) =>
        var _ := journal.GetBlockHash(n);
    }

    method LookUpParties(to: Address) returns (callee: Option<AccountInfo>, callerBalance: nat, access: nat)
      requires journal.db != null
      modifies journal`accounts
      ensures var base := Some(journal.db.State());
              var j := old(journal.State());
              match j.Lookup(base, to)
              case None => callee == None && journal.State() == j
              case Some(acc) =>
                && callee == Some(acc.Info())
                && journal.State() == Parties(j, base, ctx.address, to)
                && callerBalance == BalanceOf(journal.State(), base, ctx.address)
                && acc.balance == BalanceOf(journal.State(), base, to)
                && access == AccessCost(j, base, to)
    {
      callerBalance, access := 0, CALL_WARM;
      callee := journal.GetAccount(to);
      if callee.None? {
        return;
      }
      if !(to in journal.accounts && !journal.accounts[to].status.cold) {
        access := CALL_COLD;
        journal.AddAccountAsWarm(to);
      }
      var caller := journal.GetAccount(ctx.address);
      callerBalance := if caller.Some? then caller.value.balance else 0;
    }

    /** Moves the value between two accounts already looked up. */
    method Pay(to: Address, value: U256, callerBalance: nat, calleeBalance: nat)
      requires journal.db != null
      requires callerBalance == BalanceOf(journal.State(), journal.Base(), ctx.address)
      requires calleeBalance == BalanceOf(journal.State(), journal.Base(), to)
      requires value <= callerBalance
      modifies journal`accounts
      ensures journal.State() == Transfer(old(journal.State()), Some(journal.db.State()), ctx.address, to, value)
    {
      journal.SetBalance(ctx.address, callerBalance - value);
      journal.SetBalance(to, calleeBalance + value);
    }

    /** Looks both parties up and, if the call can go ahead, moves the value and fetches the code. */
    method PrepareCall(to: Address, value: U256, request: nat, available: nat) returns (prep: Preparation)
      requires journal.db != null
      modifies journal`accounts
      ensures prep == Prepare(ctx, old(journal.State()), Some(journal.db.State()), to, value, request, available)
      ensures journal.State() == prep.journal
    {
      var callee, callerBalance, charge := LookUpParties(to);
      var ready := JournalState(journal.accounts, journal.contracts, journal.blockHashes);
      if callee.None? {
        return Refused(ready, 0, RevertCode);
      }
      var stipend, overflow := 0, false;
      if value != 0 {
        if callerBalance < value {
          return Refused(ready, charge, RevertCode);
        }
        charge := charge + NOT_ZERO_VALUE_COST;
        if callee.value.IsEmpty() {
          charge := charge + EMPTY_CALLEE_COST;
        }
        if available < charge {
          return Refused(ready, charge, HaltCode);
        }
        stipend, overflow := STIPEND, callee.value.balance + value >= TWO_256;
        Pay(to, value, callerBalance, callee.value.balance);
      }
      var forwarded := Forward(available, charge, request);
      var _ := journal.CodeByAddress(to);
      prep := Ready(JournalState(journal.accounts, journal.contracts, journal.blockHashes),
                    charge, forwarded, stipend, overflow);
    }

    /** Hands a copy of the journal and the database down, runs the callee and settles the gas. */
    method Descend(prep: Preparation, kind: CallKind, to: Address, value: U256, callee: Script)
      returns (code: ReturnCode, consumed: nat)
      requires Live() && prep.Ready? && journal.State() == prep.journal && prep.stipend <= prep.charge
      requires prep.journal.Lookup(journal.Base(), to).Some?
      modifies this`trail, journal
      ensures journal.db == old(journal.db)
      ensures State() == Called(prep, kind, to, value, callee, ctx, old(State()), journal.db.State())
      ensures (code, consumed) == CallReport(prep, kind, to, value, callee, ctx, old(State()), journal.db.State())
      decreases callee, 1
    {
      var gasToSend := prep.forwarded + prep.stipend;
      var childContext := Callee(ctx, kind, to, value, gasToSend);
      ghost var start := Enter(State(), prep.journal, childContext, prep.overflow);
      var childJournal := journal.EjectBase();
      var child := new SyscallContext(childContext, childJournal, start.trail);
      assert child.State() == start;
      var exit, used, refunded := child.Execute(callee);
      trail := child.trail;
      GasBounds(callee, childContext, start, childJournal.db.State());
      consumed := prep.charge + prep.forwarded;
      consumed := consumed - (gasToSend - used);
      consumed := consumed - refunded;
      if exit.Success() {
        journal.ExtendFromSuccessful(child.journal);
        code := SuccessCode;
      } else {
        journal.ExtendFromReverted(child.journal);
        code := RevertCode;
      }
    }

    /** The call syscall. */
    method CallFrame(kind: CallKind, to: Address, value: U256, request: nat, available: nat, callee: Script)
      returns (code: ReturnCode, consumed: nat)
      requires Live()
      modifies this`trail, journal
      ensures journal.db == old(journal.db)
      ensures var prep := Prepare(ctx, old(journal.State()), old(journal.Base()), to, value, request, available);
              && State() == Called(prep, kind, to, value, callee, ctx, old(State()), journal.db.State())
              && (code, consumed) == CallReport(prep, kind, to, value, callee, ctx, old(State()), journal.db.State())
      ensures Tells(kind, to, value, request, available, callee, ctx, old(State()), journal.db.State(),
                    code, consumed, journal.State())
      decreases callee, 2
    {
      CallTells(kind, to, value, request, available, callee, ctx, State(), journal.db.State());
      PreparedParties(ctx, journal.State(), journal.db.State(), to, value, request, available);
      var prep := PrepareCall(to, value, request, available);
      if prep.Refused? {
        return prep.code, prep.consumed;
      }
      ghost var st := State();
      code, consumed := Descend(prep, kind, to, value, callee);
      PreparedStart(prep, kind, to, value, callee, ctx, old(State()), st, journal.db.State());
    }

    /** The checks before a creation, and the announcement of the new address. */
    method AnnounceCreate(dest: Address, salted: bool) returns (refused: bool, sender: AccountInfo)
      requires Live()
      modifies journal`accounts
      ensures var base := Some(journal.db.State());
              && refused == CreateRefused(ctx, old(journal.State()), base, dest, salted)
              && sender == old(journal.State()).Lookup(base, ctx.address).value.Info()
              && journal.State() == if refused then CreateAsked(ctx, old(journal.State()), base, dest, salted)
                                    else old(journal.State()).Loaded(base, ctx.address).AddAccountAsWarm(dest)
    {
      var found := journal.GetAccount(ctx.address);
      sender := found.value;
      if !salted && sender.nonce + 1 >= TWO_64 {
        return true, sender;
      }
      var taken := journal.GetAccount(dest);
      if taken.Some? {
        return true, sender;
      }
      journal.AddAccountAsWarm(dest);
      refused := false;
    }

    /** Runs the initialisation code in a frame of its own; its journal is adopted on any outcome. */
    method Initialise(dest: Address, value: U256, available: nat, init: Script)
      requires Live()
      modifies this`trail, journal
      ensures journal.db == old(journal.db)
      ensures var child := Initialiser(ctx, dest, available);
              var start := Enter(old(State()), old(journal.State()).NewAccount(dest, value), child, false);
              State() == Run(init, child, start, journal.db.State()).state.(refund := old(gasRefund))
      decreases init, 1
    {
      var childContext := Initialiser(ctx, dest, available);
      ghost var entered := Trail(trail.entered + [childContext], trail.overflow);
      var childJournal := journal.EjectBase();
      var child := new SyscallContext(childContext, childJournal, entered);
      child.journal.NewAccount(dest, value);
      var _, _, _ := child.Execute(init);
      trail := child.trail;
      journal.ExtendFromSuccessful(child.journal);
    }

    method Deploy(sender: AccountInfo, dest: Address, value: U256, deployed: Bytecode) returns (done: bool)
      requires journal.db != null
      modifies journal`accounts, journal`contracts
      ensures (journal.State(), done) ==
              CreateEnd(ctx, sender, old(journal.State()), Some(journal.db.State()), dest, value, deployed)
    {
      if sender.balance < value {
        return true;
      }
      journal.NewContract(dest, deployed, value);
      if sender.nonce + 1 >= TWO_64 {
        return false;
      }
      journal.SetNonce(ctx.address, sender.nonce + 1);
      journal.SetBalance(ctx.address, sender.balance - value);
      done := true;
    }

    method CreateFrame(action: Action) returns (halted: bool)
      requires Live() && action.Create? && !Forbidden(ctx, action)
      modifies this`trail, journal
      ensures journal.db == old(journal.db)
      ensures Outcome(State(), halted) == Act(action, ctx, old(State()), journal.db.State())
      decreases action, 0
    {
      var Create(dest, value, salted, available, init, deployed) := action;
      var refused, sender := AnnounceCreate(dest, salted);
      if refused {
        return true;
      }
      Initialise(dest, value, available, init);
      var done := Deploy(sender, dest, value, deployed);
      halted := !done;
    }

    /** Carries one action out; a halted one goes to the revert block. */
    method Perform(action: Action) returns (halted: bool)
      requires Live()
      modifies this, journal
      ensures journal.db == old(journal.db) && Live()
      ensures Outcome(State(), halted) == Act(action, ctx, old(State()), journal.db.State())
      decreases action, 1
    {
      ghost var st, db := State(), journal.db.State();
      SyscallTrace.ActKeepsVisible(action, ctx, st, db, ctx.address);
      halted := false;
      if Forbidden(ctx, action) {
        return true;
      }
      match action
      case CallTo(kind, to, value, request, spent, callee) =>
        if spent > ctx.limit {
          return true;
        }
        if !IsPrecompile(to) {
          var _, _ := CallFrame(kind, to, Transferred(kind, value), request, ctx.limit - spent, callee);
        }
      case Create(_, _, _, _, _, _) =>
        halted := CreateFrame(action);
      case SLoad(key) =>
        var _, _ := ReadStorage(key);
      case SStore(key, value) =>
        var _ := WriteStorage(key, value);
      case Log =>
      case SelfDestruct(receiver) =>
        var _ := SelfDestruct(receiver);
      case _ =>
        Query(action);
    }

    /** Runs a frame to its end and reports its gas. */
    method Execute(script: Script) returns (exit: Exit, used: nat, refunded: nat)
      requires Live()
      modifies this, journal
      ensures journal.db == old(journal.db) && journal.db != null
      ensures FrameResult(State(), exit, used, refunded) == Run(script, ctx, old(State()), journal.db.State())
      decreases script, 0
    {
      match script
      case End(status, gasLeft) =>
        exit := status;
        used := SaturatingSub(ctx.limit, if exit.Error? then 0 else gasLeft);
        refunded := if exit.Success() then Min(gasRefund, used / GAS_REFUND_DENOMINATOR) else 0;
      case Then(action, rest) =>
        var halted := Perform(action);
        if halted {
          return Error, ctx.limit, 0;
        }
        exit, used, refunded := Execute(rest);
    }
  }
}
