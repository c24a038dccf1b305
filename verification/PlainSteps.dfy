/** One journal operation is one operation on plain maps, marks of creation and destruction included. */
module PlainSteps {
  import opened Primitives
  import opened Database
  import opened Journaling
  import opened CacheRefinement
  import S = Syscalls
  import P = PlainFrames

  // ----- What a journal stands for -----

  ghost function CreatedIn(j: JournalState): set<Address> {
    set a | a in j.accounts && j.accounts[a].status.created
  }

  ghost function DestroyedIn(j: JournalState): set<Address> {
    set a | a in j.accounts && j.accounts[a].status.selfDestructed
  }

  /** Nothing is marked cold: whatever has been looked up counts as warm. */
  ghost predicate NoneCold(j: JournalState) {
    forall a <- j.accounts :: !j.accounts[a].status.cold
  }

  /** The journal over the database is coherent and shows this plain world. */
  ghost predicate Shows(j: JournalState, db: DbState, p: P.Plain) {
    && db.WellFormed() && Coherent(j, db) && NoneCold(j)
    && p == P.Plain(View(j, db), CreatedIn(j), DestroyedIn(j))
  }

  /** The operations a syscall may use: they bring accounts into being only where there are none, and none is cold. */
  ghost predicate Usable(j: JournalState, db: DbState, op: Op) {
    Admissible(j, db, op) && (op.SetStatus? ==> !op.status.cold)
  }

  /** What a lookup finds is what the plain world holds. */
  ghost predicate SameAccount(j: JournalState, db: DbState, p: P.Plain, a: Address) {
    && (j.Lookup(Some(db), a).Some? <==> P.Exists(p, a))
    && S.BalanceOf(j, Some(db), a) == P.Balance(p, a)
    && (P.Exists(p, a) ==>
          var acc, plain := j.Lookup(Some(db), a).value, p.world.accounts[a];
          && acc.nonce == plain.nonce && (acc.Info().IsEmpty() <==> P.IsEmpty(plain)))
  }

  /** A slot has the value the transaction started from, and the present one. */
  ghost predicate SameSlot(j: JournalState, db: DbState, p: P.Plain, start: World, a: Address, key: U256) {
    j.Lookup(Some(db), a).Some? ==>
      && (a, key) in start.storage && (a, key) in p.world.storage
      && j.SlotAt(Some(db), a, key) == Some(Slot(start.storage[(a, key)], p.world.storage[(a, key)]))
  }

  // ----- One operation -----

  ghost predicate SameMarks(j: JournalState, p: P.Plain) {
    p.created == CreatedIn(j) && p.destroyed == DestroyedIn(j)
  }

  /** An entry put in place of another changes the marks of its address only. */
  lemma PutMarks(j: JournalState, a: Address, acc: JournalAccount)
    ensures CreatedIn(j.Put(a, acc)) == if acc.status.created then CreatedIn(j) + {a} else CreatedIn(j) - {a}
    ensures DestroyedIn(j.Put(a, acc)) ==
            if acc.status.selfDestructed then DestroyedIn(j) + {a} else DestroyedIn(j) - {a}
  {
  }

  ghost predicate KeepsMarks(op: Op) {
    !op.NewAccount? && !op.NewContract? && !op.AddAccountAsWarm? && !op.SetStatus?
  }

  lemma MarksKept(j: JournalState, db: DbState, op: Op)
    requires KeepsMarks(op)
    ensures CreatedIn(Apply(j, Some(db), op)) == CreatedIn(j) && DestroyedIn(Apply(j, Some(db), op)) == DestroyedIn(j)
  {
    if !op.GetBlockHash? && j.Lookup(Some(db), op.address).Some? {
      var j', a := Apply(j, Some(db), op), op.address;
      if j' != j {
        PutMarks(j, a, j'.accounts[a]);
      }
    }
  }

  lemma MarksSet(j: JournalState, db: DbState, p: P.Plain, op: Op)
    requires SameMarks(j, p) && Usable(j, db, op) && (op.SetStatus? || op.AddAccountAsWarm?)
    requires SameAccount(j, db, p, op.address)
    ensures SameMarks(Apply(j, Some(db), op), P.Do(p, op))
  {
    var j', a := Apply(j, Some(db), op), op.address;
    if j' != j {
      PutMarks(j, a, j'.accounts[a]);
    }
  }

  lemma MarksAgree(j: JournalState, db: DbState, p: P.Plain, op: Op)
    requires SameMarks(j, p) && Usable(j, db, op)
    requires op.SetStatus? || op.AddAccountAsWarm? ==> SameAccount(j, db, p, op.address)
    ensures SameMarks(Apply(j, Some(db), op), P.Do(p, op))
  {
    if KeepsMarks(op) {
      MarksKept(j, db, op);
    } else if op.NewAccount? {
      PutMarks(j, op.address, NewCreated(op.balance));
    } else if op.NewContract? {
      PutMarks(j, op.address, JournalAccount(1, op.balance, map[], Keccak(op.bytecode), CREATED));
    } else {
      MarksSet(j, db, p, op);
    }
  }

  lemma StaysWarm(j: JournalState, db: DbState, op: Op)
    requires NoneCold(j) && Usable(j, db, op)
    ensures NoneCold(Apply(j, Some(db), op))
  {
  }

  lemma ShowsNext(j: JournalState, db: DbState, p: P.Plain, op: Op)
    requires Shows(j, db, p) && Usable(j, db, op)
    ensures Shows(Apply(j, Some(db), op), db, P.Do(p, op))
  {
    ApplyCoherent(j, db, op);
    ApplyRefines(j, db, op);
    StaysWarm(j, db, op);
    if op.SetStatus? || op.AddAccountAsWarm? {
      ShowsAccount(j, db, p, op.address);
    }
    MarksAgree(j, db, p, op);
  }

  lemma ShowsAccount(j: JournalState, db: DbState, p: P.Plain, a: Address)
    requires Shows(j, db, p)
    ensures SameAccount(j, db, p, a)
  {
    AnswersAgree(j, db, GetAccount(a));
  }

  lemma ShowsSlot(j: JournalState, db: DbState, p: P.Plain, a: Address, key: U256)
    requires Shows(j, db, p)
    ensures SameSlot(j, db, p, View(EMPTY_JOURNAL, db), a, key)
  {
  }
}
