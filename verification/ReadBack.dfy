/** What was written is what is read, from the journal and, after the commit, from the database. */
module ReadBack {
  import opened Primitives
  import opened Database
  import opened Journaling
  import opened CacheRefinement
  import opened WriteBack
  import T = Transactions
  import S = Syscalls

  /** The code of every visible account is the one its hash was taken of. */
  lemma CodeIsFound(j: JournalState, db: DbState, a: Address, code: Bytecode)
    requires db.WellFormed() && Coherent(j, db)
    requires j.Lookup(Some(db), a).Some? && j.Lookup(Some(db), a).value.codeHash == Keccak(code)
    ensures j.Code(Some(db), a) == code
  {
    LookupCoherent(j, db, a);
  }

  /** Code deployed is code read, from any journal. */
  lemma DeployedCodeIsRead(j: JournalState, db: DbState, a: Address, code: Bytecode, balance: nat)
    ensures var j' := Apply(j, Some(db), NewContract(a, code, balance));
            && AnswerOf(j', Some(db), CodeByAddress(a)) == CodeAnswer(code)
            && AnswerOf(j', Some(db), GetAccount(a)) == AccountAnswer(Some(PlainAccount(1, balance, Keccak(code))))
  {
  }

  /** And from the committed database. */
  lemma CommittedCodeIsRead(j: JournalState, db: DbState, after: DbState, a: Address, code: Bytecode)
    requires db.WellFormed() && Coherent(j, db) && CommitOf(j, db, after) && !Doomed(j, a)
    requires j.Lookup(Some(db), a).Some? && j.Lookup(Some(db), a).value.codeHash == Keccak(code)
    ensures AnswerOf(EMPTY_JOURNAL, Some(after), CodeByAddress(a)) == CodeAnswer(code)
  {
    CommitRealisesView(j, db, after, a);
    CodeIsFound(j, db, a, code);
  }

  /** Deploying last and committing leaves the code in the database. */
  lemma DeploymentIsCommitted(
    j: JournalState, db: DbState, after: DbState, a: Address, code: Bytecode, balance: nat)
    requires db.WellFormed() && Coherent(j, db) && a !in db.accounts
    requires CommitOf(Apply(j, Some(db), NewContract(a, code, balance)), db, after)
    ensures AnswerOf(EMPTY_JOURNAL, Some(after), CodeByAddress(a)) == CodeAnswer(code)
  {
    ApplyCoherent(j, db, NewContract(a, code, balance));
    CommittedCodeIsRead(Apply(j, Some(db), NewContract(a, code, balance)), db, after, a, code);
  }

  /** A contract inserted into the database, by hand and not by a transaction, is read back by the next journal. */
  method InsertAndRead(db: Db, a: Address, code: Bytecode, balance: nat) returns (found: Bytecode)
    requires db.State().WellFormed()
    modifies db
    ensures found == code && db.State().WellFormed()
    ensures EMPTY_JOURNAL.Code(Some(db.State()), a) == code
  {
    db.InsertContract(a, code, balance);
    CodeIsFound(EMPTY_JOURNAL, db.State(), a, code);
    var journal := new Journal(db);
    found := journal.CodeByAddress(a);
  }

  /** What a new journal reads of the database: what is stored there, zero where nothing is, and no absent account. */
  lemma DatabaseIsRead(db: DbState, a: Address, key: U256, number: U256)
    ensures var slot := EMPTY_JOURNAL.SlotAt(Some(db), a, key);
            && (a !in db.accounts ==> slot == None && EMPTY_JOURNAL.Lookup(Some(db), a) == None)
            && (a in db.accounts ==>
                  var stored := db.accounts[a].storage;
                  slot == Some(if key in stored then Slot(stored[key], stored[key]) else Slot(0, 0)))
    ensures EMPTY_JOURNAL.BlockHash(Some(db), number) ==
            if number in db.blockHashes then db.blockHashes[number] else Zero
  {
  }

  /** A slot written is read with its value, and no other slot changes. */
  lemma StoredSlotIsRead(j: JournalState, db: DbState, a: Address, key: U256, value: U256, cell: Cell)
    requires j.Lookup(Some(db), a).Some? && db.WellFormed() && Coherent(j, db)
    ensures var j' := j.WriteStorage(Some(db), a, key, value);
            && j'.SlotAt(Some(db), a, key) == Some(Slot(db.StorageAt(a, key), value))
            && SlotValue(j', db, cell) == if cell == (a, key) then value else SlotValue(j, db, cell)
  {
    LookupCoherent(j, db, a);
  }

  /** A balance and a nonce too. */
  lemma SetIsRead(j: JournalState, db: DbState, a: Address, balance: nat, nonce: nat, b: Address)
    requires j.Lookup(Some(db), a).Some?
    ensures S.BalanceOf(j.SetBalance(Some(db), a, balance), Some(db), b) ==
            if a == b then balance else S.BalanceOf(j, Some(db), b)
    ensures j.SetNonce(Some(db), a, nonce).Lookup(Some(db), a).value.nonce == nonce
  {
  }

  /** Whatever a transaction did: the code of an account it did not doom is in the database under its address. */
  lemma TransactionKeepsCode(
    script: S.Script, ctx: S.Context, db: DbState, after: DbState, a: Address, code: Bytecode)
    requires db.WellFormed() && CommitOf(T.LastJournal(script, ctx, db), db, after)
    requires a in T.LastWorld(script, ctx, db).accounts && a !in T.DoomedBy(script, ctx, db)
    requires T.LastWorld(script, ctx, db).accounts[a].codeHash == Keccak(code)
    ensures AnswerOf(EMPTY_JOURNAL, Some(after), CodeByAddress(a)) == CodeAnswer(code)
  {
    T.TransactionIsPlain(script, ctx, db);
    CommittedCodeIsRead(T.LastJournal(script, ctx, db), db, after, a, code);
  }
}
