/** Committing a journal makes the database show what the journal showed. */
module WriteBack {
  import opened Primitives
  import opened Database
  import opened Journaling
  import opened CacheRefinement

  /** Created and destroyed within the same transaction: such an account is not written. */
  ghost predicate Doomed(j: JournalState, a: Address) {
    a in j.accounts && j.accounts[a].status.created && j.accounts[a].status.selfDestructed
  }

  /** Any question about an address has the same answer over `after` as from the journal over `db`. */
  ghost predicate AgreeAt(j: JournalState, db: DbState, after: DbState, a: Address) {
    && AnswerOf(EMPTY_JOURNAL, Some(after), GetAccount(a)) == AnswerOf(j, Some(db), GetAccount(a))
    && AnswerOf(EMPTY_JOURNAL, Some(after), CodeByAddress(a)) == AnswerOf(j, Some(db), CodeByAddress(a))
    && forall k: U256 ::
         AnswerOf(EMPTY_JOURNAL, Some(after), ReadStorage(a, k)) == AnswerOf(j, Some(db), ReadStorage(a, k))
  }

  /** `after` is a database that a commit of `j` to `db` can leave. */
  ghost predicate CommitOf(j: JournalState, db: DbState, after: DbState) {
    && after.accounts == CommittedAccounts(db.accounts, j.IntoState())
    && CommittedContracts(db.contracts, j.IntoState(), after.contracts)
    && after.blockHashes == db.blockHashes
  }

  lemma CommittedCodes(j: JournalState, db: DbState, after: DbState)
    requires db.WellFormed() && Coherent(j, db) && CommitOf(j, db, after)
    ensures forall h <- after.contracts :: h == Keccak(after.contracts[h])
    ensures forall a <- j.accounts | !Doomed(j, a) && HasCode(j.accounts[a].codeHash) ::
              j.accounts[a].codeHash in after.contracts
  {
    var changes := j.IntoState();
    forall h | h in after.contracts
      ensures h == Keccak(after.contracts[h])
    {
      if h !in db.contracts {
        var a :| a in changes && changes[a].Stores(h, after.contracts[h]);
        assert after.contracts[h] == j.contracts[h];
      }
    }
    forall a | a in j.accounts && !Doomed(j, a) && HasCode(j.accounts[a].codeHash)
      ensures j.accounts[a].codeHash in after.contracts
    {
      var hash := j.accounts[a].codeHash;
      assert CoherentAccount(j.accounts[a], a, j.contracts, db);
      if hash !in db.contracts {
        assert j.accounts[a].status.created;
        assert changes[a].Stores(changes[a].info.codeHash, j.contracts[hash]);
      }
    }
  }

  /** The next transaction starts from a well-formed database again. */
  lemma CommitKeepsWellFormed(j: JournalState, db: DbState, after: DbState)
    requires db.WellFormed() && Coherent(j, db) && CommitOf(j, db, after)
    ensures after.WellFormed()
  {
    CommittedCodes(j, db, after);
  }

  /** What the commit leaves at one address. */
  lemma EntryAfter(j: JournalState, db: DbState, after: DbState, a: Address)
    requires CommitOf(j, db, after)
    ensures a !in j.accounts || j.Finished(j.accounts[a]).Skipped() ==>
              (a in after.accounts <==> a in db.accounts) &&
              (a in db.accounts ==> after.accounts[a] == db.accounts[a])
    ensures a in j.accounts && !j.Finished(j.accounts[a]).Skipped() ==>
              a in after.accounts &&
              after.accounts[a] == Written(if a in db.accounts then db.accounts[a] else EMPTY_ACCOUNT,
                                           j.Finished(j.accounts[a]))
  {
  }

  lemma CommittedAccountAgrees(j: JournalState, db: DbState, after: DbState, a: Address)
    requires Coherent(j, db) && CommitOf(j, db, after) && !Doomed(j, a)
    ensures a in after.accounts <==> a in j.accounts || a in db.accounts
    ensures a in after.accounts ==> PlainOf(EMPTY_JOURNAL, after, a) == PlainOf(j, db, a)
  {
    EntryAfter(j, db, after, a);
    if a in j.accounts {
      assert CoherentAccount(j.accounts[a], a, j.contracts, db);
    }
  }

  lemma CommittedSlotAgrees(j: JournalState, db: DbState, after: DbState, a: Address, k: U256)
    requires Coherent(j, db) && CommitOf(j, db, after) && !Doomed(j, a)
    ensures after.StorageAt(a, k) == SlotValue(j, db, (a, k))
  {
    EntryAfter(j, db, after, a);
    if a in j.accounts {
      assert CoherentAccount(j.accounts[a], a, j.contracts, db);
    }
  }

  lemma CommittedHashStored(j: JournalState, db: DbState, after: DbState, a: Address)
    requires db.WellFormed() && Coherent(j, db) && CommitOf(j, db, after)
    requires a in after.accounts && HasCode(after.accounts[a].codeHash)
    ensures after.accounts[a].codeHash in after.contracts
  {
    CommitKeepsWellFormed(j, db, after);
  }

  lemma CommittedCodeAgrees(j: JournalState, db: DbState, after: DbState, a: Address)
    requires db.WellFormed() && Coherent(j, db) && CommitOf(j, db, after) && !Doomed(j, a)
    ensures EMPTY_JOURNAL.Code(Some(after), a) == j.Code(Some(db), a)
  {
    CommittedAccountAgrees(j, db, after, a);
    if a in after.accounts {
      var hash := after.accounts[a].codeHash;
      if HasCode(hash) {
        CommittedHashStored(j, db, after, a);
        SameCode(j, db, after, hash);
      }
    }
  }

  lemma SlotAnswersAgree(j: JournalState, db: DbState, after: DbState, a: Address, k: U256)
    requires Coherent(j, db) && CommitOf(j, db, after) && !Doomed(j, a)
    ensures AnswerOf(EMPTY_JOURNAL, Some(after), ReadStorage(a, k)) == AnswerOf(j, Some(db), ReadStorage(a, k))
  {
    CommittedAccountAgrees(j, db, after, a);
    CommittedSlotAgrees(j, db, after, a, k);
  }

  lemma AccountAnswersAgree(j: JournalState, db: DbState, after: DbState, a: Address)
    requires Coherent(j, db) && CommitOf(j, db, after) && !Doomed(j, a)
    ensures AnswerOf(EMPTY_JOURNAL, Some(after), GetAccount(a)) == AnswerOf(j, Some(db), GetAccount(a))
  {
    CommittedAccountAgrees(j, db, after, a);
  }

  /**
   After the commit the database alone shows the journal's view at every address, except where
   an account was created and destroyed in the same transaction.
   */
  lemma CommitRealisesView(j: JournalState, db: DbState, after: DbState, a: Address)
    requires db.WellFormed() && Coherent(j, db) && CommitOf(j, db, after) && !Doomed(j, a)
    ensures AgreeAt(j, db, after, a)
  {
    AccountAnswersAgree(j, db, after, a);
    CommittedCodeAgrees(j, db, after, a);
    forall k: U256
      ensures AnswerOf(EMPTY_JOURNAL, Some(after), ReadStorage(a, k)) == AnswerOf(j, Some(db), ReadStorage(a, k))
    {
      SlotAnswersAgree(j, db, after, a, k);
    }
  }

  /** Where an account was created and destroyed in the same transaction, nothing is written. */
  lemma CommitSkipsDoomed(j: JournalState, db: DbState, after: DbState, a: Address)
    requires CommitOf(j, db, after) && Doomed(j, a)
    ensures a in after.accounts <==> a in db.accounts
    ensures a in db.accounts ==> after.accounts[a] == db.accounts[a]
  {
    EntryAfter(j, db, after, a);
  }

  lemma SameCode(j: JournalState, db: DbState, after: DbState, hash: Hash)
    requires db.WellFormed() && Coherent(j, db) && CommitOf(j, db, after)
    requires hash in after.contracts
    ensures j.CodeOf(Some(db), hash) == after.CodeByHash(hash)
  {
    CommittedCodes(j, db, after);
    if hash !in db.contracts {
      var a :| a in j.IntoState() && j.IntoState()[a].Stores(hash, after.contracts[hash]);
    }
  }

  /** Whatever order the accounts are visited in, the commit leaves the same database. */
  lemma OrderDoesNotMatter(j: JournalState, db: DbState, one: DbState, other: DbState)
    requires db.WellFormed() && Coherent(j, db)
    requires CommitOf(j, db, one) && CommitOf(j, db, other)
    ensures one == other
  {
    CommittedCodes(j, db, one);
    CommittedCodes(j, db, other);
    ContractsIncluded(j, db, one, other);
    ContractsIncluded(j, db, other, one);
    assert one.contracts == other.contracts;
  }

  lemma ContractsIncluded(j: JournalState, db: DbState, one: DbState, other: DbState)
    requires CommitOf(j, db, one) && CommitOf(j, db, other)
    ensures one.contracts.Keys <= other.contracts.Keys
  {
    var changes := j.IntoState();
    forall h | h in one.contracts && h !in db.contracts
      ensures h in other.contracts
    {
      var a :| a in changes && changes[a].Stores(h, one.contracts[h]);
    }
  }

  /** The end of a transaction: the journal's state is committed to the database it came from. */
  method Finish(journal: Journal, db: Db)
    requires journal.db == db
    requires db.State().WellFormed() && Coherent(journal.State(), db.State())
    modifies db
    ensures CommitOf(old(journal.State()), old(db.State()), db.State())
    ensures db.State().WellFormed()
    ensures forall a: Address | !Doomed(old(journal.State()), a) ::
              AgreeAt(old(journal.State()), old(db.State()), db.State(), a)
  {
    ghost var j, before := journal.State(), db.State();
    db.Commit(JournalState(journal.accounts, journal.contracts, journal.blockHashes).IntoState());
    CommitKeepsWellFormed(j, before, db.State());
    forall a: Address | !Doomed(j, a)
      ensures AgreeAt(j, before, db.State(), a)
    {
      CommitRealisesView(j, before, db.State(), a);
    }
  }
}
