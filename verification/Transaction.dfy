/** A whole transaction: any call tree from a new journal, then the commit. */
module Transactions {
  import opened Primitives
  import opened Database
  import opened Journaling
  import opened CacheRefinement
  import opened PlainRuns
  import opened PlainSteps
  import opened WriteBack
  import P = PlainFrames
  import S = Syscalls

  /** The database alone answers every question about an address as the world does. */
  ghost predicate ShowsAt(db: DbState, w: World, a: Address) {
    && AnswerOf(EMPTY_JOURNAL, Some(db), GetAccount(a)) == PlainAnswer(w, GetAccount(a))
    && AnswerOf(EMPTY_JOURNAL, Some(db), CodeByAddress(a)) == PlainAnswer(w, CodeByAddress(a))
    && forall k: U256 :: AnswerOf(EMPTY_JOURNAL, Some(db), ReadStorage(a, k)) == PlainAnswer(w, ReadStorage(a, k))
  }

  /** The state a transaction's first frame starts from. */
  function NewFrame(): S.FrameState {
    S.FrameState(EMPTY_JOURNAL, 0, S.Trail([], false))
  }

  /** The journal a transaction ends with. */
  function LastJournal(script: S.Script, ctx: S.Context, db: DbState): JournalState {
    S.Run(script, ctx, NewFrame(), db).state.journal
  }

  /** The same script run on plain maps, without any journal, from the world the database shows. */
  ghost function PlainOutcome(script: S.Script, ctx: S.Context, db: DbState): P.PlainResult {
    var start := View(EMPTY_JOURNAL, db);
    P.Run(script, ctx, P.PlainState(P.Plain(start, {}, {}), 0, S.Trail([], false)), start)
  }

  /** The world it leads to. */
  ghost function LastWorld(script: S.Script, ctx: S.Context, db: DbState): World {
    PlainOutcome(script, ctx, db).state.plain.world
  }

  /** The addresses it both created and destroyed. */
  ghost function DoomedBy(script: S.Script, ctx: S.Context, db: DbState): set<Address> {
    var p := PlainOutcome(script, ctx, db).state.plain;
    p.created * p.destroyed
  }

  /** A transaction ends as the same script on plain maps: exit, gas used, refund and frames entered. */
  lemma TransactionIsPlain(script: S.Script, ctx: S.Context, db: DbState)
    requires db.WellFormed()
    ensures var result, plain := S.Run(script, ctx, NewFrame(), db), PlainOutcome(script, ctx, db);
            && result.exit == plain.exit && result.gasUsed == plain.gasUsed && result.refunded == plain.refunded
            && result.state.trail == plain.state.trail
    ensures var j := LastJournal(script, ctx, db);
            && Coherent(j, db) && View(j, db) == LastWorld(script, ctx, db)
            && forall a :: Doomed(j, a) <==> a in DoomedBy(script, ctx, db)
  {
    NewJournalIsCoherent(db);
    assert Shows(EMPTY_JOURNAL, db, P.Plain(View(EMPTY_JOURNAL, db), {}, {}));
    RunIsPlain(script, ctx, NewFrame(), db, P.Plain(View(EMPTY_JOURNAL, db), {}, {}));
  }

  /**
   After any call tree and the commit, in whatever order it visits the accounts, the database shows the world
   that running the same script on plain maps leads to, at every address not created and destroyed at once.
   */
  lemma TransactionRealisesWorld(script: S.Script, ctx: S.Context, db: DbState, after: DbState, a: Address)
    requires db.WellFormed() && CommitOf(LastJournal(script, ctx, db), db, after)
    requires a !in DoomedBy(script, ctx, db)
    ensures after.WellFormed() && ShowsAt(after, LastWorld(script, ctx, db), a)
  {
    var j := LastJournal(script, ctx, db);
    TransactionIsPlain(script, ctx, db);
    CommitKeepsWellFormed(j, db, after);
    CommitRealisesView(j, db, after, a);
    AnswersAgree(j, db, GetAccount(a));
    AnswersAgree(j, db, CodeByAddress(a));
    forall k: U256
      ensures AnswerOf(EMPTY_JOURNAL, Some(after), ReadStorage(a, k)) ==
              PlainAnswer(LastWorld(script, ctx, db), ReadStorage(a, k))
    {
      AnswersAgree(j, db, ReadStorage(a, k));
    }
  }

  /** Two commits of the same transaction leave the same database. */
  lemma TransactionIsDeterministic(script: S.Script, ctx: S.Context, db: DbState, one: DbState, other: DbState)
    requires db.WellFormed()
    requires CommitOf(LastJournal(script, ctx, db), db, one) && CommitOf(LastJournal(script, ctx, db), db, other)
    ensures one == other
  {
    TransactionIsPlain(script, ctx, db);
    OrderDoesNotMatter(LastJournal(script, ctx, db), db, one, other);
  }
}
