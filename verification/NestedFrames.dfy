/**
 Journals of nested call frames. The database handle travels with the innermost frame, and
 the whole stack of journals behaves like a stack of plain worlds.
 */
module NestedFrames {
  import opened Primitives
  import opened Database
  import opened Journaling
  import opened CacheRefinement

  datatype FrameJournal = FrameJournal(state: JournalState, base: Option<DbState>)

  datatype List<T> = Nil | Cons(head: T, tail: List<T>) {
    function Length(): nat {
      if Nil? then 0 else 1 + tail.Length()
    }

    function Drop(n: nat): List<T>
      requires n <= Length()
    {
      if n == 0 then this else tail.Drop(n - 1)
    }
  }

  /** The running frame and the frames waiting for it, the nearest caller first. */
  datatype Stack<T> = Stack(top: T, callers: List<T>)

  /** What can happen next: an operation of the innermost frame, a call, or a return. */
  datatype Step = Do(op: Op) | Enter | LeaveSuccessful | LeaveReverted

  ghost predicate Enabled(s: Stack<FrameJournal>, db: DbState, step: Step) {
    match step
    case Do(op) => Admissible(s.top.state, db, op)
    case Enter => true
    case _ => s.callers.Cons?
  }

  /** The journals after a step. A return with no caller to return to changes nothing. */
  ghost function Next(s: Stack<FrameJournal>, step: Step): Stack<FrameJournal> {
    match step
    case Do(op) => s.(top := s.top.(state := Apply(s.top.state, s.top.base, op)))
    case Enter => Stack(s.top, Cons(s.top.(base := None), s.callers))
    case LeaveSuccessful => if s.callers.Nil? then s else Stack(s.top, s.callers.tail)
    case LeaveReverted =>
      if s.callers.Nil? then s else Stack(s.callers.head.(base := s.top.base), s.callers.tail)
  }

  /** The same step on plain worlds: a call takes a snapshot, a failed return goes back to it. */
  ghost function PlainNext(s: Stack<World>, step: Step): Stack<World> {
    match step
    case Do(op) => s.(top := PlainApply(s.top, op))
    case Enter => Stack(s.top, Cons(s.top, s.callers))
    case LeaveSuccessful => if s.callers.Nil? then s else Stack(s.top, s.callers.tail)
    case LeaveReverted => if s.callers.Nil? then s else Stack(s.callers.head, s.callers.tail)
  }

  ghost predicate Waiting(callers: List<FrameJournal>, worlds: List<World>, db: DbState) {
    match callers
    case Nil => worlds.Nil?
    case Cons(caller, rest) =>
      && worlds.Cons?
      && caller.base == None
      && Coherent(caller.state, db)
      && View(caller.state, db) == worlds.head
      && Waiting(rest, worlds.tail, db)
  }

  /**
   Exactly the innermost journal holds the database, every journal is coherent with it, and each
   shows the world of its frame.
   */
  ghost predicate Protocol(s: Stack<FrameJournal>, w: Stack<World>, db: DbState) {
    && s.top.base == Some(db)
    && Coherent(s.top.state, db)
    && View(s.top.state, db) == w.top
    && Waiting(s.callers, w.callers, db)
  }

  lemma StepRefines(s: Stack<FrameJournal>, w: Stack<World>, db: DbState, step: Step)
    requires db.WellFormed() && Protocol(s, w, db) && Enabled(s, db, step)
    ensures Protocol(Next(s, step), PlainNext(w, step), db)
  {
    if step.Do? {
      ApplyCoherent(s.top.state, db, step.op);
      ApplyRefines(s.top.state, db, step.op);
    }
  }

  ghost predicate Runs(s: Stack<FrameJournal>, db: DbState, steps: seq<Step>)
    decreases |steps|
  {
    steps == [] || (Enabled(s, db, steps[0]) && Runs(Next(s, steps[0]), db, steps[1..]))
  }

  ghost function After(s: Stack<FrameJournal>, steps: seq<Step>): Stack<FrameJournal>
    decreases |steps|
  {
    if steps == [] then s else After(Next(s, steps[0]), steps[1..])
  }

  ghost function PlainAfter(w: Stack<World>, steps: seq<Step>): Stack<World>
    decreases |steps|
  {
    if steps == [] then w else PlainAfter(PlainNext(w, steps[0]), steps[1..])
  }

  lemma {:induction false} RunRefines(s: Stack<FrameJournal>, w: Stack<World>, db: DbState, steps: seq<Step>)
    requires db.WellFormed() && Protocol(s, w, db) && Runs(s, db, steps)
    ensures Protocol(After(s, steps), PlainAfter(w, steps), db)
    decreases |steps|
  {
    if steps != [] {
      StepRefines(s, w, db, steps[0]);
      RunRefines(Next(s, steps[0]), PlainNext(w, steps[0]), db, steps[1..]);
    }
  }

  /**
   From a new journal, however the frames nest: the innermost journal alone holds the database,
   the database is the one the run started with, and each journal shows the plain world of its frame.
   */
  lemma TransactionRefines(db: DbState, steps: seq<Step>)
    requires db.WellFormed()
    requires Runs(Stack(FrameJournal(EMPTY_JOURNAL, Some(db)), Nil), db, steps)
    ensures Protocol(After(Stack(FrameJournal(EMPTY_JOURNAL, Some(db)), Nil), steps),
                     PlainAfter(Stack(View(EMPTY_JOURNAL, db), Nil), steps), db)
  {
    NewJournalIsCoherent(db);
    RunRefines(Stack(FrameJournal(EMPTY_JOURNAL, Some(db)), Nil), Stack(View(EMPTY_JOURNAL, db), Nil), db, steps);
  }

  // ----- A call as a whole -----

  /** How many frames deep a step list ends, or None if it returns below where it started. */
  ghost function DepthAfter(steps: seq<Step>, depth: nat): Option<nat>
    decreases |steps|
  {
    if steps == [] then Some(depth)
    else
      match steps[0]
      case Do(_) => DepthAfter(steps[1..], depth)
      case Enter => DepthAfter(steps[1..], depth + 1)
      case _ => if depth == 0 then None else DepthAfter(steps[1..], depth - 1)
  }

  /** Whatever happens above a frame leaves it and its callers alone. */
  lemma {:induction false} CallersKept(s: Stack<FrameJournal>, steps: seq<Step>, depth: nat)
    requires depth <= s.callers.Length() && DepthAfter(steps, depth).Some?
    ensures var after := After(s, steps);
            && DepthAfter(steps, depth).value <= after.callers.Length()
            && after.callers.Drop(DepthAfter(steps, depth).value) == s.callers.Drop(depth)
    decreases |steps|
  {
    if steps != [] {
      var depth' := match steps[0] case Do(_) => depth case Enter => depth + 1 case _ => depth - 1;
      CallersKept(Next(s, steps[0]), steps[1..], depth');
    }
  }

  /**
   If the callee fails the caller's journal is exactly the one it called with; if it succeeds
   the caller's journal is exactly the callee's last one. Either way the handle is back.
   */
  lemma CallReturns(s: Stack<FrameJournal>, w: Stack<World>, db: DbState, body: seq<Step>)
    requires db.WellFormed() && Protocol(s, w, db)
    requires DepthAfter(body, 0) == Some(0) && Runs(Next(s, Enter), db, body)
    ensures var callee := After(Next(s, Enter), body);
            && Next(callee, LeaveReverted) == s
            && Next(callee, LeaveSuccessful) == Stack(FrameJournal(callee.top.state, Some(db)), s.callers)
  {
    StepRefines(s, w, db, Enter);
    RunRefines(Next(s, Enter), PlainNext(w, Enter), db, body);
    CallersKept(Next(s, Enter), body, 0);
  }
}
