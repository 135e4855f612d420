/** The writer-preferring readers-writer lock of blockchain/app.py (_ReadWriteLock) as a step
    system. A step is what one thread does between taking the condition's mutex and giving
    it back, by waiting or by leaving; any number of threads step in any order. */
module ReadWriteLocks {

  type Thread = nat

  /** Where a thread is; a waiting thread has or has not been notified since it last looked. */
  datatype Phase = Outside | ReadWaiting(notified: bool) | Reading | WriteWaiting(notified: bool) | Writing

  type Threads = map<Thread, Phase>

  datatype State = State(readers: int, writer: bool, waitingWriters: int, threads: Threads)

  datatype Action =
    | AcquireRead(t: Thread)
    | AcquireWrite(t: Thread)
    | Wake(t: Thread)
    | ReleaseRead(t: Thread)
    | ReleaseWrite(t: Thread)
    | Interrupt(t: Thread)

  function PhaseOf(threads: Threads, t: Thread): Phase {
    if t in threads then threads[t] else Outside
  }

  /** notify_all. */
  function NotifyAll(threads: Threads): Threads {
    map t | t in threads ::
      match threads[t]
      case ReadWaiting(_) => ReadWaiting(true)
      case WriteWaiting(_) => WriteWaiting(true)
      case other => other
  }

  /** One test of acquire_read's loop condition and what follows. */
  function LookToRead(s: State, t: Thread): State {
    if s.writer || s.waitingWriters != 0 then s.(threads := s.threads[t := ReadWaiting(false)])
    else s.(readers := s.readers + 1, threads := s.threads[t := Reading])
  }

  /** One test of acquire_write's loop condition and what follows; t is already counted. */
  function LookToWrite(s: State, t: Thread): State {
    if s.writer || s.readers != 0 then s.(threads := s.threads[t := WriteWaiting(false)])
    else s.(waitingWriters := s.waitingWriters - 1, writer := true, threads := s.threads[t := Writing])
  }

  function LeaveRead(s: State, t: Thread): State {
    var left := s.threads[t := Outside];
    s.(readers := s.readers - 1, threads := if s.readers - 1 == 0 then NotifyAll(left) else left)
  }

  function LeaveWrite(s: State, t: Thread): State {
    s.(writer := false, threads := NotifyAll(s.threads[t := Outside]))
  }

  /** An exception out of wait: a writer's finally clause takes it off the count. */
  function GiveUp(s: State, t: Thread): State {
    s.(waitingWriters := if PhaseOf(s.threads, t).WriteWaiting? then s.waitingWriters - 1 else s.waitingWriters,
       threads := s.threads[t := Outside])
  }

  /** Whether the thread is where the action can happen. Waking needs no notification. */
  predicate Possible(s: State, a: Action) {
    match a
    case AcquireRead(t) => PhaseOf(s.threads, t).Outside?
    case AcquireWrite(t) => PhaseOf(s.threads, t).Outside?
    case Wake(t) => PhaseOf(s.threads, t).ReadWaiting? || PhaseOf(s.threads, t).WriteWaiting?
    case ReleaseRead(t) => PhaseOf(s.threads, t).Reading?
    case ReleaseWrite(t) => PhaseOf(s.threads, t).Writing?
    case Interrupt(t) => PhaseOf(s.threads, t).ReadWaiting? || PhaseOf(s.threads, t).WriteWaiting?
  }

  function Step(s: State, a: Action): State
    requires Possible(s, a)
  {
    match a
    case AcquireRead(t) => LookToRead(s, t)
    case AcquireWrite(t) => LookToWrite(s.(waitingWriters := s.waitingWriters + 1), t)
    case Wake(t) => if PhaseOf(s.threads, t).ReadWaiting? then LookToRead(s, t) else LookToWrite(s, t)
    case ReleaseRead(t) => LeaveRead(s, t)
    case ReleaseWrite(t) => LeaveWrite(s, t)
    case Interrupt(t) => GiveUp(s, t)
  }

  // -------------------------------------------------------------- invariant

  function Readers(threads: Threads): set<Thread> {
    set t | t in threads && threads[t].Reading?
  }

  function Writers(threads: Threads): set<Thread> {
    set t | t in threads && threads[t].Writing?
  }

  function QueuedWriters(threads: Threads): set<Thread> {
    set t | t in threads && threads[t].WriteWaiting?
  }

  /** The lock's three fields count what the threads are doing, and nobody shares with a writer. */
  predicate Inv(s: State) {
    && s.readers == |Readers(s.threads)|
    && |Writers(s.threads)| == (if s.writer then 1 else 0)
    && s.waitingWriters == |QueuedWriters(s.threads)|
    && (s.writer ==> s.readers == 0)
  }

  predicate Free(s: State) {
    !s.writer && s.readers == 0
  }

  /** Whenever the lock is free, every waiter that could take it has been notified. */
  predicate Awake(s: State) {
    Free(s) ==>
      && (forall t :: t in s.threads && s.threads[t].WriteWaiting? ==> s.threads[t].notified)
      && (s.waitingWriters == 0 ==> forall t :: t in s.threads && s.threads[t].ReadWaiting? ==> s.threads[t].notified)
  }

  lemma NotifyKeepsSets(threads: Threads)
    ensures Readers(NotifyAll(threads)) == Readers(threads)
    ensures Writers(NotifyAll(threads)) == Writers(threads)
    ensures QueuedWriters(NotifyAll(threads)) == QueuedWriters(threads)
  {}

  lemma MoveSets(threads: Threads, t: Thread, to: Phase)
    ensures Readers(threads[t := to]) == if to.Reading? then Readers(threads) + {t} else Readers(threads) - {t}
    ensures Writers(threads[t := to]) == if to.Writing? then Writers(threads) + {t} else Writers(threads) - {t}
    ensures QueuedWriters(threads[t := to]) ==
              if to.WriteWaiting? then QueuedWriters(threads) + {t} else QueuedWriters(threads) - {t}
  {}

  /** How a move changes the three counts. */
  lemma MoveCounts(threads: Threads, t: Thread, to: Phase)
    ensures var from := PhaseOf(threads, t);
            && |Readers(threads[t := to])| ==
                 |Readers(threads)| + (if to.Reading? then 1 else 0) - (if from.Reading? then 1 else 0)
            && |Writers(threads[t := to])| ==
                 |Writers(threads)| + (if to.Writing? then 1 else 0) - (if from.Writing? then 1 else 0)
            && |QueuedWriters(threads[t := to])| ==
               |QueuedWriters(threads)| + (if to.WriteWaiting? then 1 else 0) - (if from.WriteWaiting? then 1 else 0)
  {
    MoveSets(threads, t, to);
    assert t in Readers(threads) <==> PhaseOf(threads, t).Reading?;
    assert t in Writers(threads) <==> PhaseOf(threads, t).Writing?;
    assert t in QueuedWriters(threads) <==> PhaseOf(threads, t).WriteWaiting?;
  }

  /** A thread that reads, writes or queues to write shows in the lock's fields. */
  lemma Shows(s: State, t: Thread)
    requires Inv(s)
    ensures PhaseOf(s.threads, t).Reading? ==> s.readers > 0
    ensures PhaseOf(s.threads, t).Writing? ==> s.writer
    ensures PhaseOf(s.threads, t).WriteWaiting? ==> s.waitingWriters > 0
  {
    assert PhaseOf(s.threads, t).Reading? ==> t in Readers(s.threads);
    assert PhaseOf(s.threads, t).Writing? ==> t in Writers(s.threads);
    assert PhaseOf(s.threads, t).WriteWaiting? ==> t in QueuedWriters(s.threads);
  }

  /** Every step keeps the counts right and the lock exclusive, interrupts included. */
  lemma StepKeepsInv(s: State, a: Action)
    requires Inv(s) && Possible(s, a)
    ensures Inv(Step(s, a))
  {
    MoveCounts(s.threads, a.t, Step(s, a).threads[a.t]);
    MoveCounts(s.threads, a.t, Outside);
    NotifyKeepsSets(s.threads[a.t := Outside]);
  }

  /** An interrupted writer is the one thing that can lose a wakeup: exactly when it was the
      last one queued on a free lock and some reader went back to waiting because of it. */
  lemma InterruptKeepsAwakeExactly(s: State, t: Thread)
    requires Inv(s) && Awake(s) && Possible(s, Interrupt(t))
    ensures Awake(Step(s, Interrupt(t))) <==>
              !(PhaseOf(s.threads, t).WriteWaiting? && Free(s) && s.waitingWriters == 1 &&
                exists u :: u in s.threads && s.threads[u] == ReadWaiting(false))
  {
    var s' := Step(s, Interrupt(t));
    forall u | u != t ensures u in s'.threads <==> u in s.threads {}
    if u :| u in s.threads && s.threads[u] == ReadWaiting(false) {
      if PhaseOf(s.threads, t).WriteWaiting? && Free(s) && s.waitingWriters == 1 {
        assert s'.threads[u] == ReadWaiting(false);
      }
    }
  }

  predicate InterruptsWriter(s: State, a: Action) {
    a.Interrupt? && PhaseOf(s.threads, a.t).WriteWaiting?
  }

  lemma StepKeepsAwake(s: State, a: Action)
    requires Inv(s) && Awake(s) && Possible(s, a) && !InterruptsWriter(s, a)
    ensures Awake(Step(s, a))
  {}

  // ------------------------------------------------------------------- runs

  const INITIAL: State := State(0, false, 0, map[])

  /** A run: each action possible where it happens. */
  predicate Runs(s: State, actions: seq<Action>)
    decreases |actions|
  {
    actions == [] || (Possible(s, actions[0]) && Runs(Step(s, actions[0]), actions[1..]))
  }

  function After(s: State, actions: seq<Action>): State
    requires Runs(s, actions)
    decreases |actions|
  {
    if actions == [] then s else After(Step(s, actions[0]), actions[1..])
  }

  predicate NoWriterInterrupted(s: State, actions: seq<Action>)
    requires Runs(s, actions)
    decreases |actions|
  {
    actions == [] || (!InterruptsWriter(s, actions[0]) && NoWriterInterrupted(Step(s, actions[0]), actions[1..]))
  }

  lemma {:induction false} RunKeepsInv(s: State, actions: seq<Action>)
    requires Inv(s) && Runs(s, actions)
    ensures Inv(After(s, actions))
    ensures Awake(s) && NoWriterInterrupted(s, actions) ==> Awake(After(s, actions))
    decreases |actions|
  {
    if actions != [] {
      var a := actions[0];
      StepKeepsInv(s, a);
      if Awake(s) && !InterruptsWriter(s, a) {
        StepKeepsAwake(s, a);
      }
      RunKeepsInv(Step(s, a), actions[1..]);
    }
  }

  lemma TwoMembers(threads: set<Thread>, t: Thread, u: Thread)
    requires t in threads && u in threads && t != u
    ensures |threads| >= 2
  {
    assert |threads - {t}| == |threads| - 1 && u in threads - {t};
  }

  /** In every interleaving, a writer is alone: no second writer and no reader beside it. */
  lemma {:induction false} MutualExclusion(actions: seq<Action>, t: Thread, u: Thread)
    requires Runs(INITIAL, actions) && t != u
    requires PhaseOf(After(INITIAL, actions).threads, t).Writing?
    ensures !PhaseOf(After(INITIAL, actions).threads, u).Writing?
            && !PhaseOf(After(INITIAL, actions).threads, u).Reading?
  {
    assert Inv(INITIAL);
    RunKeepsInv(INITIAL, actions);
    var s := After(INITIAL, actions);
    Shows(s, t);
    Shows(s, u);
    if PhaseOf(s.threads, u).Writing? {
      TwoMembers(Writers(s.threads), t, u);
    }
  }

  /** Writers are preferred: while one is queued, no thread becomes a reader. */
  lemma WriterPreference(s: State, a: Action, t: Thread)
    requires Inv(s) && Possible(s, a)
    requires !PhaseOf(s.threads, t).Reading? && PhaseOf(Step(s, a).threads, t).Reading?
    ensures forall u :: !PhaseOf(s.threads, u).WriteWaiting? && !PhaseOf(s.threads, u).Writing?
  {
    forall u ensures !PhaseOf(s.threads, u).WriteWaiting? && !PhaseOf(s.threads, u).Writing? {
      Shows(s, u);
    }
  }

  // ------------------------------------------------------------ who gets in

  /** Nobody writes or queues to write. */
  ghost predicate NoWriterAbout(threads: Threads) {
    forall u :: !PhaseOf(threads, u).Writing? && !PhaseOf(threads, u).WriteWaiting?
  }

  /** Nobody reads or writes. */
  ghost predicate NobodyInside(threads: Threads) {
    forall u :: !PhaseOf(threads, u).Reading? && !PhaseOf(threads, u).Writing?
  }

  lemma NoWriterShows(s: State)
    requires Inv(s)
    ensures NoWriterAbout(s.threads) <==> !s.writer && s.waitingWriters == 0
  {
    forall u ensures PhaseOf(s.threads, u).Writing? || PhaseOf(s.threads, u).WriteWaiting? ==>
        s.writer || s.waitingWriters != 0 {
      Shows(s, u);
    }
    if s.writer || s.waitingWriters != 0 {
      assert Writers(s.threads) + QueuedWriters(s.threads) != {};
      var u :| u in Writers(s.threads) + QueuedWriters(s.threads);
      assert PhaseOf(s.threads, u).Writing? || PhaseOf(s.threads, u).WriteWaiting?;
    }
  }

  lemma NobodyShows(s: State)
    requires Inv(s)
    ensures NobodyInside(s.threads) <==> Free(s)
  {
    FreeMeansUnheld(s);
    assert forall u :: Holds(s, u) <==> PhaseOf(s.threads, u).Reading? || PhaseOf(s.threads, u).Writing?;
  }

  /** A reader that looks gets in exactly when nobody writes or queues to write, however many
      others are reading; otherwise it waits for the next notification. */
  lemma ReaderEntersExactly(s: State, a: Action)
    requires Inv(s) && Possible(s, a)
    requires a.AcquireRead? || (a.Wake? && PhaseOf(s.threads, a.t).ReadWaiting?)
    ensures PhaseOf(Step(s, a).threads, a.t) == if NoWriterAbout(s.threads) then Reading else ReadWaiting(false)
  {
    NoWriterShows(s);
  }

  /** A writer that looks gets in exactly when nobody reads or writes, whoever else is queued. */
  lemma WriterEntersExactly(s: State, a: Action)
    requires Inv(s) && Possible(s, a)
    requires a.AcquireWrite? || (a.Wake? && PhaseOf(s.threads, a.t).WriteWaiting?)
    ensures PhaseOf(Step(s, a).threads, a.t) == if NobodyInside(s.threads) then Writing else WriteWaiting(false)
  {
    NobodyShows(s);
  }

  /** Releases and interrupts take their thread out of the lock. */
  lemma LeaversAreOutside(s: State, a: Action)
    requires Possible(s, a) && (a.ReleaseRead? || a.ReleaseWrite? || a.Interrupt?)
    ensures PhaseOf(Step(s, a).threads, a.t).Outside?
  {}

  /** Where a thread is, notifications aside. */
  function Place(phase: Phase): Phase {
    match phase
    case ReadWaiting(_) => ReadWaiting(false)
    case WriteWaiting(_) => WriteWaiting(false)
    case other => other
  }

  /** A step moves the thread that takes it and no other. */
  lemma OthersStay(s: State, a: Action, u: Thread)
    requires Possible(s, a) && u != a.t
    ensures Place(PhaseOf(Step(s, a).threads, u)) == Place(PhaseOf(s.threads, u))
  {}

  /** Threads first to last - 1 ask to read, one after the other. */
  function Arrivals(first: nat, last: nat): seq<Action>
    decreases last - first
  {
    if first >= last then [] else [AcquireRead(first)] + Arrivals(first + 1, last)
  }

  lemma {:induction false} ArriveTogether(s: State, first: nat, last: nat)
    requires Inv(s) && NoWriterAbout(s.threads) && forall t :: t >= first ==> PhaseOf(s.threads, t).Outside?
    requires first <= last && forall t :: 0 <= t < first ==> PhaseOf(s.threads, t).Reading?
    ensures Runs(s, Arrivals(first, last))
    ensures forall t :: 0 <= t < last ==> PhaseOf(After(s, Arrivals(first, last)).threads, t).Reading?
    decreases last - first
  {
    if first < last {
      var a, rest := AcquireRead(first), Arrivals(first + 1, last);
      var next := Step(s, a);
      ReaderEntersExactly(s, a);
      StepKeepsInv(s, a);
      forall u ensures u != first ==> PhaseOf(next.threads, u) == PhaseOf(s.threads, u) {}
      ArriveTogether(next, first + 1, last);
      assert ([a] + rest)[1..] == rest;
    }
  }

  /** Readers share: any number of threads can be reading at once. */
  lemma {:induction false} ReadersShare(n: nat)
    ensures Runs(INITIAL, Arrivals(0, n))
    ensures forall t :: 0 <= t < n ==> PhaseOf(After(INITIAL, Arrivals(0, n)).threads, t).Reading?
  {
    assert Inv(INITIAL);
    ArriveTogether(INITIAL, 0, n);
  }

  predicate AlwaysQueued(s: State, actions: seq<Action>, t: Thread)
    requires Runs(s, actions)
    decreases |actions|
  {
    PhaseOf(s.threads, t).WriteWaiting? && (actions == [] || AlwaysQueued(Step(s, actions[0]), actions[1..], t))
  }

  /** So readers cannot starve a writer: for as long as it is queued, readers only leave. */
  lemma {:induction false} ReadersOnlyLeave(s: State, actions: seq<Action>, t: Thread)
    requires Inv(s) && Runs(s, actions) && AlwaysQueued(s, actions, t)
    ensures Readers(After(s, actions).threads) <= Readers(s.threads)
    decreases |actions|
  {
    if actions != [] {
      var s' := Step(s, actions[0]);
      forall u | u in Readers(s'.threads) ensures u in Readers(s.threads) {
        if !PhaseOf(s.threads, u).Reading? {
          WriterPreference(s, actions[0], u);
        }
      }
      StepKeepsInv(s, actions[0]);
      ReadersOnlyLeave(s', actions[1..], t);
    }
  }

  predicate Waits(s: State, t: Thread) {
    PhaseOf(s.threads, t).ReadWaiting? || PhaseOf(s.threads, t).WriteWaiting?
  }

  predicate Holds(s: State, t: Thread) {
    PhaseOf(s.threads, t).Reading? || PhaseOf(s.threads, t).Writing?
  }

  /** Has been notified, and will hold the lock as soon as it wakes. */
  predicate CanProceed(s: State, t: Thread) {
    Waits(s, t) && PhaseOf(s.threads, t).notified && Holds(Step(s, Wake(t)), t)
  }

  lemma FreeMeansUnheld(s: State)
    requires Inv(s)
    ensures Free(s) <==> forall t :: !Holds(s, t)
  {
    forall t | Holds(s, t) ensures !Free(s) {
      assert t in Readers(s.threads) || t in Writers(s.threads);
    }
    if !Free(s) {
      assert Readers(s.threads) + Writers(s.threads) != {};
      var t :| t in Readers(s.threads) + Writers(s.threads);
      assert Holds(s, t);
    }
  }

  /** No wakeup is lost: in every interleaving in which no queued writer is interrupted, if
      nobody holds the lock while threads wait, some waiter has been notified and can proceed. */
  lemma {:induction false} NoLostWakeup(actions: seq<Action>, t: Thread)
    requires Runs(INITIAL, actions) && NoWriterInterrupted(INITIAL, actions)
    requires Waits(After(INITIAL, actions), t) && forall u :: !Holds(After(INITIAL, actions), u)
    ensures exists u :: CanProceed(After(INITIAL, actions), u)
  {
    assert Inv(INITIAL) && Awake(INITIAL);
    RunKeepsInv(INITIAL, actions);
    var s := After(INITIAL, actions);
    FreeMeansUnheld(s);
    if s.waitingWriters == 0 {
      assert t !in QueuedWriters(s.threads);
      assert CanProceed(s, t);
    } else {
      var u :| u in QueuedWriters(s.threads);
      assert CanProceed(s, u);
    }
  }

  /** A run that loses one: reader 0 holds, writer 1 queues, reader 2 queues behind it; 0 leaves,
      2 looks first and waits again, then 1 is interrupted. */
  lemma InterruptedWriterStrandsReader()
    ensures var actions := [AcquireRead(0), AcquireWrite(1), AcquireRead(2), ReleaseRead(0), Wake(2), Interrupt(1)];
            && Runs(INITIAL, actions)
            && var s := After(INITIAL, actions);
               Waits(s, 2) && (forall u :: !Holds(s, u)) && (forall u :: !CanProceed(s, u))
  {}

  // -------------------------------------------------------------- the object

  class ReadWriteLock {
    var readers: int
    var writer: bool
    var waitingWriters: int
    /** What the condition variable and the callers know: who is where. */
    ghost var threads: Threads

    ghost function Now(): State
      reads this
    {
      State(readers, writer, waitingWriters, threads)
    }

    constructor ()
      ensures Now() == INITIAL
    {
      readers, writer, waitingWriters, threads := 0, false, 0, map[];
    }

    /** acquire_read from the loop's test on, up to the return or the next wait. */
    method LookForRead(ghost t: Thread) returns (entered: bool)
      requires Inv(Now())
               && (Possible(Now(), AcquireRead(t)) || (Possible(Now(), Wake(t)) && PhaseOf(threads, t).ReadWaiting?))
      modifies this
      ensures Inv(Now())
              && Now() == Step(old(Now()), if old(PhaseOf(threads, t)).Outside? then AcquireRead(t) else Wake(t))
      ensures PhaseOf(threads, t) == if entered then Reading else ReadWaiting(false)
      ensures entered <==> old(NoWriterAbout(threads))
    {
      ReaderEntersExactly(Now(), if PhaseOf(threads, t).Outside? then AcquireRead(t) else Wake(t));
      StepKeepsInv(Now(), if PhaseOf(threads, t).Outside? then AcquireRead(t) else Wake(t));
      if writer || waitingWriters != 0 {
        threads := threads[t := ReadWaiting(false)];
        return false;
      }
      readers := readers + 1;
      threads := threads[t := Reading];
      return true;
    }

    method ReleaseRead(ghost t: Thread)
      requires Inv(Now()) && Possible(Now(), Action.ReleaseRead(t))
      modifies this
      ensures Inv(Now()) && Now() == Step(old(Now()), Action.ReleaseRead(t))
    {
      StepKeepsInv(Now(), Action.ReleaseRead(t));
      readers := readers - 1;
      threads := threads[t := Outside];
      if readers == 0 {
        threads := NotifyAll(threads);
      }
    }

    /** acquire_write from its start, up to the return or the first wait. */
    method AcquireWrite(ghost t: Thread) returns (entered: bool)
      requires Inv(Now()) && Possible(Now(), Action.AcquireWrite(t))
      modifies this
      ensures Inv(Now()) && Now() == Step(old(Now()), Action.AcquireWrite(t))
      ensures PhaseOf(threads, t) == if entered then Writing else WriteWaiting(false)
      ensures entered <==> old(NobodyInside(threads))
    {
      WriterEntersExactly(Now(), Action.AcquireWrite(t));
      StepKeepsInv(Now(), Action.AcquireWrite(t));
      waitingWriters := waitingWriters + 1;
      entered := LookForWrite(t);
    }

    /** acquire_write from the loop's test on, with t counted as waiting. */
    method LookForWrite(ghost t: Thread) returns (entered: bool)
      modifies this
      ensures Now() == LookToWrite(old(Now()), t)
      ensures entered <==> PhaseOf(threads, t).Writing?
    {
      if writer || readers != 0 {
        threads := threads[t := WriteWaiting(false)];
        return false;
      }
      waitingWriters := waitingWriters - 1;
      writer := true;
      threads := threads[t := Writing];
      return true;
    }

    /** acquire_write when wait returns. */
    method WakeWriter(ghost t: Thread) returns (entered: bool)
      requires Inv(Now()) && PhaseOf(threads, t).WriteWaiting?
      modifies this
      ensures Inv(Now()) && Now() == Step(old(Now()), Wake(t))
      ensures PhaseOf(threads, t) == if entered then Writing else WriteWaiting(false)
      ensures entered <==> old(NobodyInside(threads))
    {
      WriterEntersExactly(Now(), Wake(t));
      StepKeepsInv(Now(), Wake(t));
      entered := LookForWrite(t);
    }

    /** acquire_write when wait raises: only the finally clause runs. */
    method AbandonWrite(ghost t: Thread)
      requires Inv(Now()) && PhaseOf(threads, t).WriteWaiting?
      modifies this
      ensures Inv(Now()) && Now() == Step(old(Now()), Interrupt(t))
    {
      StepKeepsInv(Now(), Interrupt(t));
      waitingWriters := waitingWriters - 1;
      threads := threads[t := Outside];
    }

    method ReleaseWrite(ghost t: Thread)
      requires Inv(Now()) && Possible(Now(), Action.ReleaseWrite(t))
      modifies this
      ensures Inv(Now()) && Now() == Step(old(Now()), Action.ReleaseWrite(t))
    {
      StepKeepsInv(Now(), Action.ReleaseWrite(t));
      writer := false;
      threads := NotifyAll(threads[t := Outside]);
    }
  }
}
