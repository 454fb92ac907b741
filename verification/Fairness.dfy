/** Every fair run without losses settles: whatever the schedule, if in each round every thread
    that could take a step takes one, a lexicographic measure falls in each round. */
module Fairness {
  import opened JobQueue
  import opened Machine
  import opened Invariant
  import opened Exactness
  import opened Progress
  import opened Queueing
  import Runs

  datatype Thread = Dispatcher | ResultThread | Monitor | Worker(host: nat)

  /** The event is a step of thread `t` that serves a request already made. */
  ghost predicate Serves(s: System, e: Event, t: Thread) {
    match e
    case Dispatch => t.Dispatcher?
    case ResultTake(_) => t.ResultThread?
    case ResultNext => t.ResultThread?
    case CancelNext => t.Monitor?
    case WorkerTake(f) => f < |s.ledger| && t == Worker(s.ledger[f].host)
    case WorkerDone(f) => f < |s.ledger| && t == Worker(s.ledger[f].host)
    case _ => false
  }

  /** The thread has a step that is enabled. */
  ghost predicate CanMove(s: System, t: Thread)
    requires WellFormed(s)
  {
    exists e :: Enabled(s, e) && Serves(s, e, t)
  }

  /** Nothing is lost and nothing pushed on a full ring; any other step may be taken. */
  ghost predicate Calm(s: System, e: Event) {
    !e.Lose? && (e.SubmitPush? ==> !s.m.IsFull())
  }

  ghost predicate CalmRun(s: System, es: seq<Event>)
    requires WellFormed(s) && Run(s, es)
    decreases |es|
  {
    es != [] ==> Calm(s, es[0]) && (NextWellFormed(s, es[0]); CalmRun(Next(s, es[0]), es[1..]))
  }

  /** Thread `t` takes a step in the run. */
  ghost predicate Moves(s: System, es: seq<Event>, t: Thread)
    requires WellFormed(s) && Run(s, es)
    decreases |es|
  {
    es != [] && (Serves(s, es[0], t) || (NextWellFormed(s, es[0]); Moves(Next(s, es[0]), es[1..], t)))
  }

  /** Thread `t` could move in the state before some step of the run. */
  ghost predicate Could(s: System, es: seq<Event>, t: Thread)
    requires WellFormed(s) && Run(s, es)
    decreases |es|
  {
    CanMove(s, t) || (|es| >= 2 && (NextWellFormed(s, es[0]); Could(Next(s, es[0]), es[1..], t)))
  }

  /** A round: every thread that could move in it does. */
  ghost predicate Round(s: System, es: seq<Event>)
    requires WellFormed(s)
  {
    Run(s, es) && CalmRun(s, es) && forall t :: Could(s, es, t) ==> Moves(s, es, t)
  }

  // ---- the measure

  /** Jobs popped, dispatch stage, work of the messages, return in hand: no step raises these,
      a push no more than the others. */
  ghost function Major(s: System): Measure {
    MeasureOf(s).(queued := -|s.popped|, scan := 0)
  }

  /** What a sweep still keeps the dispatcher or the result thread waiting for. */
  ghost function Lock(s: System): int {
    if s.mon.Sweeping? && (s.d.Idle? || (s.d.Counting? && s.r.Finishing?)) then s.m.hosts + 2 - s.mon.node else 0
  }

  ghost function Minor(s: System): int {
    Scanning(s.d, s.m.hosts)
  }

  ghost predicate Falls(s: System, s': System) {
    || Major(s').Below(Major(s))
    || (Major(s') == Major(s) && Lock(s') < Lock(s))
    || (Major(s') == Major(s) && Lock(s') == Lock(s) && Minor(s') < Minor(s))
  }

  ghost predicate HardWork(e: Event) {
    e.WorkerTake? || e.WorkerDone? || e.ResultTake? || e.ResultNext?
  }

  lemma HardLowers(s: System, e: Event)
    requires Queued(s) && Enabled(s, e) && HardWork(e)
    ensures Major(Next(s, e)).Below(Major(s))
  {
    if e.ResultNext? {
      ResultLowers(s);
    } else {
      WorkerLowers(s, e);
    }
  }

  lemma DispatchMajor(s: System)
    requires Queued(s) && Enabled(s, Dispatch)
    ensures var s' := DispatchStep(s);
            || Major(s').Below(Major(s))
            || (Major(s') == Major(s) && s'.r == s.r && s'.ledger == s.ledger && s'.mon == s.mon
                && ((s.d.Counting? && s'.d.Counting?) || (s.d.Booking? && s'.d.Booking? && Minor(s') < Minor(s))))
  {
    if s.d.Booking? {
      BookingLowers(s);
    }
  }

  lemma EasyMajor(s: System, e: Event)
    requires WellFormed(s) && Enabled(s, e) && Calm(s, e) && !HardWork(e) && !e.Dispatch?
    ensures var s' := Next(s, e);
            && Major(s') == Major(s) && s'.r == s.r && s'.d == s.d
            && s'.m.pcstat == s.m.pcstat && s'.m.hosts == s.m.hosts && s'.m.tail == s.m.tail
            && (!s.m.IsEmpty() ==> !s'.m.IsEmpty())
            && (s.mon.Sweeping? && !e.CancelNext? ==> s'.mon == s.mon)
            && |s'.ledger| == |s.ledger|
            && forall f :: 0 <= f < |s.ledger| ==> (s'.ledger[f].Owed() <==> s.ledger[f].Owed())
  {
    if e.CancelHit? {
      WorkMoves(s.ledger, e.f, s.ledger[e.f].(phase := Cancelled));
    }
  }

  /** No step of a calm run raises the major part. */
  lemma MajorStep(s: System, e: Event)
    requires Queued(s) && NoLoss(s.ledger) && Enabled(s, e) && Calm(s, e)
    ensures Queued(Next(s, e)) && NoLoss(Next(s, e).ledger)
    ensures AtMost(Major(Next(s, e)), Major(s))
    ensures HardWork(e) ==> Major(Next(s, e)) != Major(s)
  {
    QueuedStep(s, e);
    NoLossKept(s, e);
    if e.Dispatch? {
      DispatchMajor(s);
    } else if HardWork(e) {
      HardLowers(s, e);
    } else {
      EasyMajor(s, e);
    }
  }

  lemma NoPushKept(s: System, e: Event)
    requires WellFormed(s) && Enabled(s, e) && !e.SubmitPush?
    ensures Next(s, e).submitted == s.submitted
  {
  }

  lemma {:induction false} QueueKept(s: System, es: seq<Event>)
    requires WellFormed(s) && Run(s, es) && Runs.NoPush(es)
    ensures After(s, es).submitted == s.submitted
    decreases |es|
  {
    if es != [] {
      NextWellFormed(s, es[0]);
      NoPushKept(s, es[0]);
      QueueKept(Next(s, es[0]), es[1..]);
    }
  }

  lemma {:induction false} QueueGrows(s: System, es: seq<Event>)
    requires WellFormed(s) && Run(s, es)
    ensures s.submitted <= After(s, es).submitted
    decreases |es|
  {
    if es != [] {
      NextWellFormed(s, es[0]);
      if !es[0].SubmitPush? {
        NoPushKept(s, es[0]);
      }
      QueueGrows(Next(s, es[0]), es[1..]);
    }
  }

  lemma NoLossKept(s: System, e: Event)
    requires WellFormed(s) && NoLoss(s.ledger) && Enabled(s, e) && !e.Lose?
    ensures NoLoss(Next(s, e).ledger)
  {
  }

  predicate AtMost(a: Measure, b: Measure) {
    a == b || a.Below(b)
  }

  lemma AtMostChain(a: Measure, b: Measure, c: Measure)
    requires AtMost(a, b) && AtMost(b, c)
    ensures AtMost(a, c) && (a == c ==> b == c)
  {
  }

  lemma {:induction false} MajorRun(s: System, es: seq<Event>)
    requires Queued(s) && NoLoss(s.ledger) && Run(s, es) && CalmRun(s, es)
    ensures Queued(After(s, es)) && NoLoss(After(s, es).ledger)
    ensures AtMost(Major(After(s, es)), Major(s))
    decreases |es|
  {
    if es != [] {
      var s1 := Next(s, es[0]);
      MajorStep(s, es[0]);
      MajorRun(s1, es[1..]);
      AtMostChain(Major(After(s1, es[1..])), Major(s1), Major(s));
    }
  }

  // ---- quiet runs: the major part stays

  ghost predicate QuietRun(s: System, es: seq<Event>) {
    && Queued(s) && NoLoss(s.ledger) && Run(s, es) && CalmRun(s, es)
    && Major(After(s, es)) == Major(s)
  }

  lemma QuietTail(s: System, es: seq<Event>)
    requires QuietRun(s, es) && es != []
    ensures WellFormed(Next(s, es[0])) && QuietRun(Next(s, es[0]), es[1..])
    ensures Major(Next(s, es[0])) == Major(s) && !HardWork(es[0])
    ensures After(s, es) == After(Next(s, es[0]), es[1..])
  {
    var s1 := Next(s, es[0]);
    MajorStep(s, es[0]);
    MajorRun(s1, es[1..]);
    AtMostChain(Major(After(s1, es[1..])), Major(s1), Major(s));
  }

  lemma {:induction false} QuietHasNoWork(s: System, es: seq<Event>, t: Thread)
    requires QuietRun(s, es) && (t.Worker? || t.ResultThread?)
    ensures !Moves(s, es, t)
    decreases |es|
  {
    if es != [] {
      QuietTail(s, es);
      QuietHasNoWork(Next(s, es[0]), es[1..], t);
    }
  }

  /** The dispatcher scans towards something it will find. */
  ghost predicate Seeking(s: System) {
    s.d.Booking? || (s.d.Counting? && s.r.Waiting? && forall f :: 0 <= f < |s.ledger| ==> !s.ledger[f].Owed())
  }

  lemma SeekingStep(s: System, e: Event)
    requires Queued(s) && Enabled(s, e) && Calm(s, e) && !HardWork(e) && Seeking(s)
    requires Major(Next(s, e)) == Major(s)
    ensures Seeking(Next(s, e))
    ensures if e.Dispatch? then Minor(Next(s, e)) < Minor(s) else Minor(Next(s, e)) == Minor(s)
  {
    if e.Dispatch? {
      DispatchMajor(s);
      if s.d.Counting? {
        AllFree(s);
        NextWellFormed(s, e);
        CountingFalls(s);
      }
    } else {
      EasyMajor(s, e);
    }
  }

  lemma CountingFalls(s: System)
    requires WellFormed(s) && s.d.Counting? && DispatchStep(s).d.Counting? && s.d.w.need <= s.m.hosts && s.d.count >= 0
    requires forall k :: 1 <= k <= s.m.hosts ==> s.m.pcstat[k].Free?
    ensures Minor(DispatchStep(s)) < Minor(s)
  {
  }

  lemma {:induction false} SeekingRun(s: System, es: seq<Event>)
    requires QuietRun(s, es) && Seeking(s)
    ensures Seeking(After(s, es)) && Minor(After(s, es)) <= Minor(s)
    ensures Moves(s, es, Dispatcher) ==> Minor(After(s, es)) < Minor(s)
    decreases |es|
  {
    if es != [] {
      QuietTail(s, es);
      SeekingStep(s, es[0]);
      SeekingRun(Next(s, es[0]), es[1..]);
    }
  }

  // ---- waiting for the lock

  /** Thread `t` needs nothing but the lock. */
  ghost predicate NeedsLock(s: System, t: Thread) {
    || (t.ResultThread? && s.r.Finishing? && !s.d.Booking?)
    || (t.Dispatcher? && s.d.Idle? && !s.m.IsEmpty())
  }

  lemma LockOpens(s: System, t: Thread)
    requires WellFormed(s) && NeedsLock(s, t) && !s.mon.Sweeping?
    ensures CanMove(s, t)
  {
    var e := if t.Dispatcher? then Dispatch else ResultNext;
    assert Enabled(s, e) && Serves(s, e, t);
  }

  lemma NeedsLockKept(s: System, e: Event, t: Thread)
    requires Queued(s) && Enabled(s, e) && Calm(s, e) && !HardWork(e) && NeedsLock(s, t)
    requires Major(Next(s, e)) == Major(s)
    ensures NeedsLock(Next(s, e), t)
    ensures s.mon.Sweeping? && !e.CancelNext? ==> Next(s, e).mon == s.mon
    ensures s.d.Idle? == Next(s, e).d.Idle? && s.r == Next(s, e).r && s.m.hosts == Next(s, e).m.hosts
  {
    if e.Dispatch? {
      DispatchMajor(s);
    } else {
      EasyMajor(s, e);
    }
  }

  lemma LockStep(s: System, e: Event, t: Thread)
    requires Queued(s) && Enabled(s, e) && Calm(s, e) && !HardWork(e) && NeedsLock(s, t) && s.mon.Sweeping?
    requires Major(Next(s, e)) == Major(s)
    ensures NeedsLock(Next(s, e), t)
    ensures if e.CancelNext? then Lock(Next(s, e)) < Lock(s) else Lock(Next(s, e)) == Lock(s)
    ensures !e.CancelNext? ==> Next(s, e).mon.Sweeping?
  {
    NeedsLockKept(s, e, t);
  }

  /** A quiet run in which the monitor sweeps and lets nobody in brings the sweep nearer its end. */
  lemma {:induction false} SweepRun(s: System, es: seq<Event>, t: Thread)
    requires QuietRun(s, es) && NeedsLock(s, t) && s.mon.Sweeping? && !Could(s, es, t)
    ensures Lock(After(s, es)) <= Lock(s)
    ensures Moves(s, es, Monitor) ==> Lock(After(s, es)) < Lock(s)
    decreases |es|
  {
    if es != [] {
      var s1 := Next(s, es[0]);
      QuietTail(s, es);
      LockStep(s, es[0], t);
      if |es| == 1 {
        assert es[1..] == [] && After(s1, []) == s1;
        assert !Moves(s1, [], Monitor);
      } else {
        if !s1.mon.Sweeping? {
          LockOpens(s1, t);
        }
        SweepRun(s1, es[1..], t);
      }
    }
  }

  // ---- a round

  /** When neither a worker nor the result thread can move, nothing is outstanding, or the
      result thread needs the lock, or hosts are being booked. */
  lemma NobodyWorks(s: System)
    requires Queued(s) && NoLoss(s.ledger) && !s.d.Booking?
    requires !CanMove(s, ResultThread) && forall h :: !CanMove(s, Worker(h))
    ensures (s.r.Waiting? && forall f :: 0 <= f < |s.ledger| ==> !s.ledger[f].Owed())
            || (s.r.Finishing? && s.mon.Sweeping?)
  {
    if !s.r.Waiting? {
      assert Enabled(s, ResultNext) ==> Serves(s, ResultNext, ResultThread);
    } else if f :| 0 <= f < |s.ledger| && s.ledger[f].Owed() {
      var e := FlightMoves(s, f);
      MoverServes(s, e, f);
    }
  }

  lemma MoverServes(s: System, e: Event, f: nat)
    requires WellFormed(s) && f < |s.ledger| && Enabled(s, e)
    requires e == WorkerTake(f) || e == WorkerDone(f) || e == ResultTake(f)
    ensures CanMove(s, ResultThread) || CanMove(s, Worker(s.ledger[f].host))
  {
    assert Serves(s, e, if e.ResultTake? then ResultThread else Worker(s.ledger[f].host));
  }

  lemma MonitorMoves(s: System)
    requires WellFormed(s) && s.mon.Sweeping?
    ensures CanMove(s, Monitor)
  {
    assert Enabled(s, CancelNext) && Serves(s, CancelNext, Monitor);
  }

  lemma SeekerMoves(s: System)
    requires Queued(s) && Seeking(s)
    ensures CanMove(s, Dispatcher)
  {
    assert Enabled(s, Dispatch) && Serves(s, Dispatch, Dispatcher);
  }

  lemma {:induction false} QuietIdleStays(s: System, es: seq<Event>)
    requires QuietRun(s, es) && s.d.Idle?
    ensures !Moves(s, es, Dispatcher) && After(s, es).d.Idle? && After(s, es).r == s.r
    decreases |es|
  {
    if es != [] {
      QuietTail(s, es);
      if es[0].Dispatch? {
        DispatchMajor(s);
      } else {
        EasyMajor(s, es[0]);
      }
      QuietIdleStays(Next(s, es[0]), es[1..]);
    }
  }

  lemma Emptiness(s: System)
    requires Queued(s)
    ensures s.m.IsEmpty() <==> |s.submitted| == |s.popped|
  {
    QueueArithmetic(s);
  }

  /** In a round that leaves the major part as it is, the sweep or the scan gets ahead. */
  lemma QuietRoundLowers(s: System, es: seq<Event>)
    requires QuietRun(s, es) && Round(s, es) && !Settled(s)
    ensures Falls(s, After(s, es))
  {
    forall t: Thread | t.Worker? || t.ResultThread? ensures !Could(s, es, t) && !CanMove(s, t) {
      QuietHasNoWork(s, es, t);
    }
    if Seeking(s) {
      SeekerMoves(s);
      SeekingRun(s, es);
      assert Moves(s, es, Dispatcher);
    } else {
      NobodyWorks(s);
      Emptiness(s);
      var t := if s.r.Finishing? then ResultThread else Dispatcher;
      if !s.r.Finishing? {
        QuietIdleStays(s, es);
      }
      assert NeedsLock(s, t) && !Could(s, es, t);
      if !s.mon.Sweeping? {
        LockOpens(s, t);
      }
      MonitorMoves(s);
      SweepRun(s, es, t);
      assert Moves(s, es, Monitor);
    }
  }

  /** Every round lowers the measure, whatever its length and order. */
  lemma RoundLowers(s: System, es: seq<Event>)
    requires Queued(s) && NoLoss(s.ledger) && Round(s, es) && !Settled(s)
    ensures Queued(After(s, es)) && NoLoss(After(s, es).ledger) && Falls(s, After(s, es))
  {
    MajorRun(s, es);
    if Major(After(s, es)) == Major(s) {
      QuietRoundLowers(s, es);
    }
  }

  /** The round leads from `s` to `s'`. */
  ghost predicate RoundTo(s: System, es: seq<Event>, s': System) {
    WellFormed(s) && Round(s, es) && After(s, es) == s'
  }

  lemma MeasureBounds(s: System)
    requires Queued(s)
    ensures MeasureOf(s).NonNegative() && Lock(s) >= 0 && Minor(s) >= 0
  {
    MeasureNonNegative(s);
  }

  lemma RoundDown(s: System, es: seq<Event>, s': System)
    requires Queued(s) && NoLoss(s.ledger) && RoundTo(s, es, s') && !Settled(s)
    ensures Queued(s') && NoLoss(s'.ledger) && Falls(s, s') && s.submitted <= s'.submitted
    ensures MeasureOf(s).NonNegative() && Lock(s) >= 0 && Minor(s) >= 0
    ensures MeasureOf(s').NonNegative() && Lock(s') >= 0 && Minor(s') >= 0
  {
    RoundLowers(s, es);
    QueueGrows(s, es);
    MeasureBounds(s);
    MeasureBounds(s');
  }

  lemma PushlessDown(s: System, es: seq<Event>, s': System)
    requires Queued(s) && NoLoss(s.ledger) && RoundTo(s, es, s') && !Settled(s) && Runs.NoPush(es)
    ensures Queued(s') && NoLoss(s'.ledger) && Falls(s, s') && s.submitted == s'.submitted
    ensures MeasureOf(s).NonNegative() && Lock(s) >= 0 && Minor(s) >= 0
    ensures MeasureOf(s').NonNegative() && Lock(s') >= 0 && Minor(s') >= 0
  {
    RoundDown(s, es, s');
    QueueKept(s, es);
  }

  /** Every queued job is popped: in every endless loss-free run divided into rounds, with
      pushes and cancels going on, job `t` of the queue is taken off it, as it was submitted. */
  lemma {:induction false} RoundsPop(states: nat -> System, rounds: nat -> seq<Event>, n: nat, t: nat)
      returns (k: nat)
    requires Queued(states(n)) && NoLoss(states(n).ledger) && t < |states(n).submitted|
    requires forall i :: i >= n ==> RoundTo(states(i), rounds(i), states(i + 1))
    ensures k >= n && Queued(states(k)) && t < |states(k).popped|
    ensures states(k).popped[t] == (states(n).submitted[t].comm, states(n).submitted[t].req)
    decreases t + 1 - |states(n).popped|, Major(states(n)).stage, Major(states(n)).work, Major(states(n)).left,
              Lock(states(n)), Minor(states(n))
  {
    k := n;
    if |states(n).popped| <= t {
      assert RoundTo(states(n), rounds(n), states(n + 1));
      RoundDown(states(n), rounds(n), states(n + 1));
      k := RoundsPop(states, rounds, n + 1, t);
    }
  }

  /** Such a run without new pushes comes to rest: every job popped, every return taken and
      processed. */
  lemma {:induction false} RoundsSettle(states: nat -> System, rounds: nat -> seq<Event>, n: nat) returns (k: nat)
    requires Queued(states(n)) && NoLoss(states(n).ledger)
    requires forall i :: i >= n ==> RoundTo(states(i), rounds(i), states(i + 1)) && Runs.NoPush(rounds(i))
    ensures k >= n && Settled(states(k)) && Queued(states(k)) && states(k).submitted == states(n).submitted
    decreases |states(n).submitted| - |states(n).popped|, Major(states(n)).stage, Major(states(n)).work,
              Major(states(n)).left, Lock(states(n)), Minor(states(n))
  {
    k := n;
    if !Settled(states(n)) {
      assert RoundTo(states(n), rounds(n), states(n + 1)) && Runs.NoPush(rounds(n));
      PushlessDown(states(n), rounds(n), states(n + 1));
      k := RoundsSettle(states, rounds, n + 1);
    }
  }

  lemma RoundKeeps(s: System, es: seq<Event>, s': System)
    requires Inv(s) && NoLoss(s.ledger) && RoundTo(s, es, s') && Runs.NoPush(es) && Guarded(s, es)
    ensures Inv(s') && NoLoss(s'.ledger) && s'.submitted == s.submitted && s'.m.hosts == s.m.hosts
  {
    InvIsQueued(s);
    MajorRun(s, es);
    RunSafe(s, es);
    QueueKept(s, es);
    RunKeepsHosts(s, es);
  }

  lemma {:induction false} InvRounds(states: nat -> System, rounds: nat -> seq<Event>, i: nat, k: nat)
    requires i <= k && Inv(states(i)) && NoLoss(states(i).ledger)
    requires forall n: nat ::
               RoundTo(states(n), rounds(n), states(n + 1)) && Runs.NoPush(rounds(n)) && Guarded(states(n), rounds(n))
    ensures Inv(states(k)) && NoLoss(states(k).ledger)
    ensures states(k).submitted == states(i).submitted && states(k).m.hosts == states(i).m.hosts
    decreases k - i
  {
    if i < k {
      assert RoundTo(states(i), rounds(i), states(i + 1)) && Runs.NoPush(rounds(i)) && Guarded(states(i), rounds(i));
      RoundKeeps(states(i), rounds(i), states(i + 1));
      InvRounds(states, rounds, i + 1, k);
    }
  }

  /** In every such run whose steps meet their conditions, all jobs queued or running at its
      start, and that fit, are finished. */
  lemma FairRunsFinish(states: nat -> System, rounds: nat -> seq<Event>) returns (k: nat)
    requires Inv(states(0)) && NoLoss(states(0).ledger)
    requires forall i: nat ::
               RoundTo(states(i), rounds(i), states(i + 1)) && Runs.NoPush(rounds(i)) && Guarded(states(i), rounds(i))
    ensures var s := states(k);
            && s.submitted == states(0).submitted && Inv(s)
            && (forall t :: 0 <= t < |s.submitted| ==> (t in s.finished <==> s.submitted[t].req <= s.m.hosts))
            && |FreeHosts(s.m)| == s.m.hosts
  {
    InvIsQueued(states(0));
    k := RoundsSettle(states, rounds, 0);
    InvRounds(states, rounds, 0, k);
    AtRest(states(k));
  }

  // ---- rounds exist

  lemma PhaseStep(s: System, e: Event, f: nat)
    requires WellFormed(s) && Enabled(s, e) && Calm(s, e) && f < |s.ledger| && NoLoss(s.ledger)
    ensures f < |Next(s, e).ledger| && Next(s, e).ledger[f].host == s.ledger[f].host
    ensures Runs.Rank(s.ledger[f].phase) < 3 <= Runs.Rank(Next(s, e).ledger[f].phase)
            ==> Serves(s, e, Worker(s.ledger[f].host))
    ensures s.ledger[f].Owed() && !Next(s, e).ledger[f].Owed() ==> Serves(s, e, ResultThread)
  {
  }

  /** A submit that returns in the run had its worker move, one that is taken the result thread. */
  lemma {:induction false} FlightMoved(s: System, es: seq<Event>, f: nat)
    requires WellFormed(s) && Run(s, es) && CalmRun(s, es) && f < |s.ledger| && NoLoss(s.ledger)
    requires f < |After(s, es).ledger| && !After(s, es).ledger[f].Owed()
    ensures Runs.Rank(s.ledger[f].phase) < 3 ==> Moves(s, es, Worker(s.ledger[f].host))
    ensures s.ledger[f].Owed() ==> Moves(s, es, ResultThread)
    decreases |es|
  {
    if es != [] {
      NextWellFormed(s, es[0]);
      NoLossKept(s, es[0]);
      PhaseStep(s, es[0], f);
      FlightMoved(Next(s, es[0]), es[1..], f);
    }
  }

  lemma {:induction false} ReturnMoved(s: System, es: seq<Event>)
    requires WellFormed(s) && Run(s, es) && !s.r.Waiting? && After(s, es).r.Waiting?
    ensures Moves(s, es, ResultThread)
    decreases |es|
  {
    if es != [] && !es[0].ResultNext? {
      NextWellFormed(s, es[0]);
      ReturnMoved(Next(s, es[0]), es[1..]);
    }
  }

  lemma {:induction false} DispatchMoved(s: System, es: seq<Event>)
    requires WellFormed(s) && Run(s, es) && CalmRun(s, es) && After(s, es).d.Idle?
    requires !s.d.Idle? || |After(s, es).popped| != |s.popped|
    ensures Moves(s, es, Dispatcher)
    decreases |es|
  {
    if es != [] && !es[0].Dispatch? {
      NextWellFormed(s, es[0]);
      OtherThanDispatch(s, es[0]);
      DispatchMoved(Next(s, es[0]), es[1..]);
    }
  }

  lemma OtherThanDispatch(s: System, e: Event)
    requires WellFormed(s) && Enabled(s, e) && Calm(s, e) && !e.Dispatch?
    ensures Next(s, e).d == s.d && Next(s, e).popped == s.popped
  {
  }

  lemma {:induction false} LedgerStays(s: System, es: seq<Event>)
    requires WellFormed(s) && Run(s, es)
    ensures |s.ledger| <= |After(s, es).ledger|
    decreases |es|
  {
    if es != [] {
      NextWellFormed(s, es[0]);
      LedgerStays(Next(s, es[0]), es[1..]);
    }
  }

  lemma DispatcherMoves(s: System, es: seq<Event>)
    requires Queued(s) && Run(s, es) && CalmRun(s, es) && Settled(After(s, es)) && Enabled(s, Dispatch)
    requires OnlyWork(es)
    ensures Moves(s, es, Dispatcher)
  {
    if s.d.Idle? {
      Emptiness(s);
      QueueKept(s, es);
    }
    DispatchMoved(s, es);
  }

  lemma WorkersMove(s: System, es: seq<Event>, e: Event, t: Thread)
    requires WellFormed(s) && NoLoss(s.ledger) && Run(s, es) && CalmRun(s, es) && Settled(After(s, es))
    requires Enabled(s, e) && Serves(s, e, t) && HardWork(e)
    ensures Moves(s, es, t)
  {
    LedgerStays(s, es);
    if e.ResultNext? {
      ReturnMoved(s, es);
    } else {
      FlightMoved(s, es, e.f);
    }
  }

  /** In a run that ends at rest, a thread that can move at its start moves. */
  lemma MoversMove(s: System, es: seq<Event>, t: Thread)
    requires Queued(s) && NoLoss(s.ledger) && Run(s, es) && CalmRun(s, es) && !s.mon.Sweeping?
    requires Settled(After(s, es)) && CanMove(s, t) && OnlyWork(es)
    ensures Moves(s, es, t)
  {
    var e :| Enabled(s, e) && Serves(s, e, t);
    if e.Dispatch? {
      DispatcherMoves(s, es);
    } else {
      WorkersMove(s, es, e, t);
    }
  }

  lemma WorkKeepsMonitor(s: System, e: Event)
    requires WellFormed(s) && Enabled(s, e) && (e.Dispatch? || HardWork(e))
    ensures Next(s, e).mon == s.mon
  {
  }

  lemma RestTail(s: System, es: seq<Event>)
    requires Queued(s) && NoLoss(s.ledger) && Run(s, es) && CalmRun(s, es) && OnlyWork(es) && es != []
    ensures Queued(Next(s, es[0])) && NoLoss(Next(s, es[0]).ledger) && Next(s, es[0]).mon == s.mon
    ensures OnlyWork(es[1..])
  {
    MajorStep(s, es[0]);
    WorkKeepsMonitor(s, es[0]);
  }

  lemma {:induction false} RestIsRound(s: System, es: seq<Event>, t: Thread)
    requires Queued(s) && NoLoss(s.ledger) && Run(s, es) && CalmRun(s, es) && OnlyWork(es) && !s.mon.Sweeping?
    requires Settled(After(s, es)) && Could(s, es, t)
    ensures Moves(s, es, t)
    decreases |es|
  {
    if CanMove(s, t) {
      MoversMove(s, es, t);
    } else {
      RestTail(s, es);
      RestIsRound(Next(s, es[0]), es[1..], t);
    }
  }

  lemma {:induction false} WorkIsCalm(s: System, es: seq<Event>)
    requires WellFormed(s) && Run(s, es) && Guarded(s, es) && OnlyWork(es)
    ensures CalmRun(s, es)
    decreases |es|
  {
    if es != [] {
      NextWellFormed(s, es[0]);
      WorkIsCalm(Next(s, es[0]), es[1..]);
    }
  }

  /** Rounds are never impossible: outside a sweep some round, with every condition met, leads
      to rest at once. */
  lemma RoundExists(s: System) returns (es: seq<Event>)
    requires Queued(s) && NoLoss(s.ledger) && !s.mon.Sweeping?
    ensures Round(s, es) && Guarded(s, es) && Settled(After(s, es))
  {
    es := Drains(s);
    WorkIsCalm(s, es);
    forall t | Could(s, es, t) ensures Moves(s, es, t) {
      RestIsRound(s, es, t);
    }
  }
}
