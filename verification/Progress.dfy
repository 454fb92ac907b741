/** Waiting ends and work drains: a measure every working step lowers, and a schedule
    that empties the queue from any state without losses. */
module Progress {
  import opened JobQueue
  import opened Machine
  import opened Invariant
  import opened Exactness
  import opened Runs
  import opened Hosting
  import opened Queueing
  import Safety

  // ---- waiting for hosts

  lemma FreeGains(m: Tables, h: nat)
    requires m.Shaped() && 1 <= h <= m.hosts && m.pcstat[h].Busy?
    ensures |FreeHosts(SetHost(m, h, Free))| == |FreeHosts(m)| + 1
  {
    assert FreeHosts(SetHost(m, h, Free)) == FreeHosts(m) + {h};
  }

  /** While the dispatcher is not booking, each return taken frees exactly one more host
      and no other step takes one away. */
  lemma WaitingFrees(s: System, e: Event)
    requires Hosted(s) && Enabled(s, e) && !s.d.Booking?
    ensures WellFormed(Next(s, e))
    ensures |FreeHosts(Next(s, e).m)| == |FreeHosts(s.m)| + if e.ResultTake? then 1 else 0
  {
    NextWellFormed(s, e);
    if e.ResultTake? {
      FreeGains(s.m, s.ledger[e.f].host);
    } else {
      assert Next(s, e).m.pcstat == s.m.pcstat && Next(s, e).m.hosts == s.m.hosts;
    }
  }

  /** The dispatcher is not booking at any point of the run. */
  ghost predicate Waits(s: System, es: seq<Event>)
    requires WellFormed(s) && Run(s, es)
    decreases |es|
  {
    !s.d.Booking? && (es != [] ==> (NextWellFormed(s, es[0]); Waits(Next(s, es[0]), es[1..])))
  }

  function Returns(es: seq<Event>): nat {
    if es == [] then 0 else (if es[0].ResultTake? then 1 else 0) + Returns(es[1..])
  }

  /** The free hosts at the end of a wait are those at its start and one for each return
      taken: after `need` minus that many returns there are enough. */
  lemma {:induction false} WaitBound(s: System, es: seq<Event>)
    requires Hosted(s) && Run(s, es) && Waits(s, es)
    ensures Hosted(After(s, es))
    ensures |FreeHosts(After(s, es).m)| == |FreeHosts(s.m)| + Returns(es)
    decreases |es|
  {
    if es != [] {
      WaitingFrees(s, es[0]);
      HostedStep(s, es[0]);
      WaitBound(Next(s, es[0]), es[1..]);
    }
  }

  /** The hosts of `known` below `k` are all free and all in the count. */
  ghost predicate Seen(s: System, known: set<nat>, base: int)
    requires WellFormed(s)
  {
    && s.d.Counting?
    && known <= FreeHosts(s.m)
    && |Below(known, s.d.k)| <= s.d.count - base
  }

  ghost function Below(known: set<nat>, k: nat): set<nat> {
    set h | h in known && h < k
  }

  lemma BelowGrows(known: set<nat>, k: nat)
    ensures |Below(known, k + 1)| == |Below(known, k)| + if k in known then 1 else 0
  {
    assert Below(known, k + 1) == Below(known, k) + if k in known then {k} else {};
  }

  lemma SeenKeeps(s: System, e: Event, known: set<nat>, base: int)
    requires WellFormed(s) && Enabled(s, e) && Seen(s, known, base)
    requires e.Dispatch? ==> s.d.k <= s.m.hosts
    ensures WellFormed(Next(s, e)) && Seen(Next(s, e), known, base)
  {
    NextWellFormed(s, e);
    BelowGrows(known, s.d.k);
    assert forall h :: h in known ==> 1 <= h <= s.m.hosts && s.m.pcstat[h].Free?;
    assert forall h :: h in known ==> Next(s, e).m.pcstat[h].Free?;
  }

  lemma {:induction false} SeenRun(s: System, es: seq<Event>, known: set<nat>, base: int)
    requires WellFormed(s) && Run(s, es) && OnePass(s, es) && Seen(s, known, base)
    ensures WellFormed(After(s, es)) && Seen(After(s, es), known, base)
    ensures After(s, es).d.w == s.d.w && After(s, es).m.hosts == s.m.hosts
    decreases |es|
  {
    if es != [] {
      SeenKeeps(s, es[0], known, base);
      SeenRun(Next(s, es[0]), es[1..], known, base);
    }
  }

  /** A pass that begins with enough hosts free ends the wait, whatever happens meanwhile. */
  lemma WaitEnds(s: System, es: seq<Event>)
    requires WellFormed(s) && Run(s, es) && OnePass(s, es)
    requires s.d.Counting? && s.d.k == 1 && s.d.count >= 0 && |FreeHosts(s.m)| >= s.d.w.need
    ensures WellFormed(After(s, es))
    ensures var s' := After(s, es);
            s'.d.Counting? && s'.d.k > s'.m.hosts ==> DispatchStep(s') == s'.(d := Booking(s.d.w, 1, 1, Look))
  {
    var known := FreeHosts(s.m);
    assert Below(known, 1) == {};
    SeenRun(s, es, known, s.d.count);
    var s' := After(s, es);
    if s'.d.k > s'.m.hosts {
      assert Below(known, s'.d.k) == known;
    }
  }

  lemma WaitStep(s: System, e: Event)
    requires WellFormed(s) && Enabled(s, e) && s.d.Counting? && WellFormed(Next(s, e)) && !Next(s, e).d.Booking?
    ensures Next(s, e).d.Counting? && Next(s, e).d.w == s.d.w && Next(s, e).m.hosts == s.m.hosts
    ensures s.d.count >= 0 ==> Next(s, e).d.count >= 0
  {
  }

  lemma {:induction false} WaitHolds(s: System, es: seq<Event>)
    requires WellFormed(s) && Run(s, es) && Waits(s, es) && s.d.Counting?
    ensures WellFormed(After(s, es)) && After(s, es).d.Counting? && After(s, es).d.w == s.d.w
    ensures After(s, es).m.hosts == s.m.hosts && (s.d.count >= 0 ==> After(s, es).d.count >= 0)
    decreases |es|
  {
    if es != [] {
      NextWellFormed(s, es[0]);
      WaitStep(s, es[0]);
      WaitHolds(Next(s, es[0]), es[1..]);
    }
  }

  /** Once `need` minus the free hosts returns have been taken, the next full pass ends the wait,
      whatever else happens before and during it. */
  lemma WaitExits(s: System, es: seq<Event>, pass: seq<Event>)
    requires Hosted(s) && s.d.Counting? && s.d.count >= 0 && Run(s, es) && Waits(s, es)
    requires Returns(es) >= s.d.w.need - |FreeHosts(s.m)|
    requires var s1 := After(s, es);
             WellFormed(s1) && s1.d.Counting? && s1.d.k == 1 && Run(s1, pass) && OnePass(s1, pass)
    ensures var s2 := After(After(s, es), pass);
            && WellFormed(s2)
            && (s2.d.Counting? && s2.d.k > s2.m.hosts ==> DispatchStep(s2) == s2.(d := Booking(s.d.w, 1, 1, Look)))
  {
    WaitBound(s, es);
    WaitHolds(s, es);
    WaitEnds(After(s, es), pass);
  }

  // ---- a measure for work

  function PhaseWork(p: Phase): nat {
    match p
    case Submitted => 3
    case Executing => 2
    case Cancelled => 2
    case Returning => 1
    case _ => 0
  }

  function Work(l: seq<Flight>): nat {
    if l == [] then 0 else PhaseWork(l[0].phase) + Work(l[1..])
  }

  lemma {:induction false} WorkMoves(l: seq<Flight>, f: nat, x: Flight)
    requires f < |l|
    ensures Work(l[f := x]) == Work(l) - PhaseWork(l[f].phase) + PhaseWork(x.phase)
  {
    if f == 0 {
      assert l[0 := x][1..] == l[1..];
    } else {
      assert l[f := x][1..] == l[1..][f - 1 := x];
      WorkMoves(l[1..], f - 1, x);
    }
  }

  function Stage(d: Dispatcher, hosts: nat): int {
    match d
    case Idle => 0
    case Counting(_, _, _) => hosts + 3
    case Booking(w, i, _, _) => if i > w.need then 1 else w.need - i + 2
  }

  function Scan(d: Dispatcher, hosts: nat): int {
    match d
    case Idle => 0
    case Counting(_, _, k) => hosts + 1 - k
    case Booking(_, _, k, Look) => 4 + hosts + 1 - k
    case Booking(_, _, _, Name) => 3
    case Booking(_, _, _, Take) => 2
    case Booking(_, _, _, Send) => 1
  }

  function Left(r: Results): nat {
    match r
    case Waiting => 0
    case Freed(_) => 4
    case Loaded(_, _) => 3
    case Counted(_) => 2
    case Finishing(_) => 1
  }

  /** Queue length, dispatch stage, work of the flights, return in hand, scan position. */
  datatype Measure = Measure(queued: int, stage: int, work: int, left: int, scan: int) {
    predicate Below(b: Measure) {
      || queued < b.queued
      || (queued == b.queued && stage < b.stage)
      || (queued == b.queued && stage == b.stage && work < b.work)
      || (queued == b.queued && stage == b.stage && work == b.work && left < b.left)
      || (queued == b.queued && stage == b.stage && work == b.work && left == b.left && scan < b.scan)
    }

    predicate NonNegative() {
      queued >= 0 && stage >= 0 && work >= 0 && left >= 0 && scan >= 0
    }
  }

  function MeasureOf(s: System): Measure {
    Measure(|s.submitted| - |s.popped|, Stage(s.d, s.m.hosts), Work(s.ledger), Left(s.r), Scan(s.d, s.m.hosts))
  }

  /** A step of a worker, of the result thread or of the dispatcher, except the dispatcher
      starting another pass because too few hosts were free. */
  ghost predicate Works(s: System, e: Event)
    requires WellFormed(s) && Enabled(s, e)
  {
    match e
    case Dispatch => !(s.d.Counting? && s.d.k > s.m.hosts && s.d.count < s.d.w.need)
    case WorkerTake(_) => true
    case WorkerDone(_) => true
    case ResultTake(_) => true
    case ResultNext => true
    case Lose(_) => true
    case _ => false
  }

  lemma BookingLowers(s: System)
    requires WellFormed(s) && s.d.Booking? && (!s.d.at.Look? ==> s.d.i <= s.d.w.need)
    ensures MeasureOf(DispatchStep(s)).Below(MeasureOf(s))
  {
  }

  lemma DispatchLowers(s: System)
    requires Queued(s) && Enabled(s, Dispatch) && Works(s, Dispatch)
    ensures MeasureOf(DispatchStep(s)).Below(MeasureOf(s))
  {
    if s.d.Booking? {
      BookingLowers(s);
    }
  }

  lemma MeasureNonNegative(s: System)
    requires Queued(s)
    ensures MeasureOf(s).NonNegative()
  {
  }

  lemma PhaseLowers(s: System, f: nat, phase: Phase)
    requires f < |s.ledger| && PhaseWork(phase) < PhaseWork(s.ledger[f].phase)
    ensures Work(SetPhase(s, f, phase).ledger) < Work(s.ledger)
  {
    WorkMoves(s.ledger, f, s.ledger[f].(phase := phase));
  }

  lemma WorkerLowers(s: System, e: Event)
    requires WellFormed(s) && Enabled(s, e)
    requires e.WorkerTake? || e.WorkerDone? || e.Lose? || e.ResultTake?
    ensures MeasureOf(Next(s, e)).Below(MeasureOf(s))
  {
    var phase := match e
      case WorkerTake(_) => Executing
      case WorkerDone(_) => Returning
      case Lose(_) => Phase.Lost
      case _ => Credited;
    PhaseLowers(s, e.f, phase);
  }

  lemma ResultLowers(s: System)
    requires WellFormed(s) && !s.r.Waiting?
    ensures MeasureOf(ResultStep(s)) == MeasureOf(s).(left := Left(ResultStep(s).r))
    ensures Left(ResultStep(s).r) < Left(s.r)
  {
  }

  /** Every working step lowers the measure: outside failed passes and new requests the
      system cannot run for ever. */
  lemma WorkLowers(s: System, e: Event)
    requires Queued(s) && Enabled(s, e) && Works(s, e)
    ensures MeasureOf(Next(s, e)).Below(MeasureOf(s)) && MeasureOf(s).NonNegative()
  {
    MeasureNonNegative(s);
    if e.Dispatch? {
      DispatchLowers(s);
    } else if e.ResultNext? {
      ResultLowers(s);
    } else {
      WorkerLowers(s, e);
    }
  }

  // ---- draining the queue

  ghost predicate NoLoss(l: seq<Flight>) {
    forall f :: 0 <= f < |l| ==> !l[f].phase.Lost?
  }

  /** Nothing is queued, dispatched, outstanding or half processed. */
  ghost predicate Settled(s: System) {
    && |s.submitted| == |s.popped|
    && s.d.Idle? && s.r.Waiting?
    && forall f :: 0 <= f < |s.ledger| ==> !s.ledger[f].Owed()
  }

  /** The remaining scan, when every host is free: a pass that will fall short is followed
      by one that will not. */
  function Scanning(d: Dispatcher, hosts: nat): int {
    if d.Counting? && d.count + hosts + 1 - d.k < d.w.need
    then 2 * (hosts + 1) - d.k
    else Scan(d, hosts)
  }

  lemma AllFree(s: System)
    requires Queued(s) && !s.d.Booking? && forall f :: 0 <= f < |s.ledger| ==> !s.ledger[f].Owed()
    ensures forall k :: 1 <= k <= s.m.hosts ==> s.m.pcstat[k].Free?
    ensures |FreeHosts(s.m)| == s.m.hosts
  {
    assert forall k :: !Held(s.ledger, k);
    AllFreeCard(s.m);
  }

  lemma AllFreeCard(m: Tables)
    requires m.Shaped() && forall k :: 1 <= k <= m.hosts ==> m.pcstat[k].Free?
    ensures |FreeHosts(m)| == m.hosts
  {
    var all := Safety.HostsUpTo(m.hosts);
    assert FreeHosts(m) == all;
  }

  /** A step the schedule may choose. */
  ghost predicate Move(s: System, e: Event)
    requires WellFormed(s)
  {
    && Enabled(s, e)
    && (e.Dispatch? || e.WorkerTake? || e.WorkerDone? || e.ResultTake? || e.ResultNext?)
    && (Works(s, e) || e.Dispatch?)
    && (e.Dispatch? && s.d.Counting? ==> forall k :: 1 <= k <= s.m.hosts ==> s.m.pcstat[k].Free?)
  }

  /** A host that has not taken its submit is running nothing else. */
  lemma HostIdle(s: System, f: nat)
    requires Queued(s) && f < |s.ledger| && s.ledger[f].phase.Submitted?
    ensures !Occupied(s, s.ledger[f].host)
  {
    forall g | 0 <= g < |s.ledger| && (s.ledger[g].phase.Executing? || s.ledger[g].phase.Cancelled?)
      ensures s.ledger[g].host != s.ledger[f].host
    {
      assert s.ledger[g].Owed() && s.ledger[f].Owed();
    }
  }

  /** An owed flight that is not lost can always move on while nothing is being booked. */
  lemma FlightMoves(s: System, f: nat) returns (e: Event)
    requires Queued(s) && NoLoss(s.ledger) && s.r.Waiting? && !s.d.Booking?
    requires f < |s.ledger| && s.ledger[f].Owed()
    ensures Move(s, e) && Ok(s, e) && (e == WorkerTake(f) || e == WorkerDone(f) || e == ResultTake(f))
  {
    match s.ledger[f].phase
    case Submitted =>
      HostIdle(s, f);
      e := WorkerTake(f);
    case Executing => e := WorkerDone(f);
    case Cancelled => e := WorkerDone(f);
    case Returning => e := ResultTake(f);
  }

  /** Some step that leads towards the settled state. */
  lemma NextMove(s: System) returns (e: Event)
    requires Queued(s) && NoLoss(s.ledger) && !s.mon.Sweeping? && !Settled(s)
    ensures Move(s, e) && Ok(s, e)
  {
    if s.d.Booking? {
      e := Dispatch;
    } else if !s.r.Waiting? {
      e := ResultNext;
    } else if f :| 0 <= f < |s.ledger| && s.ledger[f].Owed() {
      e := FlightMoves(s, f);
    } else {
      AllFree(s);
      e := Dispatch;
    }
  }

  lemma MoveKeeps(s: System, e: Event)
    requires WellFormed(s) && NoLoss(s.ledger) && !s.mon.Sweeping? && Move(s, e)
    ensures NoLoss(Next(s, e).ledger) && !Next(s, e).mon.Sweeping? && Next(s, e).submitted == s.submitted
  {
  }

  ghost predicate SchedLowers(a: System, b: System)
    requires WellFormed(a) && WellFormed(b)
  {
    var x := MeasureOf(a).(scan := Scanning(a.d, a.m.hosts));
    var y := MeasureOf(b).(scan := Scanning(b.d, b.m.hosts));
    x.Below(y)
  }

  lemma ScanLowers(s: System)
    requires Queued(s) && s.d.Counting? && Enabled(s, Dispatch) && Move(s, Dispatch)
    requires WellFormed(DispatchStep(s))
    ensures SchedLowers(DispatchStep(s), s)
  {
  }

  lemma MoveLowers(s: System, e: Event)
    requires Queued(s) && Move(s, e) && WellFormed(Next(s, e))
    ensures SchedLowers(Next(s, e), s)
  {
    if e.Dispatch? && s.d.Counting? {
      ScanLowers(s);
    } else {
      WorkLowers(s, e);
    }
  }

  /** Only steps that serve requests already made. */
  predicate OnlyWork(es: seq<Event>) {
    forall i :: 0 <= i < |es| ==>
      es[i].Dispatch? || es[i].WorkerTake? || es[i].WorkerDone? || es[i].ResultTake? || es[i].ResultNext?
  }

  lemma MoveIsWork(s: System, e: Event)
    requires WellFormed(s) && Move(s, e)
    ensures OnlyWork([e])
  {
    assert [e][0] == e;
  }

  lemma Prepend(s: System, e: Event, rest: seq<Event>)
    requires WellFormed(s) && Enabled(s, e) && Ok(s, e) && WellFormed(Next(s, e)) && OnlyWork([e])
    requires Run(Next(s, e), rest) && Guarded(Next(s, e), rest) && OnlyWork(rest)
    ensures Run(s, [e] + rest) && Guarded(s, [e] + rest) && OnlyWork([e] + rest)
    ensures After(s, [e] + rest) == After(Next(s, e), rest)
  {
    assert [e][0] == e;
    assert ([e] + rest)[1..] == rest;
  }

  lemma DrainStep(s: System) returns (e: Event)
    requires Queued(s) && NoLoss(s.ledger) && !s.mon.Sweeping? && !Settled(s)
    ensures Enabled(s, e) && Ok(s, e) && OnlyWork([e])
    ensures Queued(Next(s, e)) && NoLoss(Next(s, e).ledger) && !Next(s, e).mon.Sweeping?
    ensures Next(s, e).submitted == s.submitted && SchedLowers(Next(s, e), s)
    ensures MeasureOf(s).NonNegative() && Scanning(s.d, s.m.hosts) >= 0
  {
    e := NextMove(s);
    MoveIsWork(s, e);
    QueuedStep(s, e);
    MoveKeeps(s, e);
    MoveLowers(s, e);
    MeasureNonNegative(s);
  }

  /** From every state without losses the threads can, by themselves and with every condition
      met, bring the system to rest: every queued job popped, every return taken. */
  lemma {:induction false} Drains(s: System) returns (es: seq<Event>)
    requires Queued(s) && NoLoss(s.ledger) && !s.mon.Sweeping?
    ensures Run(s, es) && Guarded(s, es) && OnlyWork(es)
    ensures Queued(After(s, es)) && Settled(After(s, es)) && After(s, es).submitted == s.submitted
    decreases |s.submitted| - |s.popped|, Stage(s.d, s.m.hosts), Work(s.ledger), Left(s.r), Scanning(s.d, s.m.hosts)
  {
    if Settled(s) {
      es := [];
    } else {
      var e := DrainStep(s);
      var rest := Drains(Next(s, e));
      Prepend(s, e, rest);
      es := [e] + rest;
    }
  }

  /** At rest every job that fits is finished, every host free and every counter zero. */
  lemma AtRest(s: System)
    requires Inv(s) && Settled(s)
    ensures forall t :: 0 <= t < |s.submitted| ==> (t in s.finished <==> s.submitted[t].req <= s.m.hosts)
    ensures |FreeHosts(s.m)| == s.m.hosts
    ensures forall j :: 0 <= j < MAX_JOB_QUEUE ==> s.m.jobnodes[j] == 0
  {
    InvIsQueued(s);
    AllFree(s);
    forall j | 0 <= j < MAX_JOB_QUEUE ensures s.m.jobnodes[j] == 0 {
      assert Owing(s.ledger, j) == {};
    }
  }
}
