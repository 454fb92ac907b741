/** Each step of the program keeps the invariant exactly when its condition holds. */
module Steps {
  import opened JobQueue
  import opened Machine
  import opened Invariant

  // ---- counting flights

  lemma OwingAdds(l: seq<Flight>, x: Flight, j: int)
    requires x.Owed()
    ensures |Owing(l + [x], j)| == |Owing(l, j)| + if j == x.job then 1 else 0
  {
    var l' := l + [x];
    assert l' [..|l|] == l;
    if j == x.job {
      assert Owing(l', j) == Owing(l, j) + {|l|};
    } else {
      assert Owing(l', j) == Owing(l, j);
    }
  }

  lemma SentAdds(l: seq<Flight>, x: Flight, t: int)
    ensures |Sent(l + [x], t)| == |Sent(l, t)| + if t == x.ticket then 1 else 0
  {
    var l' := l + [x];
    if t == x.ticket {
      assert Sent(l', t) == Sent(l, t) + {|l|};
    } else {
      assert Sent(l', t) == Sent(l, t);
    }
  }

  /** `l'` is `l` with the phase of flight `f` moved on, still owed. */
  ghost predicate Moved(l: seq<Flight>, l': seq<Flight>, f: nat) {
    && f < |l| == |l'| && l[f].Owed() && l'[f].Owed() && l' == l[f := l[f].(phase := l'[f].phase)]
  }

  lemma MovedSets(l: seq<Flight>, l': seq<Flight>, f: nat)
    requires Moved(l, l', f)
    ensures forall j :: Owing(l', j) == Owing(l, j)
    ensures forall t :: Sent(l', t) == Sent(l, t)
  {
    forall j ensures Owing(l', j) == Owing(l, j) {}
    forall t ensures Sent(l', t) == Sent(l, t) {}
  }

  // ---- steps that touch only the monitor or the workers

  lemma MonitorKeeps(s: System, s': System)
    requires Base(s) && WellFormed(s')
    requires s' == s.(mon := s'.mon, cancels := s'.cancels)
    ensures Base(s')
  {
  }

  lemma MovedFlights(l: seq<Flight>, l': seq<Flight>, f: nat, r: Results, submitted: seq<Job>, q: nat)
    requires Moved(l, l', f) && q <= |submitted| && FlightInv(l, r, submitted, q)
    ensures FlightInv(l', r, submitted, q)
  {
  }

  lemma MovedHosts(l: seq<Flight>, l': seq<Flight>, f: nat,
                   hosts: nat, pcstat: seq<HostStat>, nodesstat: seq<int>, sending: nat)
    requires Moved(l, l', f) && hosts < |pcstat| == |nodesstat|
    requires HostInv(hosts, pcstat, nodesstat, sending, l)
    ensures HostInv(hosts, pcstat, nodesstat, sending, l')
  {
    forall k | 1 <= k <= hosts && pcstat[k].Busy? ensures k == sending || Held(l', k) {
      if k != sending {
        assert Held(l, k);
        var g :| 0 <= g < |l| && l[g].Owed() && l[g].host == k;
        assert l'[g].Owed() && l'[g].host == k;
      }
    }
  }

  lemma MovedCounts(l: seq<Flight>, l': seq<Flight>, f: nat, r: Results, jobnodes: seq<int>, mine: int)
    requires Moved(l, l', f) && |jobnodes| == MAX_JOB_QUEUE && CountInv(jobnodes, mine, l, r)
    ensures CountInv(jobnodes, mine, l', r)
  {
    MovedSets(l, l', f);
    assert forall j :: Pending(l', r, j) == Pending(l, r, j);
  }

  lemma MovedWindow(l: seq<Flight>, l': seq<Flight>, f: nat, r: Results, d: Dispatcher, jobnodes: seq<int>, q: nat)
    requires Moved(l, l', f) && |jobnodes| == MAX_JOB_QUEUE && WindowInv(d, jobnodes, l, r, q)
    ensures WindowInv(d, jobnodes, l', r, q)
  {
    MovedSets(l, l', f);
    assert forall j :: Pending(l', r, j) == Pending(l, r, j);
  }

  lemma MovedDuty(l: seq<Flight>, l': seq<Flight>, f: nat,
                  d: Dispatcher, hosts: nat, submitted: seq<Job>, q: nat, inHand: int)
    requires Moved(l, l', f) && q <= |submitted|
    requires DutyInv(d, hosts, l, submitted, q) && SentInv(l, submitted, q, inHand, hosts)
    ensures DutyInv(d, hosts, l', submitted, q) && SentInv(l', submitted, q, inHand, hosts)
  {
    MovedSets(l, l', f);
  }

  lemma MovedClosed(l: seq<Flight>, l': seq<Flight>, f: nat, r: Results, t: int)
    requires Moved(l, l', f)
    ensures AllClosed(l', r, t) <==> AllClosed(l, r, t)
  {
    assert forall g :: 0 <= g < |l| ==> (Open(l', r, g) <==> Open(l, r, g)) && l'[g].ticket == l[g].ticket;
    if AllClosed(l', r, t) {
      forall g | 0 <= g < |l| && l[g].ticket == t ensures !Open(l, r, g) {
        assert l'[g].ticket == t;
      }
    }
  }

  lemma MovedDone(l: seq<Flight>, l': seq<Flight>, f: nat, finished: seq<nat>, r: Results,
                  submitted: seq<Job>, q: nat, inHand: int, hosts: nat)
    requires Moved(l, l', f) && q <= |submitted| && DoneInv(finished, l, r, submitted, q, inHand, hosts)
    ensures DoneInv(finished, l', r, submitted, q, inHand, hosts)
  {
    forall t ensures AllClosed(l', r, t) <==> AllClosed(l, r, t) {
      MovedClosed(l, l', f, r, t);
    }
  }

  lemma WorkerKeeps(s: System, s': System, f: nat)
    requires Base(s) && WellFormed(s') && Moved(s.ledger, s'.ledger, f)
    requires s' == s.(ledger := s'.ledger, cancels := s'.cancels)
    ensures Base(s')
  {
    MovedFlights(s.ledger, s'.ledger, f, s.r, s.submitted, |s.popped|);
    MovedHosts(s.ledger, s'.ledger, f, s.m.hosts, s.m.pcstat, s.m.nodesstat, Sending(s.d));
    MovedCounts(s.ledger, s'.ledger, f, s.r, s.m.jobnodes, Mine(s.d));
    MovedWindow(s.ledger, s'.ledger, f, s.r, s.d, s.m.jobnodes, |s.popped|);
    MovedDuty(s.ledger, s'.ledger, f, s.d, s.m.hosts, s.submitted, |s.popped|, InHand(s));
    MovedDone(s.ledger, s'.ledger, f, s.finished, s.r, s.submitted, |s.popped|, InHand(s), s.m.hosts);
  }

  // ---- the push half of a submit

  /** A job the dispatcher holds sits at `head` only when the ring is full. */
  lemma HeadNotMine(s: System)
    requires Base(s) && !s.m.IsFull()
    ensures s.m.head == SlotOf(|s.submitted|) && s.m.head != Mine(s.d)
  {
    var p, q := |s.submitted|, |s.popped|;
    RingArithmetic(p, q);
    if !s.d.Idle? {
      SlotShift(q - 1, p - q + 1);
    }
  }

  lemma CountOf(s: System, j: nat)
    requires Base(s) && j < MAX_JOB_QUEUE && j != Mine(s.d)
    ensures s.m.jobnodes[j] == |Owing(s.ledger, j)| + Pending(s.ledger, s.r, j)
  {
  }

  lemma ClosedMeansZero(l: seq<Flight>, r: Results, job: nat)
    requires !r.Waiting? ==> r.f < |l|
    ensures |Owing(l, job)| + Pending(l, r, job) == 0 && (!r.Waiting? ==> l[r.f].job != job)
            <==> forall f :: 0 <= f < |l| && Open(l, r, f) ==> l[f].job != job
  {
    assert forall f :: 0 <= f < |l| && l[f].job == job && l[f].Owed() <==> f in Owing(l, job);
    if |Owing(l, job)| > 0 {
      var f :| f in Owing(l, job);
      assert Open(l, r, f);
    } else if !r.Waiting? {
      assert Open(l, r, r.f);
    }
  }

  lemma HeadFlights(l: seq<Flight>, r: Results, submitted: seq<Job>, q: nat, f: int)
    requires q <= |submitted| && FlightInv(l, r, submitted, q) && 0 <= f < |l| && Open(l, r, f)
    ensures l[f].job != SlotOf(|submitted|) <==> |submitted| < l[f].ticket + MAX_JOB_QUEUE
  {
    var t := l[f].ticket;
    assert t < |submitted| <= t + MAX_JOB_QUEUE;
  }

  lemma HeadFree(s: System)
    requires Base(s) && !s.m.IsFull()
    ensures NoLap(s) <==> forall f :: 0 <= f < |s.ledger| && Open(s.ledger, s.r, f) ==> s.ledger[f].job != s.m.head
  {
    HeadNotMine(s);
    CountOf(s, s.m.head);
    ClosedMeansZero(s.ledger, s.r, s.m.head);
  }

  /** Without a lap no open flight uses the slot at `head`; with one, some flight does. */
  lemma NoLapMeansClosed(s: System)
    requires Base(s) && !s.m.IsFull()
    ensures NoLap(s) <==> forall f :: 0 <= f < |s.ledger| && Open(s.ledger, s.r, f) ==>
                            |s.submitted| < s.ledger[f].ticket + MAX_JOB_QUEUE
  {
    HeadFree(s);
    forall f | 0 <= f < |s.ledger| && Open(s.ledger, s.r, f)
      ensures s.ledger[f].job != s.m.head <==> |s.submitted| < s.ledger[f].ticket + MAX_JOB_QUEUE
    {
      HeadFlights(s.ledger, s.r, s.submitted, |s.popped|, f);
    }
  }

  lemma PushRing(jobq: seq<Slot>, submitted: seq<Job>, q: nat, finished: seq<nat>, job: Job)
    requires |jobq| == MAX_JOB_QUEUE && RingInv(jobq, submitted, q, finished)
    requires q <= |submitted| && |submitted| + 1 < q + MAX_JOB_QUEUE && job.req >= 1
    ensures var h := SlotOf(|submitted|);
            RingInv(jobq[h := Slot(job.comm, job.user, job.req, InQueue, h)], submitted + [job], q, finished)
  {
    var p := |submitted|;
    forall t | 0 <= t < p < t + MAX_JOB_QUEUE ensures SlotOf(t) != SlotOf(p) {}
  }

  lemma FullMeansWindow(s: System)
    requires Base(s)
    ensures s.m.IsFull() <==> |s.submitted| + 1 == |s.popped| + MAX_JOB_QUEUE
  {
    RingArithmetic(|s.submitted|, |s.popped|);
  }

  lemma PushFlights(l: seq<Flight>, r: Results, submitted: seq<Job>, q: nat, job: Job)
    requires q <= |submitted| && FlightInv(l, r, submitted, q)
    requires forall f :: 0 <= f < |l| && Open(l, r, f) ==> |submitted| < l[f].ticket + MAX_JOB_QUEUE
    ensures FlightInv(l, r, submitted + [job], q)
  {
  }

  lemma PushDuty(d: Dispatcher, l: seq<Flight>, r: Results, submitted: seq<Job>, q: nat, finished: seq<nat>,
                 inHand: int, hosts: nat, job: Job)
    requires q <= |submitted| && DutyInv(d, hosts, l, submitted, q) && SentInv(l, submitted, q, inHand, hosts)
    requires DoneInv(finished, l, r, submitted, q, inHand, hosts)
    ensures var more := submitted + [job];
            DutyInv(d, hosts, l, more, q) && SentInv(l, more, q, inHand, hosts)
            && DoneInv(finished, l, r, more, q, inHand, hosts)
  {
    assert forall t :: 0 <= t < q ==> (submitted + [job])[t] == submitted[t];
  }

  lemma PushKeeps(s: System)
    requires Base(s) && s.mon.Pushing? && BaseOk(s, SubmitPush)
    ensures Base(PushStep(s))
  {
    var s' := PushStep(s);
    PushWellFormed(s);
    FullMeansWindow(s);
    PushRing(s.m.jobq, s.submitted, |s.popped|, s.finished, s.mon.job);
    NoLapMeansClosed(s);
    PushFlights(s.ledger, s.r, s.submitted, |s.popped|, s.mon.job);
    PushDuty(s.d, s.ledger, s.r, s.submitted, |s.popped|, s.finished, InHand(s), s.m.hosts, s.mon.job);
  }

  lemma RingRefuses(jobq: seq<Slot>, submitted: seq<Job>, q: nat, finished: seq<nat>, job: Job)
    requires |jobq| == MAX_JOB_QUEUE && (job.req < 1 || |submitted| + 1 >= q + MAX_JOB_QUEUE)
    ensures !RingInv(jobq, submitted + [job], q, finished)
  {
    assert (submitted + [job])[|submitted|] == job;
  }

  lemma FlightsRefuse(l: seq<Flight>, r: Results, submitted: seq<Job>, q: nat, f: int)
    requires q <= |submitted| && 0 <= f < |l| && Open(l, r, f) && |submitted| > l[f].ticket + MAX_JOB_QUEUE
    ensures !FlightInv(l, r, submitted, q)
  {
  }

  lemma PushLaps(s: System)
    requires Base(s) && s.mon.Pushing? && !s.m.IsFull() && !NoLap(s)
    ensures !FlightInv(s.ledger, s.r, s.submitted + [s.mon.job], |s.popped|)
  {
    NoLapMeansClosed(s);
    var f :| 0 <= f < |s.ledger| && Open(s.ledger, s.r, f) && |s.submitted| >= s.ledger[f].ticket + MAX_JOB_QUEUE;
    FlightsRefuse(s.ledger, s.r, s.submitted + [s.mon.job], |s.popped|, f);
  }

  lemma PushBreaks(s: System)
    requires Base(s) && s.mon.Pushing? && !BaseOk(s, SubmitPush)
    ensures !Base(PushStep(s))
  {
    if s.mon.job.req < 1 {
      RingRefuses(PushJob(s.m, s.mon.job).jobq, s.submitted, |s.popped|, s.finished, s.mon.job);
    } else if s.m.IsFull() {
      FullMeansWindow(s);
      RingRefuses(PushJob(s.m, s.mon.job).jobq, s.submitted, |s.popped|, s.finished, s.mon.job);
    } else {
      PushLaps(s);
    }
  }
}
