/** What the invariant means for the scheduler: conservation of hosts, exact
    completion, all-or-nothing dispatch, first-in first-out, precise cancels. */
module Safety {
  import opened JobQueue
  import opened Machine
  import opened Invariant
  import opened Hosting
  import DispatchSteps

  // ---- sets of equal size

  lemma Pick<T>(a: set<T>) returns (x: T)
    requires a != {}
    ensures x in a
  {
    x :| x in a;
  }

  lemma {:induction false} Injects(a: set<int>, b: set<nat>, g: int -> nat)
    requires forall x :: x in a ==> g(x) in b
    requires forall x, y :: x in a && y in a && g(x) == g(y) ==> x == y
    ensures |a| <= |b|
    decreases |a|
  {
    if a != {} {
      var x := Pick(a);
      Injects(a - {x}, b - {g(x)}, g);
    }
  }

  lemma {:induction false} Covers(a: set<int>, b: set<nat>, g: int -> nat)
    requires forall h :: h in b ==> exists x :: x in a && g(x) == h
    ensures |b| <= |a|
    decreases |b|
  {
    if b != {} {
      var h := Pick(b);
      var x :| x in a && g(x) == h;
      forall h' | h' in b - {h} ensures exists y :: y in a - {x} && g(y) == h' {
        var y :| y in a && g(y) == h';
        assert y in a - {x};
      }
      Covers(a - {x}, b - {h}, g);
    }
  }

  // ---- conservation

  /** Submits for `job` still on their way: sent, executing or returning. */
  ghost function InFlight(l: seq<Flight>, job: int): set<int> {
    set f | 0 <= f < |l| && l[f].job == job && l[f].Owed() && !l[f].phase.Lost?
  }

  ghost function Dropped(l: seq<Flight>, job: int): set<int> {
    set f | 0 <= f < |l| && l[f].job == job && l[f].phase.Lost?
  }

  lemma OwingSplits(l: seq<Flight>, job: int)
    ensures |Owing(l, job)| == |InFlight(l, job)| + |Dropped(l, job)|
  {
    assert Owing(l, job) == InFlight(l, job) + Dropped(l, job);
  }

  lemma HeldIsOwing(m: Tables, sending: nat, l: seq<Flight>, job: int)
    requires m.Shaped() && HostInv(m.hosts, m.pcstat, m.nodesstat, sending, l)
    ensures |BusyWith(m, job) - {sending}| == |Owing(l, job)|
  {
    var g := (f: int) => if 0 <= f < |l| then l[f].host else 0;
    forall h | h in BusyWith(m, job) - {sending} ensures exists f :: f in Owing(l, job) && g(f) == h {
      var f :| 0 <= f < |l| && l[f].Owed() && l[f].host == h;
      assert f in Owing(l, job) && g(f) == h;
    }
    Injects(Owing(l, job), BusyWith(m, job) - {sending}, g);
    Covers(Owing(l, job), BusyWith(m, job) - {sending}, g);
  }

  lemma SendingIsBusy(m: Tables, d: Dispatcher, job: int)
    requires m.Shaped() && BookInv(m.hosts, m.pcstat, m.nodesstat, d)
    ensures Sending(d) in BusyWith(m, job) <==> Sending(d) != 0 && Mine(d) == job
  {
  }

  /** Hosts booked for `job` are those its outstanding flights hold, and the one whose
      submit is about to be sent. */
  lemma BusyIsOwing(s: System, job: int)
    requires Base(s)
    ensures |BusyWith(s.m, job)| == |Owing(s.ledger, job)| + if Sending(s.d) != 0 && Mine(s.d) == job then 1 else 0
  {
    var sending, busy := Sending(s.d), BusyWith(s.m, job);
    HeldIsOwing(s.m, sending, s.ledger, job);
    SendingIsBusy(s.m, s.d, job);
    if sending in busy {
      assert busy == (busy - {sending}) + {sending};
    } else {
      assert busy == busy - {sending};
    }
  }

  /** Outside the dispatch window a job's counter is the number of hosts booked for it,
      and the number of its submits in flight, executing, returning or lost; plus one
      while the result thread has freed a host and not yet counted it. */
  lemma Conservation(s: System, job: nat)
    requires Base(s) && job < MAX_JOB_QUEUE && job != Mine(s.d)
    ensures var pending := Pending(s.ledger, s.r, job);
            && s.m.jobnodes[job] == |BusyWith(s.m, job)| + pending
            && s.m.jobnodes[job] == |InFlight(s.ledger, job)| + |Dropped(s.ledger, job)| + pending
  {
    BusyIsOwing(s, job);
    OwingSplits(s.ledger, job);
  }

  /** Inside the window the booked hosts are the submits sent so far and the one about to be
      sent, less the returns already taken; the counter holds minus those already counted. */
  lemma ConservationInWindow(s: System)
    requires Base(s) && s.d.Booking?
    ensures s.m.jobnodes[s.d.w.job] <= 0
    ensures |BusyWith(s.m, s.d.w.job)| + Pending(s.ledger, s.r, s.d.w.job) ==
            s.d.i - 1 + s.m.jobnodes[s.d.w.job] + if s.d.at.Send? then 1 else 0
  {
    BusyIsOwing(s, s.d.w.job);
  }

  lemma NothingOwedYet(s: System)
    requires Base(s) && s.d.Counting?
    ensures Owing(s.ledger, s.d.w.job) == {} && Pending(s.ledger, s.r, s.d.w.job) == 0
    ensures s.m.jobnodes[s.d.w.job] == 0
  {
  }

  function Sum(counts: seq<int>): int {
    if counts == [] then 0 else Sum(counts[..|counts| - 1]) + counts[|counts| - 1]
  }

  /** The busy hosts working for one of the jobs below `n`. */
  ghost function BusyBelow(m: Tables, n: nat): set<nat>
    requires m.Shaped()
  {
    set h: nat | 1 <= h <= m.hosts && m.pcstat[h] == Busy && 0 <= m.nodesstat[h] < n
  }

  lemma {:induction false} SumOfBusy(m: Tables, counts: seq<int>)
    requires m.Shaped() && forall j :: 0 <= j < |counts| ==> counts[j] == |BusyWith(m, j)|
    ensures Sum(counts) == |BusyBelow(m, |counts|)|
  {
    var n := |counts|;
    if n == 0 {
      assert BusyBelow(m, 0) == {};
    } else {
      SumOfBusy(m, counts[..n - 1]);
      assert BusyBelow(m, n) == BusyBelow(m, n - 1) + BusyWith(m, n - 1);
    }
  }

  ghost function HostsUpTo(n: nat): (all: set<nat>)
    ensures |all| == n && forall h :: h in all <==> 1 <= h <= n
  {
    if n == 0 then {} else HostsUpTo(n - 1) + {n}
  }

  lemma FreePlusBusy(m: Tables)
    requires m.Shaped()
    requires forall h: nat :: 1 <= h <= m.hosts && m.pcstat[h].Busy? ==> 0 <= m.nodesstat[h] < MAX_JOB_QUEUE
    ensures |FreeHosts(m)| + |BusyBelow(m, MAX_JOB_QUEUE)| == m.hosts
  {
    var all := HostsUpTo(m.hosts);
    assert all == FreeHosts(m) + BusyBelow(m, MAX_JOB_QUEUE);
  }

  /** Every host is free or booked for a job of the table. */
  lemma FreeOrBooked(s: System)
    requires Inv(s)
    ensures |FreeHosts(s.m)| + |BusyBelow(s.m, MAX_JOB_QUEUE)| == s.m.hosts
  {
    forall h: nat | 1 <= h <= s.m.hosts && s.m.pcstat[h].Busy? ensures 0 <= s.m.nodesstat[h] < MAX_JOB_QUEUE {
      if h != Sending(s.d) {
        assert Held(s.ledger, h);
      }
    }
    FreePlusBusy(s.m);
  }

  /** Between dispatches the counters and the free hosts always add up to the number of hosts. */
  lemma HostsConserved(s: System)
    requires Inv(s) && !s.d.Booking? && !s.r.Freed? && !s.r.Loaded?
    ensures Sum(s.m.jobnodes) + |FreeHosts(s.m)| == s.m.hosts
  {
    forall j: nat | j < MAX_JOB_QUEUE ensures s.m.jobnodes[j] == |BusyWith(s.m, j)| {
      if j == Mine(s.d) {
        BusyIsOwing(s, j);
        NothingOwedYet(s);
      } else {
        Conservation(s, j);
      }
    }
    SumOfBusy(s.m, s.m.jobnodes);
    FreeOrBooked(s);
  }

  // ---- completion

  /** A launched job's slot says FINISHED exactly when every one of its `req` returns has been
      taken and processed; a cancelled or lost submit counts like any other. */
  lemma CompletionExact(s: System, t: nat)
    requires Inv(s) && t < |s.popped| && t != InHand(s) && |s.submitted| <= t + MAX_JOB_QUEUE
    requires s.submitted[t].req <= s.m.hosts
    ensures |Sent(s.ledger, t)| == s.submitted[t].req
    ensures s.m.jobq[SlotOf(t)].stat == Finished <==> AllClosed(s.ledger, s.r, t)
    ensures s.m.jobq[SlotOf(t)].stat == if t in s.finished then Finished else Running
  {
  }

  /** The finish mark is written when the last return has been taken, on a running job, and
      never twice for one launch. */
  lemma FinishOnce(s: System)
    requires Inv(s) && s.r.Finishing?
    ensures var t := s.ledger[s.r.f].ticket;
            && |Sent(s.ledger, t)| == s.submitted[t].req
            && (forall f :: f in Sent(s.ledger, t) ==> s.ledger[f].phase.Credited?)
            && t !in s.finished
            && s.m.jobq[SlotOf(t)] == Slot(s.submitted[t].comm, s.submitted[t].user, s.submitted[t].req,
                                           Running, SlotOf(t))
            && ResultStep(s).m.jobq[SlotOf(t)].stat == Finished
  {
    var l, t := s.ledger, s.ledger[s.r.f].ticket;
    assert Open(l, s.r, s.r.f);
    if !s.d.Idle? {
      DispatchSteps.MineByTicket(l, s.r, s.d, s.m.hosts, s.submitted, |s.popped|);
    }
    forall f | f in Sent(l, t) ensures l[f].phase.Credited? {
      assert f !in Owing(l, l[s.r.f].job);
    }
    assert s.r.f in Sent(l, t);
    assert !AllClosed(l, s.r, t);
  }

  /** A return taken from the wire is credited to the launch that caused it: the slot it
      names still holds that launch's job, running. */
  lemma CreditedToItsLaunch(s: System, f: nat)
    requires Inv(s) && f < |s.ledger| && s.ledger[f].Owed()
    ensures var x := s.ledger[f];
            && s.m.jobq[x.job] == Slot(s.submitted[x.ticket].comm, s.submitted[x.ticket].user,
                                       s.submitted[x.ticket].req, Running, x.job)
            && x.comm == s.submitted[x.ticket].comm
            && forall g :: 0 <= g < |s.ledger| && Open(s.ledger, s.r, g) && s.ledger[g].job == x.job
                 ==> s.ledger[g].ticket == x.ticket
  {
    var l, x := s.ledger, s.ledger[f];
    assert Open(l, s.r, f);
    forall g | 0 <= g < |l| && Open(l, s.r, g) && l[g].job == x.job ensures l[g].ticket == x.ticket {
      SlotOfInjective(l[g].ticket, x.ticket);
    }
    if x.ticket != InHand(s) {
      assert !AllClosed(l, s.r, x.ticket);
    }
    assert x.ticket !in s.finished;
  }

  // ---- dispatch

  /** Every launch whose dispatch is over was sent exactly the submits it asked for, with its
      own command; an oversize one was sent none. */
  lemma AllOrNothing(s: System, t: nat)
    requires Inv(s) && t < |s.popped| && t != InHand(s)
    ensures var l := s.ledger;
            && |Sent(l, t)| == (if s.submitted[t].req <= s.m.hosts then s.submitted[t].req else 0)
            && forall f :: f in Sent(l, t) ==> 1 <= l[f].host <= s.m.hosts && l[f].comm == s.submitted[t].comm
  {
  }

  /** While a host is still needed the scan finds one, and it books only a free host. */
  lemma BookingNeverStarves(s: System)
    requires Inv(s) && s.d.Booking?
    ensures s.d.at.Look? && s.d.i <= s.d.w.need ==> s.d.k <= s.m.hosts
    ensures s.d.at.Take? ==> s.m.pcstat[s.d.k].Free?
    ensures s.d.i <= s.d.w.need + 1
  {
    if s.d.at.Look? && s.d.i <= s.d.w.need {
      DispatchSteps.LookFinds(s);
    }
  }

  // ---- cancel

  /** A cancel sweep for a job, read at any moment, selects a busy host exactly when the
      host holds an outstanding submit of that job or is about to be sent one. */
  lemma CancelPrecise(s: System, job: int, k: nat)
    requires Hosted(s) && 1 <= k <= s.m.hosts && s.m.pcstat[k].Busy?
    ensures s.m.nodesstat[k] == job <==>
              || (Sending(s.d) == k && Mine(s.d) == job)
              || exists f :: 0 <= f < |s.ledger| && s.ledger[f].Owed()
                             && s.ledger[f].host == k && s.ledger[f].job == job
  {
    if k != Sending(s.d) {
      assert Held(s.ledger, k);
    }
  }

  // ---- the ring

  ghost predicate InCycle(tail: nat, head: nat, i: nat) {
    if tail <= head then tail <= i < head else i >= tail || i < head
  }

  /** The ring is a window on an unbounded first-in first-out queue: the popped pairs are a
      prefix of the submitted ones and the queued slots hold the rest, in order. */
  lemma RingIsQueue(s: System)
    requires Inv(s)
    ensures var p, q := |s.submitted|, |s.popped|;
            && q <= p <= q + MAX_JOB_QUEUE - 1
            && s.m.head == SlotOf(p) && s.m.tail == SlotOf(q)
            && (s.m.IsEmpty() <==> p == q)
            && (s.m.IsFull() <==> p == q + MAX_JOB_QUEUE - 1)
            && (forall t :: 0 <= t < q ==> s.popped[t] == (s.submitted[t].comm, s.submitted[t].req))
            && forall t :: q <= t < p ==>
                 s.m.jobq[SlotOf(t)] ==
                 Slot(s.submitted[t].comm, s.submitted[t].user, s.submitted[t].req, InQueue, SlotOf(t))
  {
    RingArithmetic(|s.submitted|, |s.popped|);
  }

  /** The latest launch kept in slot `i`. */
  lemma Occupant(p: nat, i: nat) returns (t: nat)
    requires i < MAX_JOB_QUEUE && i < p
    ensures t < p <= t + MAX_JOB_QUEUE && SlotOf(t) == i
  {
    t := p - 1 - (p - 1 - i) % MAX_JOB_QUEUE;
  }

  lemma CycleOfTickets(p: nat, q: nat, t: nat)
    requires q <= p < q + MAX_JOB_QUEUE && t < p <= t + MAX_JOB_QUEUE
    ensures InCycle(SlotOf(q), SlotOf(p), SlotOf(t)) <==> q <= t
  {
    SlotShift(q, p - q);
    if q <= t {
      SlotShift(q, t - q);
    } else {
      SlotShift(t, q - t);
      SlotShift(t, p - t);
    }
  }

  /** A slot's status is INQUEUE exactly when the slot lies between `tail` and `head`. */
  lemma StatusIsPosition(s: System, i: nat)
    requires Inv(s) && i < MAX_JOB_QUEUE
    ensures s.m.jobq[i].stat == InQueue <==> InCycle(s.m.tail, s.m.head, i)
  {
    var p, q := |s.submitted|, |s.popped|;
    if i < p {
      var t := Occupant(p, i);
      CycleOfTickets(p, q, t);
      assert s.m.jobq[SlotOf(t)].stat == StatOf(q, s.finished, t);
    } else {
      assert s.m.jobq[i].stat.Unknown?;
    }
  }
}
