/** The dispatcher's steps keep the invariant: pop, count, and the five accesses of
    a booking. */
module DispatchSteps {
  import opened JobQueue
  import opened Machine
  import opened Invariant
  import Steps

  // ---- taking a job off the ring

  lemma PopRing(jobq: seq<Slot>, submitted: seq<Job>, q: nat, finished: seq<nat>)
    requires |jobq| == MAX_JOB_QUEUE && RingInv(jobq, submitted, q, finished) && q < |submitted|
    requires q !in finished
    ensures var j := SlotOf(q);
            RingInv(jobq[j := jobq[j].(stat := Running)], submitted, q + 1, finished)
    ensures jobq[SlotOf(q)] == Slot(submitted[q].comm, submitted[q].user, submitted[q].req, InQueue, SlotOf(q))
  {
    forall t | 0 <= t < |submitted| <= t + MAX_JOB_QUEUE && t != q ensures SlotOf(t) != SlotOf(q) {
      if SlotOf(t) == SlotOf(q) {
        SlotOfInjective(t, q);
      }
    }
  }

  /** Nothing is outstanding for the slot of the next job to pop. */
  lemma TailClosed(l: seq<Flight>, r: Results, submitted: seq<Job>, q: nat, jobnodes: seq<int>)
    requires q < |submitted| < q + MAX_JOB_QUEUE && |jobnodes| == MAX_JOB_QUEUE
    requires FlightInv(l, r, submitted, q) && CountInv(jobnodes, -1, l, r)
    ensures jobnodes[SlotOf(q)] == 0 && CountInv(jobnodes, SlotOf(q), l, r)
    ensures |Owing(l, SlotOf(q))| + Pending(l, r, SlotOf(q)) == 0
  {
    forall f | 0 <= f < |l| && Open(l, r, f) ensures l[f].job != SlotOf(q) {
      if l[f].job == SlotOf(q) {
        SlotOfInjective(l[f].ticket, q);
      }
    }
    Steps.ClosedMeansZero(l, r, SlotOf(q));
  }

  lemma NothingSent(l: seq<Flight>, r: Results, submitted: seq<Job>, q: nat)
    requires q <= |submitted| && FlightInv(l, r, submitted, q)
    ensures Sent(l, q) == {} && AllClosed(l, r, q)
  {
  }

  lemma PopLaunch(l: seq<Flight>, r: Results, submitted: seq<Job>, q: nat, finished: seq<nat>, hosts: nat)
    requires q < |submitted| && Sent(l, q) == {} && AllClosed(l, r, q)
    requires SentInv(l, submitted, q, -1, hosts) && DoneInv(finished, l, r, submitted, q, -1, hosts)
    ensures var inHand := if submitted[q].req <= hosts then q else -1;
            SentInv(l, submitted, q + 1, inHand, hosts) && DoneInv(finished, l, r, submitted, q + 1, inHand, hosts)
  {
  }

  /** The dispatcher's duty for a job just popped, or none for an oversize one. */
  lemma PopDuty(w: Work, hosts: nat, l: seq<Flight>, r: Results, jobnodes: seq<int>, submitted: seq<Job>, q: nat)
    requires q < |submitted| && Sent(l, q) == {} && |jobnodes| == MAX_JOB_QUEUE && jobnodes[SlotOf(q)] == 0
    requires w == Work(SlotOf(q), submitted[q].comm, submitted[q].req)
    requires |Owing(l, SlotOf(q))| + Pending(l, r, SlotOf(q)) == 0
    ensures var d := if w.need <= hosts then Counting(w, 0, 1) else Idle;
            DutyInv(d, hosts, l, submitted, q + 1) && WindowInv(d, jobnodes, l, r, q + 1)
  {
  }

  lemma PopFifo(submitted: seq<Job>, popped: seq<(Text, int)>, x: (Text, int))
    requires FifoInv(submitted, popped) && |popped| < |submitted|
    requires x == (submitted[|popped|].comm, submitted[|popped|].req)
    ensures FifoInv(submitted, popped + [x])
  {
  }

  lemma PopFlights(l: seq<Flight>, r: Results, submitted: seq<Job>, q: nat)
    requires q < |submitted| && FlightInv(l, r, submitted, q)
    ensures FlightInv(l, r, submitted, q + 1)
  {
  }

  lemma PopKeeps(s: System)
    requires Base(s) && s.d.Idle? && !s.m.IsEmpty()
    ensures Base(PopStep(s))
  {
    var s', q := PopStep(s), |s.popped|;
    PopWellFormed(s);
    TailWasPushed(s);
    PopRing(s.m.jobq, s.submitted, q, s.finished);
    PopFifo(s.submitted, s.popped, (s.submitted[q].comm, s.submitted[q].req));
    PopFlights(s.ledger, s.r, s.submitted, q);
    PopDispatch(s);
  }

  /** The dispatcher's own parts of the invariant after a pop. */
  lemma PopDispatch(s: System)
    requires Base(s) && s.d.Idle? && |s.popped| < |s.submitted|
    ensures var q := |s.popped|; var j := s.submitted[q];
            var d', inHand := if j.req <= s.m.hosts then Counting(Work(SlotOf(q), j.comm, j.req), 0, 1) else Idle,
                              if j.req <= s.m.hosts then q else -1;
            && DutyInv(d', s.m.hosts, s.ledger, s.submitted, q + 1)
            && WindowInv(d', s.m.jobnodes, s.ledger, s.r, q + 1)
            && CountInv(s.m.jobnodes, Mine(d'), s.ledger, s.r)
            && SentInv(s.ledger, s.submitted, q + 1, inHand, s.m.hosts)
            && DoneInv(s.finished, s.ledger, s.r, s.submitted, q + 1, inHand, s.m.hosts)
  {
    var q := |s.popped|;
    TailClosed(s.ledger, s.r, s.submitted, q, s.m.jobnodes);
    NothingSent(s.ledger, s.r, s.submitted, q);
    PopLaunch(s.ledger, s.r, s.submitted, q, s.finished, s.m.hosts);
    PopDuty(Work(SlotOf(q), s.submitted[q].comm, s.submitted[q].req), s.m.hosts, s.ledger, s.r, s.m.jobnodes,
            s.submitted, q);
  }

  // ---- counting free hosts

  /** Counting on, or leaving it with enough hosts free. */
  lemma CountDuty(d: Dispatcher, d': Dispatcher, hosts: nat, pcstat: seq<HostStat>, nodesstat: seq<int>,
                  jobnodes: seq<int>, l: seq<Flight>, r: Results, submitted: seq<Job>, q: nat)
    requires q <= |submitted| && |jobnodes| == MAX_JOB_QUEUE && hosts < |pcstat| == |nodesstat| && d.Counting?
    requires DutyInv(d, hosts, l, submitted, q) && WindowInv(d, jobnodes, l, r, q)
    requires d' == Booking(d.w, 1, 1, Look) || (d'.Counting? && d'.w == d.w && d'.count >= 0)
    ensures DutyInv(d', hosts, l, submitted, q) && WindowInv(d', jobnodes, l, r, q) && Mine(d') == Mine(d)
    ensures d.w.need >= 0 ==> (BookInv(hosts, pcstat, nodesstat, d') <==>
              d'.Booking? ==> |FreeFrom(hosts, pcstat, 1)| >= d.w.need)
  {
  }

  lemma CountPass(resets: bool, hosts: nat, pcstat: seq<HostStat>, w: Work, count: int, k: nat)
    requires 1 <= k <= hosts + 1 <= |pcstat| && PassInv(resets, hosts, pcstat, Counting(w, count, k))
    ensures k <= hosts ==>
              PassInv(resets, hosts, pcstat, Counting(w, if pcstat[k] == Free then count + 1 else count, k + 1))
    ensures k > hosts && count < w.need ==> PassInv(resets, hosts, pcstat, Counting(w, if resets then 0 else count, 1))
    ensures resets && k > hosts ==> count <= |FreeFrom(hosts, pcstat, 1)|
  {
    if k <= hosts {
      PassCounts(hosts, pcstat, k);
    } else {
      PassWhole(hosts, pcstat, k);
    }
  }

  lemma CountKeeps(s: System)
    requires Base(s) && s.d.Counting?
    ensures Base(CountStep(s)) <==> BaseOk(s, Dispatch)
  {
    CountDuty(s.d, CountStep(s).d, s.m.hosts, s.m.pcstat, s.m.nodesstat, s.m.jobnodes, s.ledger, s.r,
              s.submitted, |s.popped|);
    CountPass(s.resets, s.m.hosts, s.m.pcstat, s.d.w, s.d.count, s.d.k);
  }

  lemma PassFrees(hosts: nat, pcstat: seq<HostStat>, k: nat, h: nat)
    requires h <= hosts < |pcstat|
    ensures |FreeBelow(hosts, pcstat, k)| <= |FreeBelow(hosts, pcstat[h := Free], k)|
  {
    SubsetCard(FreeBelow(hosts, pcstat, k), FreeBelow(hosts, pcstat[h := Free], k));
  }

  lemma PassCounts(hosts: nat, pcstat: seq<HostStat>, k: nat)
    requires 1 <= k <= hosts < |pcstat|
    ensures |FreeBelow(hosts, pcstat, k + 1)| == |FreeBelow(hosts, pcstat, k)| + if pcstat[k].Free? then 1 else 0
  {
    assert FreeBelow(hosts, pcstat, k + 1) == FreeBelow(hosts, pcstat, k) + if pcstat[k].Free? then {k} else {};
  }

  lemma PassWhole(hosts: nat, pcstat: seq<HostStat>, k: nat)
    requires hosts < |pcstat| && k == hosts + 1
    ensures FreeBelow(hosts, pcstat, k) == FreeFrom(hosts, pcstat, 1)
  {
  }

  // ---- booking hosts

  lemma NoneBeyond(hosts: nat, pcstat: seq<HostStat>)
    requires hosts < |pcstat|
    ensures FreeFrom(hosts, pcstat, hosts + 1) == {}
  {
  }

  lemma FreeSkip(hosts: nat, pcstat: seq<HostStat>, k: nat)
    requires 1 <= k <= hosts < |pcstat| && pcstat[k].Busy?
    ensures FreeFrom(hosts, pcstat, k + 1) == FreeFrom(hosts, pcstat, k)
  {
  }

  lemma FreeSubset(hosts: nat, pcstat: seq<HostStat>, k: nat)
    requires 1 <= k && hosts < |pcstat|
    ensures |FreeFrom(hosts, pcstat, k)| <= |FreeFrom(hosts, pcstat, 1)|
  {
    SubsetCard(FreeFrom(hosts, pcstat, k), FreeFrom(hosts, pcstat, 1));
  }

  lemma SubsetCard<T>(a: set<T>, b: set<T>)
    requires a <= b
    ensures |a| <= |b|
  {
    assert b == a + (b - a);
  }

  lemma FreeTaken(hosts: nat, pcstat: seq<HostStat>, k: nat)
    requires 1 <= k <= hosts < |pcstat| && pcstat[k].Free?
    ensures |FreeFrom(hosts, pcstat[k := Busy], 1)| == |FreeFrom(hosts, pcstat, 1)| - 1
  {
    assert FreeFrom(hosts, pcstat[k := Busy], 1) == FreeFrom(hosts, pcstat, 1) - {k};
  }

  /** The scan of the hosts never runs off the end while a host is still needed. */
  lemma LookFinds(s: System)
    requires Base(s) && Books(s, Look) && s.d.i <= s.d.w.need
    ensures s.d.k <= s.m.hosts
  {
    NoneBeyond(s.m.hosts, s.m.pcstat);
  }

  lemma LookBook(hosts: nat, pcstat: seq<HostStat>, nodesstat: seq<int>, w: Work, i: int, k: nat)
    requires 1 <= k <= hosts < |pcstat| == |nodesstat| && i <= w.need
    requires BookInv(hosts, pcstat, nodesstat, Booking(w, i, k, Look))
    ensures BookInv(hosts, pcstat, nodesstat,
                    if pcstat[k] == Free then Booking(w, i, k, Name) else Booking(w, i, k + 1, Look))
  {
    if pcstat[k].Busy? {
      FreeSkip(hosts, pcstat, k);
    } else {
      FreeSubset(hosts, pcstat, k);
    }
  }

  /** Where a booking turn stands does not matter for what was sent and counted. */
  lemma ScanShift(d: Dispatcher, d': Dispatcher, hosts: nat, jobnodes: seq<int>, l: seq<Flight>, r: Results,
                  submitted: seq<Job>, q: nat)
    requires d.Booking? && d'.Booking? && d'.w == d.w && d'.i == d.i && q <= |submitted| && |jobnodes| == MAX_JOB_QUEUE
    requires DutyInv(d, hosts, l, submitted, q) && WindowInv(d, jobnodes, l, r, q)
    ensures DutyInv(d', hosts, l, submitted, q) && WindowInv(d', jobnodes, l, r, q) && Mine(d') == Mine(d)
  {
  }

  /** A turn that only moves on within a booking, with supply for it, keeps the invariant. */
  lemma ScanKeeps(s: System, s': System)
    requires Base(s) && WellFormed(s') && s' == s.(d := s'.d)
    requires s.d.Booking? && s'.d.Booking? && s'.d.w == s.d.w && s'.d.i == s.d.i && Sending(s'.d) == Sending(s.d)
    requires BookInv(s.m.hosts, s.m.pcstat, s.m.nodesstat, s'.d)
    ensures Base(s')
  {
    assert InHand(s') == InHand(s);
    ScanShift(s.d, s'.d, s.m.hosts, s.m.jobnodes, s.ledger, s.r, s.submitted, |s.popped|);
  }

  lemma LookKeeps(s: System)
    requires Base(s) && Books(s, Look) && s.d.i <= s.d.w.need
    ensures Base(LookStep(s))
  {
    LookWellFormed(s);
    LookParts(s);
    ScanKeeps(s, LookStep(s));
  }

  lemma LookParts(s: System)
    requires Base(s) && Books(s, Look) && s.d.i <= s.d.w.need
    ensures var d' := LookStep(s).d;
            && LookStep(s) == s.(d := d') && d'.Booking? && d'.w == s.d.w && d'.i == s.d.i
            && Sending(d') == Sending(s.d) && BookInv(s.m.hosts, s.m.pcstat, s.m.nodesstat, d')
  {
    LookFinds(s);
    LookFacts(s);
    LookBook(s.m.hosts, s.m.pcstat, s.m.nodesstat, s.d.w, s.d.i, s.d.k);
  }

  lemma LookFacts(s: System)
    requires WellFormed(s) && Books(s, Look) && s.d.k <= s.m.hosts
    ensures LookStep(s) == s.(d := if s.m.pcstat[s.d.k] == Free then Booking(s.d.w, s.d.i, s.d.k, Name)
                                   else Booking(s.d.w, s.d.i, s.d.k + 1, Look))
  {
  }

  lemma NameHosts(hosts: nat, pcstat: seq<HostStat>, nodesstat: seq<int>, l: seq<Flight>, k: nat, job: nat)
    requires 1 <= k <= hosts < |pcstat| == |nodesstat| && pcstat[k].Free?
    requires HostInv(hosts, pcstat, nodesstat, 0, l)
    ensures HostInv(hosts, pcstat, nodesstat[k := job], 0, l)
  {
  }

  lemma NameKeeps(s: System)
    requires Base(s) && Books(s, Name)
    ensures Base(NameStep(s))
  {
    BookWellFormed(s);
    NameHosts(s.m.hosts, s.m.pcstat, s.m.nodesstat, s.ledger, s.d.k, s.d.w.job);
    ScanShift(s.d, NameStep(s).d, s.m.hosts, s.m.jobnodes, s.ledger, s.r, s.submitted, |s.popped|);
  }

  lemma TakeHosts(hosts: nat, pcstat: seq<HostStat>, nodesstat: seq<int>, l: seq<Flight>, k: nat)
    requires 1 <= k <= hosts < |pcstat| == |nodesstat| && pcstat[k].Free?
    requires HostInv(hosts, pcstat, nodesstat, 0, l)
    ensures HostInv(hosts, pcstat[k := Busy], nodesstat, k, l)
  {
  }

  lemma TakeBook(hosts: nat, pcstat: seq<HostStat>, nodesstat: seq<int>, w: Work, i: int, k: nat)
    requires 1 <= k <= hosts < |pcstat| == |nodesstat|
    requires BookInv(hosts, pcstat, nodesstat, Booking(w, i, k, Take))
    ensures BookInv(hosts, pcstat[k := Busy], nodesstat, Booking(w, i, k, Send))
  {
    FreeTaken(hosts, pcstat, k);
  }

  lemma TakeKeeps(s: System)
    requires Base(s) && Books(s, Take)
    ensures Base(TakeStep(s))
  {
    BookWellFormed(s);
    TakeHosts(s.m.hosts, s.m.pcstat, s.m.nodesstat, s.ledger, s.d.k);
    ScanShift(s.d, TakeStep(s).d, s.m.hosts, s.m.jobnodes, s.ledger, s.r, s.submitted, |s.popped|);
    TakeBook(s.m.hosts, s.m.pcstat, s.m.nodesstat, s.d.w, s.d.i, s.d.k);
  }

  // ---- sending one submit

  lemma SendHosts(hosts: nat, pcstat: seq<HostStat>, nodesstat: seq<int>, l: seq<Flight>, x: Flight)
    requires hosts < |pcstat| == |nodesstat| && HostInv(hosts, pcstat, nodesstat, x.host, l)
    requires 1 <= x.host <= hosts && pcstat[x.host].Busy? && nodesstat[x.host] == x.job && x.Owed()
    ensures HostInv(hosts, pcstat, nodesstat, 0, l + [x])
  {
    var l' := l + [x];
    forall k | 1 <= k <= hosts && pcstat[k].Busy? ensures Held(l', k) {
      if k == x.host {
        assert l'[|l|] == x;
      } else {
        var f :| 0 <= f < |l| && l[f].Owed() && l[f].host == k;
        assert l'[f] == l[f];
      }
    }
  }

  lemma SendFlights(l: seq<Flight>, x: Flight, r: Results, submitted: seq<Job>, q: nat)
    requires q <= |submitted| && FlightInv(l, r, submitted, q)
    requires x.ticket < q && x.job == SlotOf(x.ticket) && x.comm == submitted[x.ticket].comm
    requires |submitted| <= x.ticket + MAX_JOB_QUEUE
    ensures FlightInv(l + [x], r, submitted, q)
  {
  }

  lemma SendCounts(l: seq<Flight>, x: Flight, r: Results, jobnodes: seq<int>)
    requires |jobnodes| == MAX_JOB_QUEUE && CountInv(jobnodes, x.job, l, r) && x.Owed()
    requires !r.Waiting? ==> r.f < |l|
    ensures CountInv(jobnodes, x.job, l + [x], r)
  {
    forall j ensures |Owing(l + [x], j)| == |Owing(l, j)| + if j == x.job then 1 else 0 {
      Steps.OwingAdds(l, x, j);
    }
    forall j ensures Pending(l + [x], r, j) == Pending(l, r, j) {}
    if r.Finishing? {
      assert (l + [x])[r.f] == l[r.f];
      assert |Owing(l, l[r.f].job)| == 0;
      assert |Owing(l + [x], l[r.f].job)| == 0;
    }
  }

  lemma SendWindow(l: seq<Flight>, x: Flight, r: Results, d: Dispatcher, d': Dispatcher, jobnodes: seq<int>, q: nat)
    requires |jobnodes| == MAX_JOB_QUEUE && WindowInv(d, jobnodes, l, r, q) && (!r.Waiting? ==> r.f < |l|)
    requires d.Booking? && d'.Booking? && d'.w == d.w && x.job == d.w.job && x.ticket == q - 1 && x.Owed()
    ensures WindowInv(d', jobnodes, l + [x], r, q)
  {
    Steps.OwingAdds(l, x, x.job);
    Steps.SentAdds(l, x, q - 1);
  }

  lemma SendClosed(l: seq<Flight>, x: Flight, r: Results, t: int)
    requires (!r.Waiting? ==> r.f < |l|) && t != x.ticket
    ensures AllClosed(l + [x], r, t) <==> AllClosed(l, r, t)
  {
    var l' := l + [x];
    assert forall g :: 0 <= g < |l| ==> l'[g] == l[g];
    if AllClosed(l', r, t) {
      forall g | 0 <= g < |l| && l[g].ticket == t ensures !Open(l, r, g) {
        assert l'[g] == l[g];
      }
    }
  }

  lemma SendDone(l: seq<Flight>, x: Flight, finished: seq<nat>, r: Results,
                 submitted: seq<Job>, q: nat, hosts: nat)
    requires q <= |submitted| && DoneInv(finished, l, r, submitted, q, x.ticket, hosts)
    requires !r.Waiting? ==> r.f < |l|
    ensures DoneInv(finished, l + [x], r, submitted, q, x.ticket, hosts)
  {
    forall t: int | t != x.ticket ensures AllClosed(l + [x], r, t) <==> AllClosed(l, r, t) {
      SendClosed(l, x, r, t);
    }
  }

  lemma SendDuty(l: seq<Flight>, x: Flight, d: Dispatcher, d': Dispatcher, hosts: nat,
                 submitted: seq<Job>, q: nat)
    requires q <= |submitted| && d.Booking? && DutyInv(d, hosts, l, submitted, q)
    requires SentInv(l, submitted, q, q - 1, hosts)
    requires x.ticket == q - 1 && x.Owed() && d'.Booking? && d'.w == d.w && d'.i == d.i + 1
    ensures DutyInv(d', hosts, l + [x], submitted, q)
    ensures SentInv(l + [x], submitted, q, q - 1, hosts)
  {
    forall t ensures |Sent(l + [x], t)| == |Sent(l, t)| + if t == x.ticket then 1 else 0 {
      Steps.SentAdds(l, x, t);
    }
  }

  /** A return in the result thread's hands names the job in hand exactly when it belongs
      to the launch in hand. */
  lemma MineByTicket(l: seq<Flight>, r: Results, d: Dispatcher, hosts: nat, submitted: seq<Job>, q: nat)
    requires q <= |submitted| < q + MAX_JOB_QUEUE && !d.Idle? && !r.Waiting?
    requires FlightInv(l, r, submitted, q) && DutyInv(d, hosts, l, submitted, q)
    ensures l[r.f].job == d.w.job <==> l[r.f].ticket == q - 1
  {
    assert Open(l, r, r.f);
    if l[r.f].job == d.w.job {
      SlotOfInjective(l[r.f].ticket, q - 1);
    }
  }

  lemma SendBook(hosts: nat, pcstat: seq<HostStat>, nodesstat: seq<int>, w: Work, i: int, k: nat)
    requires hosts < |pcstat| == |nodesstat| && BookInv(hosts, pcstat, nodesstat, Booking(w, i, k, Send))
    ensures BookInv(hosts, pcstat, nodesstat, Booking(w, i + 1, 1, Look))
  {
  }

  lemma SendKeeps(s: System)
    requires Base(s) && Books(s, Send)
    ensures Base(SendStep(s))
  {
    var s', q, l, r := SendStep(s), |s.popped|, s.ledger, s.r;
    var x := Flight(s.d.k, s.d.w.job, s.d.w.comm, q - 1, Submitted);
    BookWellFormed(s);
    SendHosts(s.m.hosts, s.m.pcstat, s.m.nodesstat, l, x);
    SendFlights(l, x, r, s.submitted, q);
    SendCounts(l, x, r, s.m.jobnodes);
    SendDone(l, x, s.finished, r, s.submitted, q, s.m.hosts);
    SendDispatch(s, x, s'.d);
  }

  /** The dispatcher's own parts of the invariant after a send. */
  lemma SendDispatch(s: System, x: Flight, d': Dispatcher)
    requires Base(s) && Books(s, Send) && d' == Booking(s.d.w, s.d.i + 1, 1, Look)
    requires x == Flight(s.d.k, s.d.w.job, s.d.w.comm, |s.popped| - 1, Submitted)
    ensures var q, l' := |s.popped|, s.ledger + [x];
            && DutyInv(d', s.m.hosts, l', s.submitted, q) && SentInv(l', s.submitted, q, q - 1, s.m.hosts)
            && WindowInv(d', s.m.jobnodes, l', s.r, q) && BookInv(s.m.hosts, s.m.pcstat, s.m.nodesstat, d')
            && PassInv(s.resets, s.m.hosts, s.m.pcstat, d')
  {
    SendWindow(s.ledger, x, s.r, s.d, d', s.m.jobnodes, |s.popped|);
    SendDuty(s.ledger, x, s.d, d', s.m.hosts, s.submitted, |s.popped|);
    SendBook(s.m.hosts, s.m.pcstat, s.m.nodesstat, s.d.w, s.d.i, s.d.k);
  }

  // ---- writing the counter

  /** Everything owed for the job in hand was sent for the launch in hand. */
  lemma MineOwed(l: seq<Flight>, r: Results, d: Dispatcher, hosts: nat, submitted: seq<Job>, q: nat)
    requires q <= |submitted| < q + MAX_JOB_QUEUE && !d.Idle?
    requires FlightInv(l, r, submitted, q) && DutyInv(d, hosts, l, submitted, q)
    ensures forall f :: 0 <= f < |l| && l[f].job == d.w.job && Open(l, r, f) ==> l[f].ticket == q - 1
  {
    forall f | 0 <= f < |l| && l[f].job == d.w.job && Open(l, r, f) ensures l[f].ticket == q - 1 {
      SlotOfInjective(l[f].ticket, q - 1);
    }
  }

  /** A launch with a return still to be counted is not closed. */
  lemma StillOpen(l: seq<Flight>, r: Results, job: nat, t: int)
    requires |Owing(l, job)| + Pending(l, r, job) > 0
    requires forall f :: 0 <= f < |l| && l[f].job == job && Open(l, r, f) ==> l[f].ticket == t
    ensures !AllClosed(l, r, t)
  {
    if |Owing(l, job)| > 0 {
      var f :| f in Owing(l, job);
      assert Open(l, r, f);
    } else {
      assert Open(l, r, r.f);
    }
  }

  lemma PublishDone(finished: seq<nat>, l: seq<Flight>, r: Results, submitted: seq<Job>, q: nat, hosts: nat)
    requires 1 <= q <= |submitted| && DoneInv(finished, l, r, submitted, q, q - 1, hosts)
    requires !AllClosed(l, r, q - 1)
    ensures DoneInv(finished, l, r, submitted, q, -1, hosts)
  {
  }

  lemma PublishCounts(jobnodes: seq<int>, job: nat, l: seq<Flight>, r: Results, n: int)
    requires |jobnodes| == MAX_JOB_QUEUE && job < MAX_JOB_QUEUE && CountInv(jobnodes, job, l, r)
    requires jobnodes[job] <= 0 < n && (r.Freed? || r.Loaded? ==> r.f < |l|)
    ensures CountInv(jobnodes[job := n], -1, l, r) <==>
              n == |Owing(l, job)| + Pending(l, r, job) && !(r.Loaded? && l[r.f].job == job)
  {
    var jobnodes' := jobnodes[job := n];
    if CountInv(jobnodes', -1, l, r) {
      assert jobnodes'[job] == n;
    }
  }

  /** A booking that is over has sent as many submits as its job asked for. */
  lemma PublishSent(l: seq<Flight>, d: Dispatcher, hosts: nat, submitted: seq<Job>, q: nat, finished: seq<nat>,
                    jobq: seq<Slot>, pcstat: seq<HostStat>, nodesstat: seq<int>)
    requires q <= |submitted| && d.Booking? && d.at.Look? && d.i > d.w.need
    requires hosts < |pcstat| == |nodesstat| && |jobq| == MAX_JOB_QUEUE
    requires DutyInv(d, hosts, l, submitted, q) && SentInv(l, submitted, q, q - 1, hosts)
    requires BookInv(hosts, pcstat, nodesstat, d) && RingInv(jobq, submitted, q, finished)
    ensures |Sent(l, q - 1)| == submitted[q - 1].req == d.w.need >= 1
    ensures SentInv(l, submitted, q, -1, hosts)
  {
  }

  /** Writing the counter agrees with what is outstanding, for good, if and only if no decrement
      for the job has begun. */
  lemma PublishExact(s: System)
    requires Base(s) && Books(s, Look) && s.d.i > s.d.w.need
    ensures Base(PublishStep(s)) <==> NoDebt(s)
    ensures s.d.w.need + s.m.jobnodes[s.d.w.job] ==
            |Owing(s.ledger, s.d.w.job)| + Pending(s.ledger, s.r, s.d.w.job)
  {
    PublishNeed(s);
    PublishCounts(s.m.jobnodes, s.d.w.job, s.ledger, s.r, s.d.w.need);
    if NoDebt(s) {
      PublishKeeps(s);
    }
  }

  /** What a booking that is over has sent, and what of it is outstanding. */
  lemma PublishNeed(s: System)
    requires Base(s) && Books(s, Look) && s.d.i > s.d.w.need
    ensures |Sent(s.ledger, |s.popped| - 1)| == s.d.w.need >= 1
    ensures SentInv(s.ledger, s.submitted, |s.popped|, -1, s.m.hosts)
    ensures s.d.w.need + s.m.jobnodes[s.d.w.job] ==
            |Owing(s.ledger, s.d.w.job)| + Pending(s.ledger, s.r, s.d.w.job)
  {
    PublishSent(s.ledger, s.d, s.m.hosts, s.submitted, |s.popped|, s.finished, s.m.jobq, s.m.pcstat, s.m.nodesstat);
  }

  lemma PublishKeeps(s: System)
    requires Base(s) && Books(s, Look) && s.d.i > s.d.w.need && NoDebt(s)
    ensures Base(PublishStep(s))
  {
    PublishWellFormed(s);
    PublishNeed(s);
    PublishOpen(s);
    PublishCounts(s.m.jobnodes, s.d.w.job, s.ledger, s.r, s.d.w.need);
  }

  /** The launch is not closed when its booking is over, so it counts as running. */
  lemma PublishOpen(s: System)
    requires Base(s) && Books(s, Look) && s.d.i > s.d.w.need && NoDebt(s)
    ensures DoneInv(s.finished, s.ledger, s.r, s.submitted, |s.popped|, -1, s.m.hosts)
  {
    PublishNeed(s);
    MineOwed(s.ledger, s.r, s.d, s.m.hosts, s.submitted, |s.popped|);
    StillOpen(s.ledger, s.r, s.d.w.job, |s.popped| - 1);
    PublishDone(s.finished, s.ledger, s.r, s.submitted, |s.popped|, s.m.hosts);
  }
}
