/** The result thread's steps keep the invariant: free the host, lower the counter,
    test it, mark the job finished. */
module ResultSteps {
  import opened JobQueue
  import opened Machine
  import opened Invariant
  import DispatchSteps

  /** `l'` is `l` with the return of flight `f` taken. */
  ghost predicate Taken(l: seq<Flight>, l': seq<Flight>, f: nat) {
    f < |l| && l[f].Owed() && l' == l[f := l[f].(phase := Credited)]
  }

  lemma TakenSets(l: seq<Flight>, l': seq<Flight>, f: nat)
    requires Taken(l, l', f)
    ensures forall j :: Owing(l', j) == Owing(l, j) - (if j == l[f].job then {f} else {})
    ensures f in Owing(l, l[f].job)
    ensures forall t :: Sent(l', t) == Sent(l, t)
  {
    forall j ensures Owing(l', j) == Owing(l, j) - (if j == l[f].job then {f} else {}) {}
    forall t ensures Sent(l', t) == Sent(l, t) {}
  }

  lemma TakenFlights(l: seq<Flight>, l': seq<Flight>, f: nat, submitted: seq<Job>, q: nat)
    requires Taken(l, l', f) && q <= |submitted| && FlightInv(l, Waiting, submitted, q)
    ensures FlightInv(l', Freed(f), submitted, q)
  {
  }

  lemma TakenCounts(l: seq<Flight>, l': seq<Flight>, f: nat, jobnodes: seq<int>, mine: int)
    requires Taken(l, l', f) && |jobnodes| == MAX_JOB_QUEUE && CountInv(jobnodes, mine, l, Waiting)
    ensures CountInv(jobnodes, mine, l', Freed(f))
  {
    forall j | 0 <= j < MAX_JOB_QUEUE && j != mine
      ensures jobnodes[j] == |Owing(l', j)| + Pending(l', Freed(f), j)
    {
      OwingAndPending(l, l', f, j);
    }
  }

  lemma TakenHosts(l: seq<Flight>, l': seq<Flight>, f: nat,
                   hosts: nat, pcstat: seq<HostStat>, nodesstat: seq<int>, sending: nat)
    requires Taken(l, l', f) && hosts < |pcstat| == |nodesstat|
    requires HostInv(hosts, pcstat, nodesstat, sending, l)
    ensures HostInv(hosts, pcstat[l[f].host := Free], nodesstat, sending, l')
  {
    forall k | 1 <= k <= hosts && pcstat[k].Busy? && k != l[f].host && k != sending ensures Held(l', k) {
      var g :| 0 <= g < |l| && l[g].Owed() && l[g].host == k;
      assert l'[g] == l[g];
    }
  }

  lemma TakenDuty(l: seq<Flight>, l': seq<Flight>, f: nat,
                  d: Dispatcher, hosts: nat, submitted: seq<Job>, q: nat, inHand: int)
    requires Taken(l, l', f) && q <= |submitted|
    requires DutyInv(d, hosts, l, submitted, q) && SentInv(l, submitted, q, inHand, hosts)
    ensures SentInv(l', submitted, q, inHand, hosts) && DutyInv(d, hosts, l', submitted, q)
  {
    TakenSets(l, l', f);
  }

  lemma TakenWindow(l: seq<Flight>, l': seq<Flight>, f: nat, d: Dispatcher, jobnodes: seq<int>, q: nat)
    requires Taken(l, l', f) && |jobnodes| == MAX_JOB_QUEUE && WindowInv(d, jobnodes, l, Waiting, q)
    ensures WindowInv(d, jobnodes, l', Freed(f), q)
  {
    if !d.Idle? {
      OwingAndPending(l, l', f, d.w.job);
      TakenSets(l, l', f);
    }
  }

  /** A return that is taken moves from the owed ones to the pending one. */
  lemma OwingAndPending(l: seq<Flight>, l': seq<Flight>, f: nat, job: int)
    requires Taken(l, l', f)
    ensures |Owing(l', job)| + Pending(l', Freed(f), job) == |Owing(l, job)| + Pending(l, Waiting, job)
  {
    TakenSets(l, l', f);
    if job != l[f].job {
      assert Owing(l', job) == Owing(l, job);
    }
  }

  lemma TakenDone(l: seq<Flight>, l': seq<Flight>, f: nat, finished: seq<nat>,
                  submitted: seq<Job>, q: nat, inHand: int, hosts: nat)
    requires Taken(l, l', f) && q <= |submitted| && DoneInv(finished, l, Waiting, submitted, q, inHand, hosts)
    ensures DoneInv(finished, l', Freed(f), submitted, q, inHand, hosts)
  {
    forall t ensures AllClosed(l', Freed(f), t) <==> AllClosed(l, Waiting, t) {
      assert forall g :: 0 <= g < |l| ==>
        (Open(l', Freed(f), g) <==> Open(l, Waiting, g)) && l'[g].ticket == l[g].ticket;
      if AllClosed(l', Freed(f), t) {
        forall g | 0 <= g < |l| && l[g].ticket == t ensures !Open(l, Waiting, g) {
          assert l'[g].ticket == t;
        }
      }
    }
  }

  /** Freeing a host only adds to the free set, so a booking keeps its supply. */
  lemma TakenBook(hosts: nat, pcstat: seq<HostStat>, nodesstat: seq<int>, d: Dispatcher, h: nat)
    requires 1 <= h <= hosts < |pcstat| == |nodesstat|
    requires BookInv(hosts, pcstat, nodesstat, d) && h != Sending(d)
    ensures BookInv(hosts, pcstat[h := Free], nodesstat, d)
  {
    if d.Booking? {
      var k := if d.at.Look? then d.k else 1;
      assert FreeFrom(hosts, pcstat, k) <= FreeFrom(hosts, pcstat[h := Free], k);
      DispatchSteps.SubsetCard(FreeFrom(hosts, pcstat, k), FreeFrom(hosts, pcstat[h := Free], k));
    }
  }

  ghost function TakeReturn(s: System, f: nat): System
    requires WellFormed(s) && f < |s.ledger|
  {
    SetPhase(s, f, Credited).(m := SetHost(s.m, s.ledger[f].host, Free), r := Freed(f))
  }

  /** Taking a return keeps the invariant at any moment, also while hosts are being booked
      for the same job. */
  lemma TakeReturnKeeps(s: System, f: nat)
    requires Base(s) && s.r.Waiting? && f < |s.ledger| && s.ledger[f].Owed()
    ensures Base(TakeReturn(s, f))
  {
    var l, l', q := s.ledger, TakeReturn(s, f).ledger, |s.popped|;
    WorkerWellFormed(s, f, Credited);
    TakenFlights(l, l', f, s.submitted, q);
    TakenCounts(l, l', f, s.m.jobnodes, Mine(s.d));
    TakenWindow(l, l', f, s.d, s.m.jobnodes, q);
    TakenHosts(l, l', f, s.m.hosts, s.m.pcstat, s.m.nodesstat, Sending(s.d));
    TakenDuty(l, l', f, s.d, s.m.hosts, s.submitted, q, InHand(s));
    TakenDone(l, l', f, s.finished, s.submitted, q, InHand(s), s.m.hosts);
    TakenBook(s.m.hosts, s.m.pcstat, s.m.nodesstat, s.d, l[f].host);
    if s.d.Counting? {
      DispatchSteps.PassFrees(s.m.hosts, s.m.pcstat, s.d.k, l[f].host);
    }
  }

  // ---- lowering the counter

  lemma SameOpen(l: seq<Flight>, r: Results, r': Results, t: int)
    requires !r.Waiting? && !r'.Waiting? && r.f == r'.f
    ensures AllClosed(l, r', t) <==> AllClosed(l, r, t)
  {
  }

  lemma SameDone(l: seq<Flight>, r: Results, r': Results, finished: seq<nat>, submitted: seq<Job>, q: nat,
                 inHand: int, hosts: nat)
    requires !r.Waiting? && !r'.Waiting? && r.f == r'.f
    requires q <= |submitted| && DoneInv(finished, l, r, submitted, q, inHand, hosts)
    ensures DoneInv(finished, l, r', submitted, q, inHand, hosts)
  {
    forall t ensures AllClosed(l, r', t) <==> AllClosed(l, r, t) {
      SameOpen(l, r, r', t);
    }
  }

  lemma LoadedCounts(l: seq<Flight>, f: nat, jobnodes: seq<int>, mine: int)
    requires f < |l| && |jobnodes| == MAX_JOB_QUEUE && l[f].job < MAX_JOB_QUEUE
    requires CountInv(jobnodes, mine, l, Freed(f))
    ensures CountInv(jobnodes, mine, l, Loaded(f, jobnodes[l[f].job]))
  {
    forall j ensures Pending(l, Loaded(f, jobnodes[l[f].job]), j) == Pending(l, Freed(f), j) {}
  }

  lemma StoredCounts(l: seq<Flight>, f: nat, v: int, jobnodes: seq<int>, mine: int)
    requires f < |l| && |jobnodes| == MAX_JOB_QUEUE && l[f].job < MAX_JOB_QUEUE
    requires CountInv(jobnodes, mine, l, Loaded(f, v))
    ensures v == jobnodes[l[f].job] && CountInv(jobnodes[l[f].job := v - 1], mine, l, Counted(f))
  {
    forall j ensures Pending(l, Counted(f), j) == 0 {}
  }

  /** Before the booking no return of the job in hand is pending, and during it a counted one
      is entered as a debt. */
  lemma StoredWindow(l: seq<Flight>, f: nat, v: int, d: Dispatcher, jobnodes: seq<int>, q: nat)
    requires f < |l| && |jobnodes| == MAX_JOB_QUEUE && l[f].job < MAX_JOB_QUEUE && v == jobnodes[l[f].job]
    requires WindowInv(d, jobnodes, l, Loaded(f, v), q) && (d.Counting? ==> |Sent(l, q - 1)| == 0)
    ensures WindowInv(d, jobnodes[l[f].job := v - 1], l, Counted(f), q)
  {
  }

  lemma SameFlights(l: seq<Flight>, r: Results, r': Results, submitted: seq<Job>, q: nat)
    requires !r.Waiting? && !r'.Waiting? && r.f == r'.f
    requires q <= |submitted| && FlightInv(l, r, submitted, q)
    ensures FlightInv(l, r', submitted, q)
  {
    assert forall f :: 0 <= f < |l| && Open(l, r', f) ==> Open(l, r, f);
  }

  /** Beginning the decrement makes a debt exactly when it is the job in hand's. */
  lemma LoadDebt(s: System)
    requires Base(s) && s.r.Freed? && NoDebt(s) && WellFormed(ResultStep(s))
    ensures NoDebt(ResultStep(s)) <==> !(s.d.Booking? && s.ledger[s.r.f].job == s.d.w.job)
  {
    assert s.d.Counting? ==> |Sent(s.ledger, |s.popped| - 1)| == 0;
  }

  /** A step of the result thread that touches the counters and its own position only. */
  lemma ResultShift(s: System, s': System)
    requires Base(s) && WellFormed(s') && s' == s.(m := s.m.(jobnodes := s'.m.jobnodes), r := s'.r)
    requires CountInv(s'.m.jobnodes, Mine(s.d), s.ledger, s'.r)
    requires WindowInv(s.d, s'.m.jobnodes, s.ledger, s'.r, |s.popped|)
    requires !s.r.Waiting? && !s'.r.Waiting? && s'.r.f == s.r.f
    ensures Base(s')
  {
    SameFlights(s.ledger, s.r, s'.r, s.submitted, |s.popped|);
    SameDone(s.ledger, s.r, s'.r, s.finished, s.submitted, |s.popped|, InHand(s), s.m.hosts);
  }

  lemma LoadKeeps(s: System)
    requires Base(s) && s.r.Freed?
    ensures Base(ResultStep(s))
  {
    var s', l := ResultStep(s), s.ledger;
    ResultWellFormed(s);
    LoadedCounts(l, s.r.f, s.m.jobnodes, Mine(s.d));
    LoadedWindow(l, s.r.f, s'.r.v, s.d, s.m.jobnodes, |s.popped|);
    ResultShift(s, s');
  }

  lemma LoadedWindow(l: seq<Flight>, f: nat, v: int, d: Dispatcher, jobnodes: seq<int>, q: nat)
    requires |jobnodes| == MAX_JOB_QUEUE && WindowInv(d, jobnodes, l, Freed(f), q)
    ensures WindowInv(d, jobnodes, l, Loaded(f, v), q)
  {
    assert forall j :: Pending(l, Loaded(f, v), j) == Pending(l, Freed(f), j);
  }

  lemma StoreKeeps(s: System)
    requires Base(s) && s.r.Loaded?
    ensures Base(ResultStep(s))
  {
    ResultWellFormed(s);
    StoreParts(s);
    ResultShift(s, ResultStep(s));
  }

  lemma StoreParts(s: System)
    requires Base(s) && s.r.Loaded?
    ensures var s' := ResultStep(s);
            && |s'.m.jobnodes| == MAX_JOB_QUEUE && CountInv(s'.m.jobnodes, Mine(s.d), s.ledger, s'.r)
            && WindowInv(s.d, s'.m.jobnodes, s.ledger, s'.r, |s.popped|)
  {
    StoredCounts(s.ledger, s.r.f, s.r.v, s.m.jobnodes, Mine(s.d));
    StoredWindow(s.ledger, s.r.f, s.r.v, s.d, s.m.jobnodes, |s.popped|);
  }

  // ---- testing the counter

  /** Two open flights of the same job belong to the same launch. */
  lemma OpenSameLaunch(l: seq<Flight>, r: Results, submitted: seq<Job>, q: nat, f: int, g: int)
    requires q <= |submitted| && FlightInv(l, r, submitted, q)
    requires Open(l, r, f) && Open(l, r, g) && l[f].job == l[g].job
    ensures l[f].ticket == l[g].ticket
  {
    SlotOfInjective(l[f].ticket, l[g].ticket);
  }

  lemma CountedDone(l: seq<Flight>, r: Results, finished: seq<nat>, submitted: seq<Job>, q: nat,
                    inHand: int, hosts: nat)
    requires q <= |submitted| && FlightInv(l, r, submitted, q) && !r.Waiting?
    requires DoneInv(finished, l, r, submitted, q, inHand, hosts)
    requires Owing(l, l[r.f].job) != {} || l[r.f].ticket == inHand
    ensures DoneInv(finished, l, Waiting, submitted, q, inHand, hosts)
  {
    if Owing(l, l[r.f].job) != {} {
      var g :| g in Owing(l, l[r.f].job);
      OpenSameLaunch(l, r, submitted, q, r.f, g);
      assert Open(l, Waiting, g) && Open(l, r, g);
    }
    forall t | t != inHand ensures AllClosed(l, Waiting, t) <==> AllClosed(l, r, t) {
      assert forall h :: 0 <= h < |l| && h != r.f ==> (Open(l, Waiting, h) <==> Open(l, r, h));
    }
  }

  /** Once the counter is lowered the result thread's position no longer weighs in the counts. */
  lemma SettledCounts(jobnodes: seq<int>, mine: int, l: seq<Flight>, r: Results)
    requires |jobnodes| == MAX_JOB_QUEUE && CountInv(jobnodes, mine, l, r)
    requires (r.Counted? || r.Finishing?) && r.f < |l|
    ensures CountInv(jobnodes, mine, l, Waiting)
    ensures Owing(l, l[r.f].job) == {} && l[r.f].job != mine ==> CountInv(jobnodes, mine, l, Finishing(r.f))
  {
    forall j ensures Pending(l, Waiting, j) == Pending(l, r, j) == Pending(l, Finishing(r.f), j) {}
  }

  /** The return just processed was the result thread's only claim on a flight. */
  lemma SettledFlights(l: seq<Flight>, r: Results, submitted: seq<Job>, q: nat)
    requires q <= |submitted| && FlightInv(l, r, submitted, q)
    ensures FlightInv(l, Waiting, submitted, q)
  {
    assert forall f :: 0 <= f < |l| && Open(l, Waiting, f) ==> Open(l, r, f);
  }

  lemma SettledWindow(l: seq<Flight>, r: Results, r': Results, d: Dispatcher, jobnodes: seq<int>, q: nat)
    requires |jobnodes| == MAX_JOB_QUEUE && WindowInv(d, jobnodes, l, r, q)
    requires !r.Freed? && !r.Loaded? && !r'.Freed? && !r'.Loaded?
    ensures WindowInv(d, jobnodes, l, r', q)
  {
    assert forall j :: Pending(l, r, j) == Pending(l, r', j) == 0;
  }

  /** A counted return of the launch in hand is a debt on the counter. */
  lemma CountedDebt(l: seq<Flight>, f: nat, d: Dispatcher, jobnodes: seq<int>, hosts: nat, submitted: seq<Job>, q: nat)
    requires |jobnodes| == MAX_JOB_QUEUE && q <= |submitted| < q + MAX_JOB_QUEUE
    requires FlightInv(l, Counted(f), submitted, q) && DutyInv(d, hosts, l, submitted, q)
    requires WindowInv(d, jobnodes, l, Counted(f), q)
    requires !d.Idle? && l[f].job == d.w.job
    ensures l[f].ticket == q - 1 && jobnodes[d.w.job] < 0
  {
    DispatchSteps.MineByTicket(l, Counted(f), d, hosts, submitted, q);
    DispatchSteps.MineOwed(l, Counted(f), d, hosts, submitted, q);
    assert Owing(l, d.w.job) <= Sent(l, q - 1) - {f as int} by {
      assert forall g :: g in Owing(l, d.w.job) ==> Open(l, Counted(f), g);
    }
    assert f as int in Sent(l, q - 1);
    DispatchSteps.SubsetCard(Owing(l, d.w.job), Sent(l, q - 1) - {f as int});
  }

  lemma CountedTest(s: System)
    requires Base(s) && s.r.Counted?
    ensures var job := s.ledger[s.r.f].job;
            && (job != Mine(s.d) ==> (s.m.jobnodes[job] == 0 <==> Owing(s.ledger, job) == {}))
            && (job == Mine(s.d) ==> s.m.jobnodes[job] < 0 && s.ledger[s.r.f].ticket == InHand(s))
  {
    if s.ledger[s.r.f].job == Mine(s.d) {
      CountedDebt(s.ledger, s.r.f, s.d, s.m.jobnodes, s.m.hosts, s.submitted, |s.popped|);
    }
  }

  lemma CountedLast(s: System)
    requires Base(s) && s.r.Counted? && s.m.jobnodes[s.ledger[s.r.f].job] == 0
    ensures Base(ResultStep(s))
  {
    ResultWellFormed(s);
    CountedTest(s);
    SettledWindow(s.ledger, s.r, ResultStep(s).r, s.d, s.m.jobnodes, |s.popped|);
    SettledCounts(s.m.jobnodes, Mine(s.d), s.ledger, s.r);
    SameDone(s.ledger, s.r, Finishing(s.r.f), s.finished, s.submitted, |s.popped|, InHand(s), s.m.hosts);
  }

  lemma CountedMore(s: System)
    requires Base(s) && s.r.Counted? && s.m.jobnodes[s.ledger[s.r.f].job] != 0
    ensures Base(ResultStep(s))
  {
    ResultWellFormed(s);
    CountedTest(s);
    SettledWindow(s.ledger, s.r, ResultStep(s).r, s.d, s.m.jobnodes, |s.popped|);
    SettledCounts(s.m.jobnodes, Mine(s.d), s.ledger, s.r);
    SettledFlights(s.ledger, s.r, s.submitted, |s.popped|);
    CountedDone(s.ledger, s.r, s.finished, s.submitted, |s.popped|, InHand(s), s.m.hosts);
  }

  // ---- marking the job finished

  lemma FinishRing(jobq: seq<Slot>, submitted: seq<Job>, q: nat, finished: seq<nat>, t: nat)
    requires |jobq| == MAX_JOB_QUEUE && RingInv(jobq, submitted, q, finished)
    requires t < q <= |submitted| <= t + MAX_JOB_QUEUE
    ensures var j := SlotOf(t);
            RingInv(jobq[j := jobq[j].(stat := Finished)], submitted, q, finished + [t])
  {
    forall u | 0 <= u < |submitted| <= u + MAX_JOB_QUEUE && u != t ensures SlotOf(u) != SlotOf(t) {
      if SlotOf(u) == SlotOf(t) {
        SlotOfInjective(u, t);
      }
    }
    forall u: nat ensures u in finished + [t] <==> u in finished || u == t {}
  }

  lemma FinishDone(l: seq<Flight>, r: Results, finished: seq<nat>, submitted: seq<Job>, q: nat,
                   inHand: int, hosts: nat)
    requires q <= |submitted| && FlightInv(l, r, submitted, q) && !r.Waiting?
    requires DoneInv(finished, l, r, submitted, q, inHand, hosts) && SentInv(l, submitted, q, inHand, hosts)
    requires Owing(l, l[r.f].job) == {} && l[r.f].ticket != inHand
    ensures DoneInv(finished + [l[r.f].ticket], l, Waiting, submitted, q, inHand, hosts)
  {
    var t := l[r.f].ticket;
    assert Open(l, r, r.f) && !AllClosed(l, r, t);
    assert r.f in Sent(l, t);
    forall g | 0 <= g < |l| && l[g].ticket == t ensures !Open(l, Waiting, g) {
      assert g !in Owing(l, l[r.f].job);
    }
    forall u: int | u != t ensures AllClosed(l, Waiting, u) <==> AllClosed(l, r, u) {
      assert forall h :: 0 <= h < |l| && h != r.f ==> (Open(l, Waiting, h) <==> Open(l, r, h));
    }
    forall u: nat ensures u in finished + [t] <==> u in finished || u == t {}
  }

  lemma FinishingKeeps(s: System)
    requires Base(s) && s.r.Finishing?
    ensures Base(ResultStep(s))
  {
    var s', l, q := ResultStep(s), s.ledger, |s.popped|;
    ResultWellFormed(s);
    assert Open(l, s.r, s.r.f);
    if !s.d.Idle? {
      DispatchSteps.MineByTicket(l, s.r, s.d, s.m.hosts, s.submitted, q);
    }
    SettledWindow(l, s.r, s'.r, s.d, s.m.jobnodes, q);
    SettledCounts(s.m.jobnodes, Mine(s.d), l, s.r);
    SettledFlights(l, s.r, s.submitted, q);
    FinishRing(s.m.jobq, s.submitted, q, s.finished, l[s.r.f].ticket);
    FinishDone(l, s.r, s.finished, s.submitted, q, InHand(s), s.m.hosts);
  }
}
