/** The dispatch window, from the first booked host to the write of the counter: what returns
    of the job's own submits do when they are handled inside it. */
module Window {
  import opened JobQueue
  import opened Machine
  import opened Invariant
  import opened Exactness
  import opened BookingOrder
  import opened Hosting
  import Hazards
  import DispatchSteps

  /** Every step meets the condition that keeps `Base`: early counting is let in. */
  ghost predicate Admitted(s: System, es: seq<Event>)
    requires WellFormed(s) && Run(s, es)
    decreases |es|
  {
    es != [] ==> BaseOk(s, es[0]) && (NextWellFormed(s, es[0]); Admitted(Next(s, es[0]), es[1..]))
  }

  lemma {:induction false} RunBase(s: System, es: seq<Event>)
    requires Base(s) && Run(s, es) && Admitted(s, es)
    ensures Base(After(s, es))
    decreases |es|
  {
    if es != [] {
      BaseExact(s, es[0]);
      RunBase(Next(s, es[0]), es[1..]);
    }
  }

  /** Runs that keep `Inv` are admitted. */
  lemma {:induction false} GuardedIsAdmitted(s: System, es: seq<Event>)
    requires Inv(s) && Run(s, es) && Guarded(s, es)
    ensures Admitted(s, es)
    decreases |es|
  {
    if es != [] {
      StepExact(s, es[0]);
      GuardedIsAdmitted(Next(s, es[0]), es[1..]);
    }
  }

  // ---- the counter

  /** The step begins to lower the counter of `job`. */
  ghost predicate Lowers(s: System, e: Event, job: nat)
    requires WellFormed(s) && Enabled(s, e)
  {
    e.ResultNext? && s.r.Freed? && s.ledger[s.r.f].job == job
  }

  /** How many decrements of `job`'s counter begin in the run. */
  ghost function Lowered(s: System, es: seq<Event>, job: nat): nat
    requires WellFormed(s) && Run(s, es)
    decreases |es|
  {
    if es == [] then 0
    else (if Lowers(s, es[0], job) then 1 else 0) + (NextWellFormed(s, es[0]); Lowered(Next(s, es[0]), es[1..], job))
  }

  /** Hosts are being booked from the first state of the run to its last. */
  ghost predicate Inside(s: System, es: seq<Event>)
    requires WellFormed(s) && Run(s, es)
    decreases |es|
  {
    s.d.Booking? && (es != [] ==> (NextWellFormed(s, es[0]); Inside(Next(s, es[0]), es[1..])))
  }

  lemma WindowStep(s: System, e: Event)
    requires WellFormed(s) && s.d.Booking? && Enabled(s, e) && WellFormed(Next(s, e)) && Next(s, e).d.Booking?
    requires s.r.Loaded? ==> s.r.v == s.m.jobnodes[s.ledger[s.r.f].job]
    ensures var s', job := Next(s, e), s.d.w.job;
            && s'.d.w == s.d.w && s'.popped == s.popped
            && Debt(s') == Debt(s) + if Lowers(s, e, job) then 1 else 0
  {
    if e.Dispatch? {
      ScanDebt(s);
    } else if e.ResultNext? {
      ReturnDebt(s);
    } else {
      OtherDebt(s, e);
    }
  }

  lemma ScanDebt(s: System)
    requires WellFormed(s) && s.d.Booking? && WellFormed(DispatchStep(s)) && DispatchStep(s).d.Booking?
    ensures var s' := DispatchStep(s);
            s'.d.w == s.d.w && s'.popped == s.popped && Debt(s') == Debt(s)
  {
    assert LoadedMine(DispatchStep(s)) == LoadedMine(s);
  }

  lemma ReturnDebt(s: System)
    requires WellFormed(s) && s.d.Booking? && !s.r.Waiting? && WellFormed(ResultStep(s))
    requires s.r.Loaded? ==> s.r.v == s.m.jobnodes[s.ledger[s.r.f].job]
    ensures var s' := ResultStep(s);
            && s'.d == s.d && s'.popped == s.popped
            && Debt(s') == Debt(s) + if s.r.Freed? && s.ledger[s.r.f].job == s.d.w.job then 1 else 0
  {
  }

  lemma OtherDebt(s: System, e: Event)
    requires WellFormed(s) && s.d.Booking? && Enabled(s, e) && WellFormed(Next(s, e))
    requires !e.Dispatch? && !e.ResultNext?
    ensures Next(s, e).d == s.d && Next(s, e).popped == s.popped && Debt(Next(s, e)) == Debt(s)
  {
  }

  lemma {:induction false} WindowRun(s: System, es: seq<Event>)
    requires Base(s) && Run(s, es) && Admitted(s, es) && Inside(s, es)
    ensures Base(After(s, es)) && After(s, es).d.Booking? && After(s, es).d.w == s.d.w
    ensures Debt(After(s, es)) == Debt(s) + Lowered(s, es, s.d.w.job)
    decreases |es|
  {
    if es != [] {
      BaseExact(s, es[0]);
      WindowStep(s, es[0]);
      WindowRun(Next(s, es[0]), es[1..]);
    }
  }

  /** Whatever loads and stores interleave, the counter written exceeds what is outstanding by
      the number of decrements of the job begun inside the window, or, if the last of them stores
      only after the write, it then falls to minus that number. So the invariant goes on if and
      only if there were none, and otherwise the job is stranded and never finishes. When a
      return was only taken, no harm is done. */
  lemma CounterExact(s: System, es: seq<Event>)
    requires Inv(s) && Run(s, es) && Admitted(s, es) && Inside(s, es)
    requires WellFormed(After(s, es)) && Publishes(After(s, es), Dispatch)
    ensures var early, job := Lowered(s, es, s.d.w.job), s.d.w.job;
            var s' := PublishStep(After(s, es));
            && DispatchStep(After(s, es)) == s' && WellFormed(s')
            && (!LoadedMine(After(s, es)) ==>
                  s'.m.jobnodes[job] == |Owing(s'.ledger, job)| + Pending(s'.ledger, s'.r, job) + early)
            && (LoadedMine(After(s, es)) ==> ResultStep(s').m.jobnodes[job] + early == 0)
            && (Inv(s') <==> early == 0)
            && (Hazards.Stranded(s', job) <==> early > 0)
            && (early > 0 ==> Hazards.NeverFinished(s', job))
  {
    WindowRun(s, es);
    DispatchSteps.PublishExact(After(s, es));
    Hazards.DebtStrands(After(s, es));
  }

  // ---- the launch's hosts

  /** Launch `t` was sent to some host twice, or is about to be. */
  ghost predicate Doubled(s: System, t: nat) {
    || SentTwice(s.ledger, t)
    || (InHand(s) == t && s.d.Booking? && !s.d.at.Look? && SentTo(s.ledger, t, s.d.k))
  }

  ghost predicate SentTwice(l: seq<Flight>, t: nat) {
    exists f, g :: 0 <= f < g < |l| && l[f].ticket == l[g].ticket == t && l[f].host == l[g].host
  }

  ghost predicate SentTo(l: seq<Flight>, t: nat, k: nat) {
    exists f :: 0 <= f < |l| && l[f].ticket == t && l[f].host == k
  }

  /** A return of launch `t` from host `k` has been taken. */
  ghost predicate Returned(l: seq<Flight>, t: nat, k: nat) {
    exists f :: 0 <= f < |l| && l[f].ticket == t && l[f].host == k && l[f].phase.Credited?
  }

  /** The scan stops at a host that is free because a return of the same launch, taken inside
      the window, has freed it. */
  ghost predicate Rebooks(s: System, e: Event)
    requires WellFormed(s)
  {
    && e.Dispatch? && Books(s, Look) && s.d.i <= s.d.w.need && s.d.k <= s.m.hosts && s.m.pcstat[s.d.k].Free?
    && Returned(s.ledger, |s.popped| - 1, s.d.k)
  }

  lemma FreeIsReturned(hosts: nat, pcstat: seq<HostStat>, nodesstat: seq<int>, sending: nat, l: seq<Flight>,
                       t: nat, k: nat)
    requires hosts < |pcstat| == |nodesstat| && HostInv(hosts, pcstat, nodesstat, sending, l)
    requires 1 <= k <= hosts && pcstat[k].Free?
    ensures SentTo(l, t, k) <==> Returned(l, t, k)
  {
  }

  lemma SentTwiceAdds(l: seq<Flight>, x: Flight, t: nat)
    ensures SentTwice(l + [x], t) <==> SentTwice(l, t) || (x.ticket == t && SentTo(l, t, x.host))
  {
    var l' := l + [x];
    assert forall f :: 0 <= f < |l| ==> l'[f] == l[f];
    assert l'[|l|] == x;
    if SentTwice(l, t) {
      var f, g :| 0 <= f < g < |l| && l[f].ticket == l[g].ticket == t && l[f].host == l[g].host;
      assert l'[f].ticket == l'[g].ticket == t && l'[f].host == l'[g].host;
    }
    if x.ticket == t && SentTo(l, t, x.host) {
      var f :| 0 <= f < |l| && l[f].ticket == t && l[f].host == x.host;
      assert l'[f].ticket == l'[|l|].ticket == t && l'[f].host == l'[|l|].host;
    }
  }

  /** `l'` differs from `l` in phases only. */
  ghost predicate SamePaths(l: seq<Flight>, l': seq<Flight>) {
    |l'| == |l| && forall f :: 0 <= f < |l| ==> l'[f].ticket == l[f].ticket && l'[f].host == l[f].host
  }

  lemma SamePathsDouble(l: seq<Flight>, l': seq<Flight>, t: nat, k: nat)
    requires SamePaths(l, l')
    ensures SentTwice(l', t) <==> SentTwice(l, t)
    ensures SentTo(l', t, k) <==> SentTo(l, t, k)
  {
    if SentTwice(l, t) {
      var f, g :| 0 <= f < g < |l| && l[f].ticket == l[g].ticket == t && l[f].host == l[g].host;
      assert l'[f].ticket == l'[g].ticket == t && l'[f].host == l'[g].host;
    }
    if SentTo(l, t, k) {
      var f :| 0 <= f < |l| && l[f].ticket == t && l[f].host == k;
      assert l'[f].ticket == t && l'[f].host == k;
    }
  }

  lemma OtherPaths(s: System, e: Event)
    requires WellFormed(s) && Enabled(s, e) && !e.Dispatch?
    ensures SamePaths(s.ledger, Next(s, e).ledger)
    ensures Next(s, e).d == s.d && Next(s, e).popped == s.popped
  {
  }

  lemma DispatchDoubles(s: System, t: nat)
    requires Hosted(s) && Enabled(s, Dispatch)
    ensures Doubled(DispatchStep(s), t) <==> Doubled(s, t) || (Rebooks(s, Dispatch) && InHand(s) == t)
  {
    if Books(s, Send) {
      SendDoubles(s, t);
    } else if Books(s, Look) && s.d.i <= s.d.w.need {
      LookDoubles(s, t);
    } else {
      SomewhereDoubles(s, t);
    }
  }

  lemma SendDoubles(s: System, t: nat)
    requires WellFormed(s) && Books(s, Send)
    ensures Doubled(SendStep(s), t) <==> Doubled(s, t)
  {
    SentTwiceAdds(s.ledger, Flight(s.d.k, s.d.w.job, s.d.w.comm, |s.popped| - 1, Submitted), t);
  }

  lemma LookDoubles(s: System, t: nat)
    requires Hosted(s) && Books(s, Look) && s.d.i <= s.d.w.need
    ensures Doubled(LookStep(s), t) <==> Doubled(s, t) || (Rebooks(s, Dispatch) && InHand(s) == t)
  {
    if s.d.k <= s.m.hosts && s.m.pcstat[s.d.k].Free? {
      FreeIsReturned(s.m.hosts, s.m.pcstat, s.m.nodesstat, Sending(s.d), s.ledger, t, s.d.k);
    }
  }

  lemma SomewhereDoubles(s: System, t: nat)
    requires WellFormed(s) && Enabled(s, Dispatch) && !Books(s, Send) && !(Books(s, Look) && s.d.i <= s.d.w.need)
    ensures Doubled(DispatchStep(s), t) <==> Doubled(s, t)
  {
  }

  /** A launch gets a host twice only by a booking that takes back a host its own return freed. */
  lemma DoubledStep(s: System, e: Event, t: nat)
    requires Hosted(s) && Enabled(s, e)
    ensures Doubled(Next(s, e), t) <==> Doubled(s, t) || (Rebooks(s, e) && InHand(s) == t)
  {
    if e.Dispatch? {
      DispatchDoubles(s, t);
    } else {
      OtherPaths(s, e);
      SamePathsDouble(s.ledger, Next(s, e).ledger, t, if s.d.Booking? then s.d.k else 0);
    }
  }

  /** In the run some booking for launch `t` takes back such a host. */
  ghost predicate Rebooked(s: System, es: seq<Event>, t: nat)
    requires WellFormed(s) && Run(s, es)
    decreases |es|
  {
    && es != []
    && ((Rebooks(s, es[0]) && InHand(s) == t)
        || (NextWellFormed(s, es[0]); Rebooked(Next(s, es[0]), es[1..], t)))
  }

  lemma {:induction false} DoubledRun(s: System, es: seq<Event>, t: nat)
    requires Hosted(s) && Run(s, es)
    ensures Doubled(After(s, es), t) <==> Doubled(s, t) || Rebooked(s, es, t)
    decreases |es|
  {
    if es != [] {
      HostedStep(s, es[0]);
      DoubledStep(s, es[0], t);
      DoubledRun(Next(s, es[0]), es[1..], t);
    }
  }

  /** The step takes the return of a submit of the launch whose hosts are being booked. */
  ghost predicate TakesOwn(s: System, e: Event)
    requires WellFormed(s) && Enabled(s, e)
  {
    e.ResultTake? && s.ledger[e.f].ticket == InHand(s)
  }

  ghost predicate NeverTakesOwn(s: System, es: seq<Event>)
    requires WellFormed(s) && Run(s, es)
    decreases |es|
  {
    es != [] ==> !TakesOwn(s, es[0]) && (NextWellFormed(s, es[0]); NeverTakesOwn(Next(s, es[0]), es[1..]))
  }

  /** No return of the launch in hand has been taken. */
  ghost predicate Untaken(s: System) {
    forall f :: 0 <= f < |s.ledger| && s.ledger[f].ticket == InHand(s) ==> s.ledger[f].Owed()
  }

  lemma UntakenDispatch(s: System)
    requires Hosted(s) && Enabled(s, Dispatch) && Untaken(s) && WellFormed(DispatchStep(s))
    ensures Untaken(DispatchStep(s)) && !Rebooks(s, Dispatch)
  {
    if Books(s, Send) {
      UntakenSend(s);
    } else if s.d.Idle? {
      assert forall f :: 0 <= f < |s.ledger| ==> s.ledger[f].ticket < |s.popped|;
    } else {
      UntakenScan(s);
    }
  }

  lemma UntakenSend(s: System)
    requires WellFormed(s) && Books(s, Send) && Untaken(s)
    ensures Untaken(SendStep(s))
  {
  }

  lemma UntakenScan(s: System)
    requires WellFormed(s) && !s.d.Idle? && !Books(s, Send) && Untaken(s) && WellFormed(DispatchStep(s))
    requires forall f :: 0 <= f < |s.ledger| ==> s.ledger[f].ticket >= 0
    ensures Untaken(DispatchStep(s)) && !Rebooks(s, Dispatch)
  {
  }

  lemma UntakenOther(s: System, e: Event)
    requires WellFormed(s) && Enabled(s, e) && Untaken(s) && !TakesOwn(s, e) && !e.Dispatch?
    ensures Untaken(Next(s, e))
  {
  }

  lemma UntakenStep(s: System, e: Event)
    requires Hosted(s) && Enabled(s, e) && Untaken(s) && !TakesOwn(s, e)
    ensures Untaken(Next(s, e)) && !Rebooks(s, e)
  {
    if e.Dispatch? {
      NextWellFormed(s, e);
      UntakenDispatch(s);
    } else {
      UntakenOther(s, e);
    }
  }

  /** Without an early take no host is booked twice for one launch. */
  lemma {:induction false} UntakenRun(s: System, es: seq<Event>, t: nat)
    requires Hosted(s) && Run(s, es) && Untaken(s) && NeverTakesOwn(s, es)
    ensures !Rebooked(s, es, t)
    decreases |es|
  {
    if es != [] {
      HostedStep(s, es[0]);
      UntakenStep(s, es[0]);
      UntakenRun(Next(s, es[0]), es[1..], t);
    }
  }

  // ---- when a freed host is booked again

  lemma FreeListStep(hosts: nat, pcstat: seq<HostStat>, k: nat, n: int)
    requires k <= hosts < |pcstat|
    ensures var rest := FreeList(hosts, pcstat, k + 1);
            Upto(FreeList(hosts, pcstat, k), n) ==
            if pcstat[k].Busy? then Upto(rest, n) else if n <= 0 then [] else [k] + Upto(rest, n - 1)
  {
  }

  lemma BetweenStep(pcstat: seq<HostStat>, k: nat, h: nat)
    requires k < h < |pcstat|
    ensures |Between(pcstat, k, h)| == |Between(pcstat, k + 1, h)| + if pcstat[k].Free? then 1 else 0
  {
    var rest := Between(pcstat, k + 1, h);
    assert Between(pcstat, k, h) == if pcstat[k] == Free then rest + {k} else rest;
  }

  lemma {:induction false} RankInList(hosts: nat, pcstat: seq<HostStat>, k: nat, h: nat, n: int)
    requires hosts < |pcstat| && 1 <= k <= h <= hosts && pcstat[h].Free?
    ensures h in Upto(FreeList(hosts, pcstat, k), n) <==> |Between(pcstat, k, h)| < n
    decreases h - k
  {
    FreeListStep(hosts, pcstat, k, n);
    if k == h {
      assert Between(pcstat, k, h) == {};
    } else {
      BetweenStep(pcstat, k, h);
      RankInList(hosts, pcstat, k + 1, h, if pcstat[k].Free? then n - 1 else n);
    }
  }

  /** The free hosts from `k` up to, but not including, `h`. */
  ghost function Between(pcstat: seq<HostStat>, k: nat, h: nat): set<nat> {
    set i: nat | k <= i < h && i < |pcstat| && pcstat[i] == Free
  }

  lemma {:induction false} FlightsToHost(ks: seq<nat>, w: Work, t: nat, h: nat)
    ensures h in ks <==> exists x :: x in FlightsTo(ks, w, t) && x.host == h
  {
    if ks != [] {
      FlightsToHost(ks[1..], w, t, h);
      var x0, rest := Flight(ks[0], w.job, w.comm, t, Submitted), FlightsTo(ks[1..], w, t);
      assert FlightsTo(ks, w, t) == [x0] + rest;
      assert x0 in FlightsTo(ks, w, t);
      assert forall x :: x in FlightsTo(ks, w, t) <==> x == x0 || x in rest;
    }
  }

  /** At the start of a booking turn, with nothing else interfering, a host the launch's own
      return has freed is booked for the launch again if and only if fewer free hosts lie
      below it than are still needed. */
  lemma RebookedWhenAlone(s: System, h: nat) returns (n: nat, sent: seq<Flight>)
    requires WellFormed(s) && Books(s, Look) && s.d.k == 1
    requires 1 <= h <= s.m.hosts && s.m.pcstat[h].Free?
    ensures Run(s, Turns(n)) && After(s, Turns(n)).ledger == s.ledger + sent
    ensures (exists x :: x in sent && x.host == h) <==> |Between(s.m.pcstat, 1, h)| < s.d.w.need - s.d.i + 1
  {
    n := UninterruptedBooking(s);
    sent := FlightsTo(Chosen(s), s.d.w, |s.popped| - 1);
    FlightsToHost(Chosen(s), s.d.w, |s.popped| - 1, h);
    RankInList(s.m.hosts, s.m.pcstat, 1, h, s.d.w.need - s.d.i + 1);
  }
}
