/** A dispatch that nothing interrupts books the lowest-numbered free hosts, in order. */
module BookingOrder {
  import opened JobQueue
  import opened Machine
  import opened Exactness

  /** The free hosts from `k` on, in increasing order. */
  function FreeList(hosts: nat, pcstat: seq<HostStat>, k: nat): (ks: seq<nat>)
    requires hosts < |pcstat|
    ensures forall i :: 0 <= i < |ks| ==> k <= ks[i] <= hosts && pcstat[ks[i]].Free?
    decreases hosts + 1 - k
  {
    if k > hosts then []
    else (if pcstat[k] == Free then [k] else []) + FreeList(hosts, pcstat, k + 1)
  }

  predicate Increasing(ks: seq<nat>) {
    forall i, j :: 0 <= i < j < |ks| ==> ks[i] < ks[j]
  }

  lemma {:induction false} FreeListSorted(hosts: nat, pcstat: seq<HostStat>, k: nat)
    requires hosts < |pcstat|
    ensures Increasing(FreeList(hosts, pcstat, k))
    decreases hosts + 1 - k
  {
    if k <= hosts {
      FreeListSorted(hosts, pcstat, k + 1);
      var ks, rest := FreeList(hosts, pcstat, k), FreeList(hosts, pcstat, k + 1);
      if pcstat[k].Free? {
        assert ks == [k] + rest;
        forall i, j | 0 <= i < j < |ks| ensures ks[i] < ks[j] {
          assert ks[j] == rest[j - 1];
        }
      } else {
        assert ks == rest;
      }
    }
  }

  lemma {:induction false} FreeListIsFree(hosts: nat, pcstat: seq<HostStat>, k: nat)
    requires hosts < |pcstat| && k >= 1
    ensures var ks := FreeList(hosts, pcstat, k);
            |ks| == |FreeFrom(hosts, pcstat, k)| && forall h :: h in ks <==> h in FreeFrom(hosts, pcstat, k)
    decreases hosts + 1 - k
  {
    if k > hosts {
      assert FreeFrom(hosts, pcstat, k) == {};
    } else {
      FreeListIsFree(hosts, pcstat, k + 1);
      var rest := FreeFrom(hosts, pcstat, k + 1);
      assert FreeFrom(hosts, pcstat, k) == if pcstat[k].Free? then rest + {k} else rest;
    }
  }

  lemma {:induction false} NoneFree(hosts: nat, pcstat: seq<HostStat>, k: nat)
    requires hosts < |pcstat| && FreeList(hosts, pcstat, k) == []
    ensures forall i :: k <= i <= hosts ==> pcstat[i].Busy?
    decreases hosts + 1 - k
  {
    if k <= hosts {
      NoneFree(hosts, pcstat, k + 1);
    }
  }

  /** Taking the first free host leaves the rest of the list. */
  lemma {:induction false} FreeListTail(hosts: nat, pcstat: seq<HostStat>, k: nat)
    requires hosts < |pcstat| && FreeList(hosts, pcstat, k) != []
    ensures var h := FreeList(hosts, pcstat, k)[0];
            && k <= h <= hosts && pcstat[h].Free?
            && (forall i :: k <= i < h ==> pcstat[i].Busy?)
            && FreeList(hosts, pcstat[h := Busy], k) == FreeList(hosts, pcstat, k)[1..]
    decreases hosts + 1 - k
  {
    if pcstat[k] == Free {
      SameBeyond(hosts, pcstat, pcstat[k := Busy], k + 1);
      assert FreeList(hosts, pcstat, k)[1..] == FreeList(hosts, pcstat, k + 1);
    } else {
      FreeListTail(hosts, pcstat, k + 1);
    }
  }

  lemma {:induction false} SameBeyond(hosts: nat, a: seq<HostStat>, b: seq<HostStat>, k: nat)
    requires hosts < |a| == |b| && forall i :: k <= i <= hosts ==> a[i] == b[i]
    ensures FreeList(hosts, a, k) == FreeList(hosts, b, k)
    decreases hosts + 1 - k
  {
    if k <= hosts {
      SameBeyond(hosts, a, b, k + 1);
    }
  }

  /** The tables after `ks` have been given to `job`, one after the other. */
  function Assigned(m: Tables, ks: seq<nat>, job: nat): (m': Tables)
    requires m.Shaped() && forall i :: 0 <= i < |ks| ==> ks[i] <= m.hosts
    ensures m'.Shaped() && m'.hosts == m.hosts && m'.jobq == m.jobq
    decreases |ks|
  {
    if ks == [] then m else Assigned(SetHost(SetNode(m, ks[0], job), ks[0], Busy), ks[1..], job)
  }

  /** The submits sent to `ks`, in order. */
  function FlightsTo(ks: seq<nat>, w: Work, ticket: nat): seq<Flight> {
    if ks == [] then [] else [Flight(ks[0], w.job, w.comm, ticket, Submitted)] + FlightsTo(ks[1..], w, ticket)
  }

  /** The first `n` elements, or all of them. */
  function Upto(ks: seq<nat>, n: int): (r: seq<nat>)
    ensures forall i :: 0 <= i < |r| ==> i < |ks| && r[i] == ks[i]
  {
    if n <= 0 then [] else if n < |ks| then ks[..n] else ks
  }

  function Turns(n: nat): (es: seq<Event>)
    ensures |es| == n
  {
    if n == 0 then [] else [Dispatch] + Turns(n - 1)
  }

  lemma Turn(s: System, n: nat)
    requires WellFormed(s) && Enabled(s, Dispatch) && WellFormed(DispatchStep(s))
    requires Run(DispatchStep(s), Turns(n))
    ensures Run(s, Turns(n + 1)) && After(s, Turns(n + 1)) == After(DispatchStep(s), Turns(n))
  {
    assert Turns(n + 1)[1..] == Turns(n);
  }

  /** Run the dispatcher alone from a scan at `k`, to the first free host or past the last. */
  ghost function Book(s: System, ks: seq<nat>): System
    requires WellFormed(s) && Books(s, Look) && forall i :: 0 <= i < |ks| ==> ks[i] <= s.m.hosts
  {
    s.(m := SetCount(Assigned(s.m, ks, s.d.w.job), s.d.w.job, s.d.w.need),
       ledger := s.ledger + FlightsTo(ks, s.d.w, |s.popped| - 1),
       d := Idle)
  }

  /** The state just after a booking turn that takes host `k`. */
  ghost function Booked(s: System, k: nat): System
    requires WellFormed(s) && Books(s, Look) && 1 <= k <= s.m.hosts
  {
    s.(m := SetHost(SetNode(s.m, k, s.d.w.job), k, Busy),
       ledger := s.ledger + [Flight(k, s.d.w.job, s.d.w.comm, |s.popped| - 1, Submitted)],
       d := Booking(s.d.w, s.d.i + 1, 1, Look))
  }

  lemma BookedWellFormed(s: System, k: nat)
    requires WellFormed(s) && Books(s, Look) && 1 <= k <= s.m.hosts
    ensures WellFormed(Booked(s, k))
  {
  }

  /** Name, take and send, uninterrupted. */
  lemma ThreeTurns(s: System, n: nat)
    requires WellFormed(s) && Books(s, Look) && s.d.i <= s.d.w.need
    requires s.d.k <= s.m.hosts && s.m.pcstat[s.d.k].Free?
    requires WellFormed(Booked(s, s.d.k)) && Run(Booked(s, s.d.k), Turns(n))
    ensures Run(s, Turns(n + 4)) && After(s, Turns(n + 4)) == After(Booked(s, s.d.k), Turns(n))
  {
    var s1 := LookStep(s);
    BookWellFormed(s);
    var s2 := NameStep(s1);
    BookWellFormed(s1);
    BookWellFormed(s2);
    TwoTurns(s2, Booked(s, s.d.k), n);
    Turn(s1, n + 2);
    Turn(s, n + 3);
  }

  /** Take and send. */
  lemma TwoTurns(s: System, s': System, n: nat)
    requires WellFormed(s) && Books(s, Take) && WellFormed(TakeStep(s)) && s' == SendStep(TakeStep(s))
    requires WellFormed(s') && Run(s', Turns(n))
    ensures Run(s, Turns(n + 2)) && After(s, Turns(n + 2)) == After(s', Turns(n))
  {
    Turn(TakeStep(s), n);
    Turn(s, n + 1);
  }

  /** `s` with the scan at host `h`. */
  ghost function At(s: System, h: nat): System
    requires s.d.Booking?
  {
    s.(d := Booking(s.d.w, s.d.i, h, Look))
  }

  /** The scan skips busy hosts and moves on to host `h`. */
  lemma {:induction false} Skip(s: System, h: nat, n: nat)
    requires WellFormed(s) && Books(s, Look) && s.d.i <= s.d.w.need && s.d.k <= h <= s.m.hosts + 1
    requires forall k :: s.d.k <= k < h ==> s.m.pcstat[k].Busy?
    requires WellFormed(At(s, h)) && Run(At(s, h), Turns(n))
    ensures Run(s, Turns(n + h - s.d.k))
    ensures After(s, Turns(n + h - s.d.k)) == After(At(s, h), Turns(n))
    decreases h - s.d.k
  {
    if s.d.k < h {
      BookWellFormed(s);
      Skip(LookStep(s), h, n);
      Turn(s, n + h - s.d.k - 1);
    }
  }

  /** Past the last host the next outer turn begins. */
  lemma PastTheEnd(s: System, n: nat)
    requires WellFormed(s) && Books(s, Look) && s.d.i <= s.d.w.need
    requires var s2 := s.(d := Booking(s.d.w, s.d.i + 1, 1, Look)); WellFormed(s2) && Run(s2, Turns(n))
    ensures var s1 := At(s, s.m.hosts + 1);
            WellFormed(s1) && Run(s1, Turns(n + 1))
            && After(s1, Turns(n + 1)) == After(s.(d := Booking(s.d.w, s.d.i + 1, 1, Look)), Turns(n))
  {
    Turn(At(s, s.m.hosts + 1), n);
  }

  /** One outer turn that finds no host. */
  lemma EmptyTurn(s: System, n: nat)
    requires WellFormed(s) && Books(s, Look) && s.d.k == 1 && s.d.i <= s.d.w.need
    requires FreeList(s.m.hosts, s.m.pcstat, 1) == []
    requires var s2 := s.(d := Booking(s.d.w, s.d.i + 1, 1, Look)); WellFormed(s2) && Run(s2, Turns(n))
    ensures Run(s, Turns(n + 1 + s.m.hosts))
    ensures After(s, Turns(n + 1 + s.m.hosts)) == After(s.(d := Booking(s.d.w, s.d.i + 1, 1, Look)), Turns(n))
  {
    NoneFree(s.m.hosts, s.m.pcstat, 1);
    PastTheEnd(s, n);
    Skip(s, s.m.hosts + 1, n + 1);
  }

  /** With no host left the remaining outer turns book nothing. */
  lemma {:induction false} IdleTurns(s: System) returns (n: nat)
    requires WellFormed(s) && Books(s, Look) && s.d.k == 1
    requires FreeList(s.m.hosts, s.m.pcstat, 1) == [] || s.d.i > s.d.w.need
    ensures Run(s, Turns(n)) && After(s, Turns(n)) == Book(s, [])
    decreases s.d.w.need - s.d.i + 1
  {
    if s.d.i > s.d.w.need {
      BookWellFormed(s);
      Turn(s, 0);
      n := 1;
    } else {
      var n2 := IdleTurns(s.(d := Booking(s.d.w, s.d.i + 1, 1, Look)));
      EmptyTurn(s, n2);
      n := n2 + 1 + s.m.hosts;
    }
  }

  /** The hosts a booking left alone will take. */
  ghost function Chosen(s: System): (ks: seq<nat>)
    requires WellFormed(s) && s.d.Booking?
    ensures forall i :: 0 <= i < |ks| ==> ks[i] <= s.m.hosts
  {
    Upto(FreeList(s.m.hosts, s.m.pcstat, 1), s.d.w.need - s.d.i + 1)
  }

  lemma ChoiceTail(hosts: nat, pcstat: seq<HostStat>, n: int)
    requires hosts < |pcstat| && Upto(FreeList(hosts, pcstat, 1), n) != []
    ensures var ks := Upto(FreeList(hosts, pcstat, 1), n);
            && 1 <= ks[0] <= hosts && pcstat[ks[0]].Free? && (forall k :: 1 <= k < ks[0] ==> pcstat[k].Busy?)
            && Upto(FreeList(hosts, pcstat[ks[0] := Busy], 1), n - 1) == ks[1..]
  {
    FreeListTail(hosts, pcstat, 1);
  }

  /** Taking the first host shifts the choice by one. */
  lemma ChosenShifts(s: System)
    requires WellFormed(s) && Books(s, Look) && Chosen(s) != []
    ensures var h := Chosen(s)[0];
            && 1 <= h <= s.m.hosts && s.m.pcstat[h].Free? && (forall k :: 1 <= k < h ==> s.m.pcstat[k].Busy?)
            && WellFormed(Booked(At(s, h), h))
            && Chosen(Booked(At(s, h), h)) == Chosen(s)[1..]
            && Book(Booked(At(s, h), h), Chosen(s)[1..]) == Book(s, Chosen(s))
  {
    ChoiceTail(s.m.hosts, s.m.pcstat, s.d.w.need - s.d.i + 1);
    var h := Chosen(s)[0];
    BookedWellFormed(At(s, h), h);
    BookUnfold(s, Chosen(s));
  }

  lemma BookUnfold(s: System, ks: seq<nat>)
    requires WellFormed(s) && Books(s, Look) && ks != [] && 1 <= ks[0]
    requires forall i :: 0 <= i < |ks| ==> ks[i] <= s.m.hosts
    requires WellFormed(Booked(At(s, ks[0]), ks[0]))
    ensures Book(s, ks) == Book(Booked(At(s, ks[0]), ks[0]), ks[1..])
  {
    var x, rest := Flight(ks[0], s.d.w.job, s.d.w.comm, |s.popped| - 1, Submitted),
                   FlightsTo(ks[1..], s.d.w, |s.popped| - 1);
    assert FlightsTo(ks, s.d.w, |s.popped| - 1) == [x] + rest;
    assert s.ledger + ([x] + rest) == (s.ledger + [x]) + rest;
  }

  /** Left alone, the restart-from-1 search books the first `need` hosts of the free list,
      or all of them if there are fewer, sends each one submit and then writes the counter. */
  lemma {:induction false} UninterruptedBooking(s: System) returns (n: nat)
    requires WellFormed(s) && Books(s, Look) && s.d.k == 1
    ensures Run(s, Turns(n)) && After(s, Turns(n)) == Book(s, Chosen(s))
    decreases s.d.w.need - s.d.i + 1
  {
    if Chosen(s) == [] {
      n := IdleTurns(s);
    } else {
      ChosenShifts(s);
      var h := Chosen(s)[0];
      var n2 := UninterruptedBooking(Booked(At(s, h), h));
      ThreeTurns(At(s, h), n2);
      Skip(s, h, n2 + 4);
      n := n2 + 4 + h - 1;
    }
  }

  // ---- a counting pass left alone

  /** The dispatcher at the end of a pass that found every host free from its position on. */
  ghost function PassDone(s: System): System
    requires WellFormed(s) && s.d.Counting?
  {
    s.(d := Counting(s.d.w, s.d.count + |FreeFrom(s.m.hosts, s.m.pcstat, s.d.k)|, s.m.hosts + 1))
  }

  lemma FreeFromStep(hosts: nat, pcstat: seq<HostStat>, k: nat)
    requires hosts < |pcstat| && 1 <= k
    ensures var free, rest := FreeFrom(hosts, pcstat, k), FreeFrom(hosts, pcstat, k + 1);
            |free| == if k > hosts then 0 else |rest| + if pcstat[k] == Free then 1 else 0
  {
    if k > hosts {
      assert FreeFrom(hosts, pcstat, k) == {};
    } else {
      var rest := FreeFrom(hosts, pcstat, k + 1);
      assert FreeFrom(hosts, pcstat, k) == if pcstat[k] == Free then rest + {k} else rest;
    }
  }

  /** The dispatcher's counting pass, uninterrupted, adds what Master.CountPass adds. */
  lemma {:induction false} PassIsRun(s: System) returns (n: nat)
    requires WellFormed(s) && s.d.Counting?
    ensures Reaches(s, Turns(n), PassDone(s))
    decreases s.m.hosts + 1 - s.d.k
  {
    FreeFromStep(s.m.hosts, s.m.pcstat, s.d.k);
    if s.d.k > s.m.hosts {
      n := 0;
    } else {
      NextWellFormed(s, Dispatch);
      var n' := PassIsRun(CountStep(s));
      assert PassDone(CountStep(s)) == PassDone(s);
      Turn(s, n');
      n := n' + 1;
    }
  }
}
