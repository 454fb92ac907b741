/** What a cancel stops. The sweep selects hosts by their last job, but the worker cancels
    whatever it is running when the message arrives. */
module Cancels {
  import opened Machine
  import opened Exactness
  import opened Hosting
  import Runs

  /** A cancel that hits stops a submit of the job it names if and only if that job is still
      the last one its host was given. */
  lemma HitsItsJob(s: System, c: nat, g: nat)
    requires Hosted(s) && Enabled(s, CancelHit(c, g))
    ensures s.ledger[g].job == s.cancels[c].job <==> s.m.nodesstat[s.cancels[c].host] == s.cancels[c].job
  {
    assert s.ledger[g].Owed();
  }

  lemma CancelKept(s: System, e: Event, c: nat)
    requires WellFormed(s) && Enabled(s, e) && c < |s.cancels|
    ensures c < |Next(s, e).cancels|
    ensures Next(s, e).cancels[c].host == s.cancels[c].host && Next(s, e).cancels[c].job == s.cancels[c].job
  {
  }

  /** Along a run a cancel keeps its host and job. */
  lemma {:induction false} CancelFollowed(s: System, es: seq<Event>, c: nat)
    requires WellFormed(s) && Run(s, es) && c < |s.cancels|
    ensures c < |After(s, es).cancels|
    ensures After(s, es).cancels[c].host == s.cancels[c].host && After(s, es).cancels[c].job == s.cancels[c].job
    decreases |es|
  {
    if es != [] {
      NextWellFormed(s, es[0]);
      CancelKept(s, es[0], c);
      CancelFollowed(Next(s, es[0]), es[1..], c);
    }
  }

  /** Along a run a submit keeps its host; one whose return has been taken never comes back. */
  lemma {:induction false} Followed(s: System, es: seq<Event>, f: nat)
    requires WellFormed(s) && Run(s, es) && f < |s.ledger|
    ensures WellFormed(After(s, es)) && f < |After(s, es).ledger|
    ensures After(s, es).ledger[f].host == s.ledger[f].host
    ensures Runs.Rank(s.ledger[f].phase) <= Runs.Rank(After(s, es).ledger[f].phase)
    decreases |es|
  {
    if es != [] {
      NextWellFormed(s, es[0]);
      Runs.FlightsAdvance(s, es[0], f);
      Followed(Next(s, es[0]), es[1..], f);
    }
  }

  /** The sweep is about to send a cancel to a host. */
  ghost predicate Sends(s: System)
    requires WellFormed(s)
  {
    s.mon.Sweeping? && s.mon.node <= s.m.hosts && s.m.nodesstat[s.mon.node] == s.mon.target
  }

  /** The sweep is about to send a cancel to the host that holds submit `f`. */
  ghost predicate Selects(s: System, f: nat)
    requires WellFormed(s)
  {
    && Sends(s) && f < |s.ledger| && s.ledger[f].Owed() && s.ledger[f].host == s.mon.node
  }

  /** The state with that cancel sent. */
  ghost function Sent(s: System): (s1: System)
    requires Hosted(s) && Sends(s)
    ensures Hosted(s1)
  {
    HostedStep(s, CancelNext);
    SweepStep(s)
  }

  /** After the run, from the moment of sending, the cancel hits submit `g`. */
  ghost predicate Hits(s: System, es: seq<Event>, g: nat)
    requires Hosted(s) && Sends(s)
  {
    var s1 := Sent(s);
    && Run(s1, es)
    && WellFormed(After(s1, es)) && Enabled(After(s1, es), CancelHit(|s.cancels|, g))
  }

  /** A submit whose return has been taken is never stopped. */
  lemma GoneStays(s: System, es: seq<Event>, g: nat)
    requires WellFormed(s) && Run(s, es) && g < |s.ledger| && !s.ledger[g].Owed()
    ensures g < |After(s, es).ledger| && !After(s, es).ledger[g].phase.Executing?
  {
    Followed(s, es, g);
  }

  /** What a cancel hits on its host was outstanding when the run began, or was sent later. */
  lemma HitWasOwed(s: System, es: seq<Event>, c: nat, g: nat)
    requires WellFormed(s) && Run(s, es) && c < |s.cancels|
    requires WellFormed(After(s, es)) && Enabled(After(s, es), CancelHit(c, g))
    ensures g < |s.ledger| ==> s.ledger[g].host == s.cancels[c].host && s.ledger[g].Owed()
    ensures g < |After(s, es).ledger| && After(s, es).ledger[g].host == s.cancels[c].host
    ensures After(s, es).ledger[g].phase.Executing?
  {
    CancelFollowed(s, es, c);
    if g < |s.ledger| {
      Followed(s, es, g);
      if !s.ledger[g].Owed() {
        GoneStays(s, es, g);
      }
    }
  }

  lemma OneOutstanding(s: System, f: nat, g: nat)
    requires Hosted(s) && f < |s.ledger| && g < |s.ledger| && s.ledger[f].host == s.ledger[g].host
    requires s.ledger[g].phase.Executing?
    ensures f == g <==> s.ledger[f].phase.Executing?
    ensures f != g ==> s.ledger[f].phase.Credited?
  {
    assert s.ledger[g].Owed();
  }

  lemma SentFacts(s: System)
    requires Hosted(s) && Sends(s)
    ensures var s1, c := Sent(s), |s.cancels|;
            && s1.ledger == s.ledger && |s1.cancels| == c + 1
            && s1.cancels[c] == CancelMsg(s.mon.node, s.mon.target, false)
  {
  }

  /** Cancel `c` is addressed to the host that holds submit `f`. */
  lemma Delivered(s: System, es: seq<Event>, c: nat, f: nat, g: nat)
    requires Hosted(s) && Run(s, es) && c < |s.cancels|
    requires f < |s.ledger| && s.ledger[f].Owed() && s.ledger[f].host == s.cancels[c].host
    requires WellFormed(After(s, es)) && Enabled(After(s, es), CancelHit(c, g))
    ensures var s' := After(s, es);
            && f < |s'.ledger| && (g == f <==> s'.ledger[f].phase.Executing?)
            && (g != f ==> s'.ledger[f].phase.Credited? && g >= |s.ledger|)
  {
    HitWasOwed(s, es, c, g);
    Followed(s, es, f);
    RunHosted(s, es);
    OneOutstanding(After(s, es), f, g);
    if g < |s.ledger| {
      OneOwed(s, f, g);
    }
  }

  /** The state after the cancel has hit submit `g`. */
  ghost function AfterHit(s: System, es: seq<Event>, g: nat): System
    requires Hosted(s) && Sends(s) && Hits(s, es, g)
  {
    Next(After(Sent(s), es), CancelHit(|s.cancels|, g))
  }

  /** A hit stops the submit it hits and touches no other. */
  lemma HitStops(s: System, c: nat, g: nat)
    requires WellFormed(s) && Enabled(s, CancelHit(c, g))
    ensures var s' := Next(s, CancelHit(c, g));
            && |s'.ledger| == |s.ledger| && s.ledger[g].phase.Executing? && s'.ledger[g].phase.Cancelled?
            && forall f :: 0 <= f < |s.ledger| && f != g ==> s'.ledger[f] == s.ledger[f]
  {
    forall f: nat | f < |s.ledger| && f != g ensures Next(s, CancelHit(c, g)).ledger[f] == s.ledger[f] {
      Runs.FlightsAdvance(s, CancelHit(c, g), f);
    }
    Runs.FlightsAdvance(s, CancelHit(c, g), g);
  }

  /** A submit that was stopped never executes again, and stays stopped until its worker is done
      with it and sends the return. */
  lemma {:induction false} StoppedStays(s: System, es: seq<Event>, f: nat)
    requires WellFormed(s) && Run(s, es) && f < |s.ledger| && s.ledger[f].phase.Cancelled?
    ensures f < |After(s, es).ledger| && !After(s, es).ledger[f].phase.Executing?
    ensures After(s, es).ledger[f].phase.Cancelled? <==> WorkerDone(f) !in es
    decreases |es|
  {
    if es != [] {
      NextWellFormed(s, es[0]);
      Runs.FlightsAdvance(s, es[0], f);
      assert es == [es[0]] + es[1..];
      if es[0] == WorkerDone(f) {
        Followed(Next(s, es[0]), es[1..], f);
      } else {
        StoppedStays(Next(s, es[0]), es[1..], f);
      }
    }
  }

  /** A submit is found stopped only after a cancel has hit it. */
  lemma {:induction false} StoppedByHit(s: System, es: seq<Event>, f: nat)
    requires WellFormed(s) && Run(s, es) && f < |After(s, es).ledger| && After(s, es).ledger[f].phase.Cancelled?
    requires f < |s.ledger| ==> !s.ledger[f].phase.Cancelled?
    ensures exists e :: e in es && e.CancelHit? && e.f == f
    decreases |es|
  {
    if es == [] {
      assert false;
    } else {
      var s1 := Next(s, es[0]);
      NextWellFormed(s, es[0]);
      if f < |s.ledger| {
        Runs.FlightsAdvance(s, es[0], f);
      } else if f < |s1.ledger| {
        NewIsSubmitted(s, es[0], f);
      }
      if f < |s1.ledger| && s1.ledger[f].phase.Cancelled? {
        assert es[0] in es && es[0].CancelHit? && es[0].f == f;
      } else {
        StoppedByHit(s1, es[1..], f);
        var e :| e in es[1..] && e.CancelHit? && e.f == f;
        assert e in es;
      }
    }
  }

  lemma NewIsSubmitted(s: System, e: Event, f: nat)
    requires WellFormed(s) && Enabled(s, e) && |s.ledger| <= f < |Next(s, e).ledger|
    ensures Next(s, e).ledger[f].phase.Submitted?
  {
  }

  lemma DeliveredOnce(s: System, e: Event, c: nat)
    requires WellFormed(s) && Enabled(s, e) && c < |s.cancels|
    ensures c < |Next(s, e).cancels|
    ensures Next(s, e).cancels[c].delivered <==>
            s.cancels[c].delivered || e == CancelMiss(c) || (e.CancelHit? && e.c == c)
    ensures s.cancels[c].delivered ==> e != CancelMiss(c) && !(e.CancelHit? && e.c == c)
  {
  }

  /** How many submits cancel `c` hits in the run. */
  function HitsOf(es: seq<Event>, c: nat): nat {
    if es == [] then 0 else (if es[0].CancelHit? && es[0].c == c then 1 else 0) + HitsOf(es[1..], c)
  }

  /** A cancel stops at most one submit. */
  lemma {:induction false} OneHitPerCancel(s: System, es: seq<Event>, c: nat)
    requires WellFormed(s) && Run(s, es) && c < |s.cancels|
    ensures HitsOf(es, c) <= if s.cancels[c].delivered then 0 else 1
    decreases |es|
  {
    if es != [] {
      NextWellFormed(s, es[0]);
      DeliveredOnce(s, es[0], c);
      OneHitPerCancel(Next(s, es[0]), es[1..], c);
    }
  }

  /** A cancel sent while its host held submit `f` stops `f` itself if and only if `f` is still
      executing when it hits; otherwise `f` has long returned and what is stopped was sent to
      the host only after the cancel. */
  lemma CancelDelivery(s: System, es: seq<Event>, f: nat, g: nat)
    requires Hosted(s) && Selects(s, f) && Hits(s, es, g)
    ensures var s', s2 := After(Sent(s), es), AfterHit(s, es, g);
            && s.ledger[f].job == s.mon.target
            && |s'.cancels| > |s.cancels| && s'.cancels[|s.cancels|].host == s.mon.node
            && s'.cancels[|s.cancels|].job == s.mon.target
            && f < |s'.ledger| == |s2.ledger| && g < |s2.ledger| && s2.ledger[g].phase.Cancelled?
            && (s2.ledger[f].phase.Cancelled? <==> s'.ledger[f].phase.Executing?)
            && (g == f <==> s'.ledger[f].phase.Executing?)
            && (g != f ==> s2.ledger[f].phase.Credited? && g >= |s.ledger|)
  {
    SentFacts(s);
    CancelFollowed(Sent(s), es, |s.cancels|);
    Delivered(Sent(s), es, |s.cancels|, f, g);
    HitStops(After(Sent(s), es), |s.cancels|, g);
  }

  /** A cancel sent to a host that holds no submit, free or about to be sent one, stops nothing
      that was there: what it stops was sent after it. */
  lemma VacantDelivery(s: System, es: seq<Event>, g: nat)
    requires Hosted(s) && Sends(s) && Hits(s, es, g)
    requires forall f :: 0 <= f < |s.ledger| && s.ledger[f].host == s.mon.node ==> !s.ledger[f].Owed()
    ensures g >= |s.ledger|
  {
    SentFacts(s);
    HitWasOwed(Sent(s), es, |s.cancels|, g);
  }

  /** Wherever it was sent, a cancel for a job stops a submit of that job if and only if its
      host has not been given another job by the time it hits. */
  lemma CancelStopsItsJob(s: System, es: seq<Event>, g: nat)
    requires Hosted(s) && Sends(s) && Hits(s, es, g)
    ensures var s', s2 := After(Sent(s), es), AfterHit(s, es, g);
            && WellFormed(s') && g < |s2.ledger| && s2.ledger[g].phase.Cancelled?
            && (s2.ledger[g].job == s.mon.target <==> s'.m.nodesstat[s.mon.node] == s.mon.target)
  {
    SentFacts(s);
    CancelFollowed(Sent(s), es, |s.cancels|);
    RunHosted(Sent(s), es);
    HitsItsJob(After(Sent(s), es), |s.cancels|, g);
    HitStops(After(Sent(s), es), |s.cancels|, g);
  }
}
