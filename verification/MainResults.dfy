/** The scheduler's main properties, stated for the state a run from the start leads to: any number
    of hosts the tables hold, any length, any interleaving of the threads, and the dispatcher as it
    is as well as the one that counts afresh in each pass. Some need every step to meet its
    condition; the others hold of every run. */
module MainResults {
  import opened JobQueue
  import opened Machine
  import opened Invariant
  import opened Exactness
  import opened Hosting
  import opened Queueing
  import opened Runs
  import Safety
  import Window

  /** A run of the program from its start, with no condition on any step. */
  ghost predicate Possible(hosts: nat, resets: bool, es: seq<Event>) {
    hosts < MAX_NUM_HOSTS && Run(Init(hosts, resets), es)
  }

  ghost function Reached(hosts: nat, resets: bool, es: seq<Event>): System
    requires Possible(hosts, resets, es)
  {
    After(Init(hosts, resets), es)
  }

  /** A run in which every step meets its condition. */
  ghost predicate Lawful(hosts: nat, resets: bool, es: seq<Event>) {
    Possible(hosts, resets, es) && Guarded(Init(hosts, resets), es)
  }

  /** In every run the jobs stored, and the one the monitor is in the middle of, are the requests read,
      each once, in order and unchanged. */
  lemma RunStoresRequests(hosts: nat, resets: bool, es: seq<Event>)
    requires Possible(hosts, resets, es)
    ensures var s := Reached(hosts, resets, es);
            && s.submitted + (if s.mon.Pushing? then [s.mon.job] else []) == Asked(es)
            && forall t :: 0 <= t < |s.submitted| ==> s.submitted[t] == Asked(es)[t]
  {
    AskedIsSubmitted(Init(hosts, resets), es);
    var s := Reached(hosts, resets, es);
    assert s.submitted + Midway(s.mon) == Asked(es);
  }

  // ---- guarded runs

  /** Counters, booked hosts and messages agree; between dispatches nothing leaks. */
  lemma RunConserves(hosts: nat, resets: bool, es: seq<Event>, job: nat)
    requires Lawful(hosts, resets, es) && job < MAX_JOB_QUEUE
    ensures var s := Reached(hosts, resets, es);
            && WellFormed(s)
            && (job != Mine(s.d) ==>
                  && s.m.jobnodes[job] == |BusyWith(s.m, job)| + Pending(s.ledger, s.r, job)
                  && |BusyWith(s.m, job)| == |Safety.InFlight(s.ledger, job)| + |Safety.Dropped(s.ledger, job)|)
            && (!s.d.Booking? && !s.r.Freed? && !s.r.Loaded? ==>
                  Safety.Sum(s.m.jobnodes) + |FreeHosts(s.m)| == s.m.hosts)
  {
    MasterRunSafe(hosts, resets, es);
    var s := Reached(hosts, resets, es);
    if job != Mine(s.d) {
      Safety.Conservation(s, job);
    }
    if !s.d.Booking? && !s.r.Freed? && !s.r.Loaded? {
      Safety.HostsConserved(s);
    }
  }

  /** A launch is marked finished at most once. While its slot is not reused, the slot says
      FINISHED exactly when all `req` returns of the launch have been processed. */
  lemma RunCompletes(hosts: nat, resets: bool, es: seq<Event>, t: nat)
    requires Lawful(hosts, resets, es)
    ensures var s := Reached(hosts, resets, es);
            && WellFormed(s)
            && (forall a, b :: 0 <= a < b < |s.finished| ==> s.finished[a] != s.finished[b])
            && |s.popped| <= |s.submitted| <= |Asked(es)|
            && (t < |s.popped| && t != InHand(s) && Asked(es)[t].req <= s.m.hosts ==>
                  && |Sent(s.ledger, t)| == Asked(es)[t].req
                  && (t in s.finished <==> AllClosed(s.ledger, s.r, t))
                  && (|s.submitted| <= t + MAX_JOB_QUEUE ==>
                        (s.m.jobq[SlotOf(t)].stat == Finished <==> AllClosed(s.ledger, s.r, t))))
  {
    MasterRunSafe(hosts, resets, es);
    RunStoresRequests(hosts, resets, es);
    var s := Reached(hosts, resets, es);
    if t < |s.popped| && t != InHand(s) && |s.submitted| <= t + MAX_JOB_QUEUE && s.submitted[t].req <= s.m.hosts {
      Safety.CompletionExact(s, t);
    }
  }

  /** Every launch whose dispatch is over was sent as many submits as it asked for, or, asking
      for more hosts than there are, none. */
  lemma RunDispatches(hosts: nat, resets: bool, es: seq<Event>, t: nat)
    requires Lawful(hosts, resets, es)
    ensures var s := Reached(hosts, resets, es);
            && |s.popped| <= |s.submitted| <= |Asked(es)|
            && (t < |s.popped| && t != InHand(s) ==>
                  var sent, job := Sent(s.ledger, t), Asked(es)[t];
                  && |sent| == (if job.req <= s.m.hosts then job.req else 0)
                  && (forall f :: f in sent ==> s.ledger[f].comm == job.comm))
  {
    MasterRunSafe(hosts, resets, es);
    RunStoresRequests(hosts, resets, es);
    var s := Reached(hosts, resets, es);
    if t < |s.popped| && t != InHand(s) {
      Safety.AllOrNothing(s, t);
    }
  }

  /** An outstanding submit's slot still holds the job of the launch that sent it, running. */
  lemma RunCreditsRightly(hosts: nat, resets: bool, es: seq<Event>, f: nat)
    requires Lawful(hosts, resets, es)
    requires f < |Reached(hosts, resets, es).ledger| && Reached(hosts, resets, es).ledger[f].Owed()
    ensures var s := Reached(hosts, resets, es);
            && WellFormed(s) && s.ledger[f].ticket < |s.submitted| <= |Asked(es)|
            && var t := s.ledger[f].ticket;
               s.m.jobq[s.ledger[f].job] == Slot(Asked(es)[t].comm, Asked(es)[t].user, Asked(es)[t].req,
                                                 Running, SlotOf(t))
  {
    MasterRunSafe(hosts, resets, es);
    RunStoresRequests(hosts, resets, es);
    Safety.CreditedToItsLaunch(Reached(hosts, resets, es), f);
  }

  /** A slot is INQUEUE exactly between `tail` and `head`, and while hosts are still needed a
      booking finds one. */
  lemma RunQueuesAndFinds(hosts: nat, resets: bool, es: seq<Event>, i: nat)
    requires Lawful(hosts, resets, es) && i < MAX_JOB_QUEUE
    ensures var s := Reached(hosts, resets, es);
            && WellFormed(s)
            && (s.m.jobq[i].stat == InQueue <==> Safety.InCycle(s.m.tail, s.m.head, i))
            && (Books(s, Look) && s.d.i <= s.d.w.need ==> s.d.k <= s.m.hosts)
  {
    MasterRunSafe(hosts, resets, es);
    Safety.StatusIsPosition(Reached(hosts, resets, es), i);
    if Reached(hosts, resets, es).d.Booking? {
      Safety.BookingNeverStarves(Reached(hosts, resets, es));
    }
  }

  // ---- every run of the program as it is

  /** The submits of a launch whose dispatch is over went to different hosts if and only if no
      booking of the launch took back a host that a return of the same launch had freed. */
  lemma RunHostsDistinct(hosts: nat, resets: bool, es: seq<Event>, t: nat)
    requires Possible(hosts, resets, es)
    ensures var s := Reached(hosts, resets, es);
            t != InHand(s) ==>
              ((exists f, g :: 0 <= f < g < |s.ledger| && s.ledger[f].ticket == s.ledger[g].ticket == t
                               && s.ledger[f].host == s.ledger[g].host)
               <==> Window.Rebooked(Init(hosts, resets), es, t))
  {
    InitHosted(hosts, resets);
    Window.DoubledRun(Init(hosts, resets), es, t);
  }

  /** No host gets two submits of one launch as long as returns of the launch in hand wait until
      its dispatch is over. */
  lemma RunWithoutEarlyTakes(hosts: nat, resets: bool, es: seq<Event>, t: nat)
    requires Possible(hosts, resets, es) && Window.NeverTakesOwn(Init(hosts, resets), es)
    ensures var s := Reached(hosts, resets, es);
            forall f, g :: 0 <= f < g < |s.ledger| && s.ledger[f].ticket == s.ledger[g].ticket == t
                           ==> s.ledger[f].host != s.ledger[g].host
  {
    InitHosted(hosts, resets);
    Window.UntakenRun(Init(hosts, resets), es, t);
    Window.DoubledRun(Init(hosts, resets), es, t);
  }

  /** A cancel selects a busy host exactly when the host has a submit of that job outstanding,
      or is about to be sent one; and a booking takes only free hosts. */
  lemma RunSelectsAndTakes(hosts: nat, resets: bool, es: seq<Event>, job: int, k: nat)
    requires Possible(hosts, resets, es) && 1 <= k <= hosts
    ensures var s := Reached(hosts, resets, es);
            && WellFormed(s) && s.m.hosts == hosts
            && (s.m.pcstat[k].Busy? ==>
                  (s.m.nodesstat[k] == job <==>
                     || (Sending(s.d) == k && Mine(s.d) == job)
                     || exists f :: f in Owing(s.ledger, job) && s.ledger[f].host == k))
            && (Books(s, Take) ==> s.m.pcstat[s.d.k].Free?)
  {
    MasterRunHosted(hosts, resets, es);
    RunKeepsHosts(Init(hosts, resets), es);
    var s := Reached(hosts, resets, es);
    if s.m.pcstat[k].Busy? {
      Safety.CancelPrecise(s, job, k);
      assert forall f :: f in Owing(s.ledger, job) <==>
        0 <= f < |s.ledger| && s.ledger[f].job == job && s.ledger[f].Owed();
    }
  }

  /** As long as no push finds the ring full, what was popped is a prefix of what the clients asked
      for, at most 31 jobs behind what was stored of it, the queued slots hold the next ones, and the
      two index tests tell an empty and a full ring. */
  lemma RunIsFifo(hosts: nat, resets: bool, es: seq<Event>)
    requires Possible(hosts, resets, es) && NoFull(Init(hosts, resets), es)
    ensures var s := Reached(hosts, resets, es);
            && |s.popped| <= |s.submitted| <= |s.popped| + MAX_JOB_QUEUE - 1
            && |s.submitted| <= |Asked(es)| <= |s.submitted| + 1 && |s.m.jobq| == MAX_JOB_QUEUE
            && (forall t :: 0 <= t < |s.popped| ==> s.popped[t] == (Asked(es)[t].comm, Asked(es)[t].req))
            && (forall t :: |s.popped| <= t < |s.submitted| ==>
                  && s.m.jobq[SlotOf(t)].comm == Asked(es)[t].comm && s.m.jobq[SlotOf(t)].user == Asked(es)[t].user
                  && s.m.jobq[SlotOf(t)].req == Asked(es)[t].req)
            && (s.m.IsEmpty() <==> |s.submitted| == |s.popped|)
            && (s.m.IsFull() <==> |s.submitted| == |s.popped| + MAX_JOB_QUEUE - 1)
  {
    RunStoresRequests(hosts, resets, es);
    InitQueued(hosts, resets);
    RunQueued(Init(hosts, resets), es);
    QueueArithmetic(Reached(hosts, resets, es));
  }
}
