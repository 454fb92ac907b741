/** The invariant that ties ring, status fields, allocation tables, counters and
    messages together. Each part is a predicate of just the state it speaks of. */
module Invariant {
  import opened JobQueue
  import opened Machine

  /** The ring slot of the `t`-th submitted job. */
  function SlotOf(t: nat): nat {
    t % MAX_JOB_QUEUE
  }

  lemma SlotOfInjective(t: nat, u: nat)
    requires SlotOf(t) == SlotOf(u) && t < u + MAX_JOB_QUEUE && u < t + MAX_JOB_QUEUE
    ensures t == u
  {
  }

  /** How slots move as tickets advance by up to one lap. */
  lemma SlotShift(t: nat, d: nat)
    requires d <= MAX_JOB_QUEUE
    ensures SlotOf(t + d) == SlotOf(t) + d || SlotOf(t + d) == SlotOf(t) + d - MAX_JOB_QUEUE
  {
  }

  /** Empty and full, read off the two indices. */
  lemma RingArithmetic(p: nat, q: nat)
    requires q <= p < q + MAX_JOB_QUEUE
    ensures SlotOf(p) == SlotOf(q) <==> p == q
    ensures Succ(SlotOf(p)) == SlotOf(q) <==> p == q + MAX_JOB_QUEUE - 1
  {
    SlotShift(q, p - q);
    SlotShift(q, p - q + 1);
    SlotShift(p, 1);
  }

  /** Submits for `job` whose return the master has not taken: in flight, executing,
      coming back or lost. */
  ghost function Owing(l: seq<Flight>, job: int): set<int> {
    set f | 0 <= f < |l| && l[f].job == job && l[f].Owed()
  }

  /** All submits sent for launch `t`. */
  ghost function Sent(l: seq<Flight>, t: int): set<int> {
    set f | 0 <= f < |l| && l[f].ticket == t
  }

  /** The master has not finished processing flight `f`. */
  ghost predicate Open(l: seq<Flight>, r: Results, f: int) {
    0 <= f < |l| && (l[f].Owed() || (!r.Waiting? && r.f == f))
  }

  /** No flight of launch `t` is open. */
  ghost predicate AllClosed(l: seq<Flight>, r: Results, t: int) {
    forall f :: 0 <= f < |l| && l[f].ticket == t ==> !Open(l, r, f)
  }

  /** The job slot the dispatcher is working on, or -1. */
  function Mine(d: Dispatcher): int {
    if d.Idle? then -1 else d.w.job
  }

  /** The launch the dispatcher is working on, or -1. */
  function InHand(s: System): int {
    if s.d.Idle? then -1 else |s.popped| - 1
  }

  /** The host that is marked busy but whose submit is not sent yet, or 0. */
  function Sending(d: Dispatcher): nat {
    if d.Booking? && d.at.Send? then d.k else 0
  }

  /** One when the result thread has freed a host of `job` but not yet lowered its counter. */
  ghost function Pending(l: seq<Flight>, r: Results, job: int): nat {
    if (r.Freed? || r.Loaded?) && r.f < |l| && l[r.f].job == job then 1 else 0
  }

  ghost function StatOf(q: nat, finished: seq<nat>, t: int): JobStat {
    if t >= q then InQueue else if t in finished then Finished else Running
  }

  /** The ring is an unbounded queue of tickets seen through a window of 32. */
  ghost predicate RingInv(jobq: seq<Slot>, submitted: seq<Job>, q: nat, finished: seq<nat>)
    requires |jobq| == MAX_JOB_QUEUE
  {
    && |submitted| < q + MAX_JOB_QUEUE
    && (forall t :: 0 <= t < |submitted| ==> submitted[t].req >= 1)
    && (forall t :: 0 <= t < |submitted| <= t + MAX_JOB_QUEUE ==>
          jobq[SlotOf(t)] == Slot(submitted[t].comm, submitted[t].user, submitted[t].req,
                                  StatOf(q, finished, t), SlotOf(t)))
    && (forall j :: |submitted| <= j < MAX_JOB_QUEUE ==> jobq[j].stat.Unknown?)
  }

  /** What was popped is what was submitted, in order. */
  ghost predicate FifoInv(submitted: seq<Job>, popped: seq<(Text, int)>) {
    && |popped| <= |submitted|
    && forall t :: 0 <= t < |popped| ==> popped[t] == (submitted[t].comm, submitted[t].req)
  }

  /** What the dispatcher holds and has sent so far. */
  ghost predicate DutyInv(d: Dispatcher, hosts: nat, l: seq<Flight>, submitted: seq<Job>, q: nat)
    requires q <= |submitted|
  {
    !d.Idle? ==>
      && q >= 1
      && d.w == Work(SlotOf(q - 1), submitted[q - 1].comm, submitted[q - 1].req)
      && d.w.need <= hosts
      && (d.Counting? ==> d.count >= 0)
      && |Sent(l, q - 1)| == (if d.Booking? then d.i - 1 else 0)
  }

  /** While a job is in hand its counter holds, as a debt, the returns of its own submits
      that were counted before the counter is written. */
  ghost predicate WindowInv(d: Dispatcher, jobnodes: seq<int>, l: seq<Flight>, r: Results, q: nat)
    requires |jobnodes| == MAX_JOB_QUEUE
  {
    !d.Idle? && d.w.job < MAX_JOB_QUEUE ==>
      && jobnodes[d.w.job] <= 0
      && (d.Counting? ==> jobnodes[d.w.job] == 0)
      && |Sent(l, q - 1)| + jobnodes[d.w.job] == |Owing(l, d.w.job)| + Pending(l, r, d.w.job)
  }

  /** The free hosts a booking can still count on. */
  ghost predicate BookInv(hosts: nat, pcstat: seq<HostStat>, nodesstat: seq<int>, d: Dispatcher)
    requires hosts < |pcstat| == |nodesstat|
  {
    d.Booking? ==>
      var left, k := d.w.need - d.i, d.k;
      var free := |FreeFrom(hosts, pcstat, if d.at.Look? then k else 1)|;
      && d.i >= 1 && 1 <= k <= hosts + 1
      && match d.at
         case Look => -1 <= left < free
         case Name => 0 <= left < free && k <= hosts && pcstat[k].Free?
         case Take => 0 <= left < free && k <= hosts && pcstat[k].Free? && nodesstat[k] == d.w.job
         case Send => 0 <= left <= free && k <= hosts && pcstat[k].Busy? && nodesstat[k] == d.w.job
  }

  /** Every flight belongs to its launch, and open ones to one of the last 32 launches. */
  ghost predicate FlightInv(l: seq<Flight>, r: Results, submitted: seq<Job>, q: nat)
    requires q <= |submitted|
  {
    && (forall f :: 0 <= f < |l| ==>
          l[f].ticket < q && l[f].job == SlotOf(l[f].ticket) && l[f].comm == submitted[l[f].ticket].comm)
    && (forall f :: 0 <= f < |l| && Open(l, r, f) ==> |submitted| <= l[f].ticket + MAX_JOB_QUEUE)
    && (!r.Waiting? ==> r.f < |l| && !l[r.f].Owed())
  }

  ghost predicate Held(l: seq<Flight>, k: int) {
    exists f :: 0 <= f < |l| && l[f].Owed() && l[f].host == k
  }

  /** Outstanding flights hold one busy host each, and every busy host is so held. */
  ghost predicate HostInv(hosts: nat, pcstat: seq<HostStat>, nodesstat: seq<int>, sending: nat, l: seq<Flight>)
    requires hosts < |pcstat| == |nodesstat|
  {
    && (forall f :: 0 <= f < |l| ==> 1 <= l[f].host <= hosts)
    && (forall f :: 0 <= f < |l| && l[f].Owed() ==>
          pcstat[l[f].host].Busy? && nodesstat[l[f].host] == l[f].job && l[f].host != sending)
    && (forall f, g :: 0 <= f < g < |l| && l[f].Owed() && l[g].Owed() ==> l[f].host != l[g].host)
    && (forall k :: 1 <= k <= hosts && pcstat[k].Busy? ==> k == sending || Held(l, k))
  }

  /** The counters of all jobs but the one in hand agree with the ledger, and a counter the
      result thread has loaded has not been written since. */
  ghost predicate CountInv(jobnodes: seq<int>, mine: int, l: seq<Flight>, r: Results)
    requires |jobnodes| == MAX_JOB_QUEUE
  {
    && (forall j :: 0 <= j < MAX_JOB_QUEUE && j != mine ==> jobnodes[j] == |Owing(l, j)| + Pending(l, r, j))
    && (r.Loaded? ==> r.f < |l| && l[r.f].job < MAX_JOB_QUEUE && r.v == jobnodes[l[r.f].job])
    && (r.Finishing? ==> r.f < |l| && Owing(l, l[r.f].job) == {} && l[r.f].job != mine)
  }

  /** A pass that counts afresh has counted no more hosts than are free behind it. */
  ghost predicate PassInv(resets: bool, hosts: nat, pcstat: seq<HostStat>, d: Dispatcher)
    requires hosts < |pcstat|
  {
    resets && d.Counting? ==> d.count <= |FreeBelow(hosts, pcstat, d.k)|
  }

  ghost predicate SentInv(l: seq<Flight>, submitted: seq<Job>, q: nat, inHand: int, hosts: nat)
    requires q <= |submitted|
  {
    forall t :: 0 <= t < q && t != inHand ==>
      |Sent(l, t)| == if submitted[t].req <= hosts then submitted[t].req else 0
  }

  ghost predicate DoneInv(finished: seq<nat>, l: seq<Flight>, r: Results, submitted: seq<Job>, q: nat,
                          inHand: int, hosts: nat)
    requires q <= |submitted|
  {
    && (forall a, b :: 0 <= a < b < |finished| ==> finished[a] != finished[b])
    && (forall t :: t in finished ==> t < q && t != inHand)
    && (forall t :: 0 <= t < q && t != inHand ==>
          (t in finished <==> submitted[t].req <= hosts && AllClosed(l, r, t)))
  }

  /** What all steps keep as long as requests are sound and the counter is written over no debt. */
  ghost predicate Base(s: System) {
    var q := |s.popped|;
    && WellFormed(s)
    && RingInv(s.m.jobq, s.submitted, q, s.finished)
    && FifoInv(s.submitted, s.popped)
    && DutyInv(s.d, s.m.hosts, s.ledger, s.submitted, q)
    && BookInv(s.m.hosts, s.m.pcstat, s.m.nodesstat, s.d)
    && PassInv(s.resets, s.m.hosts, s.m.pcstat, s.d)
    && FlightInv(s.ledger, s.r, s.submitted, q)
    && HostInv(s.m.hosts, s.m.pcstat, s.m.nodesstat, Sending(s.d), s.ledger)
    && CountInv(s.m.jobnodes, Mine(s.d), s.ledger, s.r)
    && WindowInv(s.d, s.m.jobnodes, s.ledger, s.r, q)
    && SentInv(s.ledger, s.submitted, q, InHand(s), s.m.hosts)
    && DoneInv(s.finished, s.ledger, s.r, s.submitted, q, InHand(s), s.m.hosts)
  }

  /** The result thread has loaded the counter of the job in hand and not stored it yet. */
  ghost predicate LoadedMine(s: System)
    requires WellFormed(s)
  {
    s.r.Loaded? && !s.d.Idle? && s.ledger[s.r.f].job == s.d.w.job
  }

  /** No decrement for the job in hand has begun. */
  ghost predicate NoDebt(s: System)
    requires WellFormed(s)
  {
    !s.d.Idle? ==> s.m.jobnodes[s.d.w.job] == 0 && !LoadedMine(s)
  }

  /** The decrements for the job in hand that have begun: stored ones and one only loaded. */
  ghost function Debt(s: System): int
    requires WellFormed(s) && !s.d.Idle?
  {
    -s.m.jobnodes[s.d.w.job] + if LoadedMine(s) then 1 else 0
  }

  ghost predicate Inv(s: System) {
    Base(s) && NoDebt(s)
  }

  lemma InitInv(hosts: nat, resets: bool)
    requires hosts < MAX_NUM_HOSTS
    ensures Inv(Init(hosts, resets))
  {
  }

  /** The slot the next push will use has nothing outstanding, the result thread's
      half-processed return included. */
  ghost predicate NoLap(s: System)
    requires WellFormed(s)
  {
    s.m.jobnodes[s.m.head] == 0 && (!s.r.Waiting? ==> s.ledger[s.r.f].job != s.m.head)
  }

  /** The step begins to lower the counter of the job whose hosts are being booked. */
  ghost predicate Early(s: System, e: Event)
    requires WellFormed(s) && Enabled(s, e)
  {
    e.ResultNext? && s.r.Freed? && s.d.Booking? && s.ledger[s.r.f].job == s.d.w.job
  }

  /** The condition each step needs to keep `Inv`. Only three kinds of step need one, and the
      end of a pass only where counts add up over passes. */
  ghost predicate Ok(s: System, e: Event)
    requires WellFormed(s) && Enabled(s, e)
  {
    match e
    case SubmitPush => !s.m.IsFull() && NoLap(s) && s.mon.job.req >= 1
    case Dispatch =>
      !s.resets && s.d.Counting? && s.d.k > s.m.hosts && s.d.count >= s.d.w.need ==> |FreeHosts(s.m)| >= s.d.w.need
    case ResultNext => !Early(s, e)
    case _ => true
  }

  /** The step writes the counter of the job in hand. */
  ghost predicate Publishes(s: System, e: Event)
    requires WellFormed(s)
  {
    e.Dispatch? && Books(s, Look) && s.d.i > s.d.w.need
  }

  /** The condition each step needs to keep `Base`: early counting is let in, and what then
      matters is the write over the debt it left. */
  ghost predicate BaseOk(s: System, e: Event)
    requires WellFormed(s) && Enabled(s, e)
  {
    if Publishes(s, e) then NoDebt(s)
    else e.ResultNext? || Ok(s, e)
  }
}
