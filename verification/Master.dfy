/** The master's tables as the program keeps them, arrays and indices updated in place,
    with the loops of the monitor, the dispatcher and the result thread. */
module MasterTables {
  import opened JobQueue
  import opened Wrappers
  import opened BookingOrder

  /** The hosts a cancel for `job` is sent to, from host `k` on. */
  function Selected(m: Tables, job: int, k: nat): seq<nat>
    requires m.Shaped()
    decreases m.hosts + 1 - k
  {
    if k > m.hosts then []
    else (if m.nodesstat[k] == job then [k] else []) + Selected(m, job, k + 1)
  }

  /** The status of the first slot from `i` on that carries job id `id`. */
  function ScanStat(jobq: seq<Slot>, id: int, i: nat): JobStat
    decreases |jobq| - i
  {
    if i >= |jobq| then Unknown
    else if jobq[i].id == id then jobq[i].stat
    else ScanStat(jobq, id, i + 1)
  }

  /** The whole handling of one return message. */
  function Returned(m: Tables, src: nat, job: nat): (m': Tables)
    requires m.Shaped() && 1 <= src <= m.hosts && job < MAX_JOB_QUEUE
    ensures m'.Shaped()
  {
    var m1 := SetCount(SetHost(m, src, Free), job, m.jobnodes[job] - 1);
    if m1.jobnodes[job] == 0 then SetFinished(m1, job) else m1
  }

  /** The host an outer turn books: the first free one, or one past the last. */
  ghost function TurnHost(m: Tables): nat
    requires m.Shaped()
  {
    var free := FreeList(m.hosts, m.pcstat, 1);
    if free == [] then m.hosts + 1 else free[0]
  }

  ghost function AfterTurn(m: Tables, job: nat): (m': Tables)
    requires m.Shaped()
    ensures m'.Shaped() && m'.hosts == m.hosts
  {
    var k := TurnHost(m);
    if k > m.hosts then m else SetHost(SetNode(m, k, job), k, Busy)
  }

  /** After `n` outer turns from `m0`: the tables are `m` and `booked` the hosts taken. */
  ghost predicate BookedSoFar(m0: Tables, m: Tables, booked: seq<nat>, n: nat, job: nat)
    requires m0.Shaped() && m.Shaped()
  {
    && booked == Upto(FreeList(m0.hosts, m0.pcstat, 1), n)
    && booked + FreeList(m.hosts, m.pcstat, 1) == FreeList(m0.hosts, m0.pcstat, 1)
    && m == Assigned(m0, booked, job)
  }

  lemma BookStart(m: Tables, job: nat)
    requires m.Shaped()
    ensures BookedSoFar(m, m, [], 0, job)
  {
  }

  lemma BookEnd(m0: Tables, m: Tables, booked: seq<nat>, n: nat, job: nat, need: int)
    requires m0.Shaped() && m.Shaped() && BookedSoFar(m0, m, booked, n, job)
    requires n == if need <= 0 then 0 else need
    ensures booked == Upto(FreeList(m0.hosts, m0.pcstat, 1), need) && m == Assigned(m0, booked, job)
  {
  }

  lemma UptoNext(all: seq<nat>, n: nat, free: seq<nat>)
    requires Upto(all, n) + free == all
    ensures Upto(all, n + 1) == if free == [] then Upto(all, n) else Upto(all, n) + [free[0]]
    ensures free != [] ==> Upto(all, n + 1) + free[1..] == all
  {
  }

  lemma TurnStep(m0: Tables, m: Tables, booked: seq<nat>, n: nat, job: nat)
    requires m0.Shaped() && m.Shaped() && BookedSoFar(m0, m, booked, n, job)
    ensures BookedSoFar(m0, AfterTurn(m, job),
                        if TurnHost(m) > m.hosts then booked else booked + [TurnHost(m)], n + 1, job)
  {
    var free := FreeList(m.hosts, m.pcstat, 1);
    UptoNext(FreeList(m0.hosts, m0.pcstat, 1), n, free);
    if free != [] {
      FreeListTail(m.hosts, m.pcstat, 1);
      AssignedSnoc(m0, booked, free[0], job);
    }
  }

  class Master {
    const hosts: nat
    const jobq: array<Slot>
    const jobnodes: array<int>
    const nodesstat: array<int>
    const pcstat: array<HostStat>
    var head: nat
    var tail: nat

    ghost predicate Valid()
      reads this
    {
      && jobq.Length == jobnodes.Length == MAX_JOB_QUEUE
      && nodesstat.Length == pcstat.Length == MAX_NUM_HOSTS
      && jobnodes != nodesstat
      && hosts < MAX_NUM_HOSTS && head < MAX_JOB_QUEUE && tail < MAX_JOB_QUEUE
    }

    ghost function Abs(): (m: Tables)
      requires Valid()
      reads this, jobq, jobnodes, nodesstat, pcstat
      ensures m.Shaped()
    {
      Tables(jobq[..], head, tail, jobnodes[..], nodesstat[..], pcstat[..], hosts)
    }

    constructor (n: nat)
      requires n < MAX_NUM_HOSTS
      ensures Valid() && Abs() == InitTables(n)
      ensures fresh(jobq) && fresh(jobnodes) && fresh(nodesstat) && fresh(pcstat)
    {
      hosts := n;
      jobq := new Slot[MAX_JOB_QUEUE](_ => Slot([], [], 0, Unknown, 0));
      jobnodes := new int[MAX_JOB_QUEUE](_ => 0);
      nodesstat := new int[MAX_NUM_HOSTS](_ => 0);
      pcstat := new HostStat[MAX_NUM_HOSTS](_ => Busy);
      head, tail := 0, 0;
      new;
      for i := 0 to MAX_JOB_QUEUE
        invariant head == tail == 0
        invariant forall j :: 0 <= j < i ==> jobq[j] == Slot([], [], 0, Unknown, -1)
        invariant forall j :: 0 <= j < MAX_JOB_QUEUE ==> jobnodes[j] == 0
      {
        jobq[i] := Slot([], [], 0, Unknown, -1);
      }
      for i := 0 to MAX_NUM_HOSTS
        invariant head == tail == 0
        invariant forall j :: 0 <= j < MAX_JOB_QUEUE ==> jobq[j] == Slot([], [], 0, Unknown, -1)
        invariant forall j :: 0 <= j < MAX_JOB_QUEUE ==> jobnodes[j] == 0
        invariant forall k :: 0 <= k < i ==> pcstat[k] == Free && nodesstat[k] == -1
      {
        pcstat[i] := Free;
        nodesstat[i] := -1;
      }
    }

    /** Monitor thread: store a job in the slot at `head`. */
    method Push(job: Job) returns (id: nat)
      requires Valid()
      modifies this`head, jobq
      ensures Valid() && Abs() == PushJob(old(Abs()), job) && id == old(head)
    {
      id := head;
      jobq[head] := Slot(job.comm, job.user, job.req, InQueue, id);
      head := (head + 1) % MAX_JOB_QUEUE;
    }

    /** Dispatcher: take the job at `tail`, unless the ring looks empty. */
    method Pop() returns (slot: Option<Slot>)
      requires Valid()
      modifies this`tail, jobq
      ensures Valid()
      ensures old(Abs()).IsEmpty() ==> slot == None && Abs() == old(Abs())
      ensures !old(Abs()).IsEmpty() ==> slot == Some(old(jobq[tail])) && Abs() == PopJob(old(Abs()))
    {
      if head == tail {
        return None;
      }
      slot := Some(jobq[tail]);
      jobq[tail] := jobq[tail].(stat := Running);
      tail := (tail + 1) % MAX_JOB_QUEUE;
    }

    /** Dispatcher: one pass over the hosts, adding to the running count. */
    method CountPass(count: int) returns (total: int)
      requires Valid()
      ensures total == count + |FreeHosts(Abs())|
    {
      total := count;
      ghost var m := Abs();
      ghost var seen: set<nat> := {};
      for i := 1 to hosts + 1
        invariant seen == set h: nat | 1 <= h < i && h <= hosts && m.pcstat[h] == Free
        invariant total == count + |seen|
      {
        if pcstat[i] == Free {
          total := total + 1;
          seen := seen + {i};
        }
      }
      assert seen == FreeHosts(m);
    }

    /** Dispatcher: the inner booking loop, from host 1 to the first free host. */
    method FindFree() returns (k: nat)
      requires Valid()
      ensures 1 <= k <= hosts + 1
      ensures FreeList(hosts, pcstat[..], 1) == FreeList(hosts, pcstat[..], k)
      ensures k <= hosts ==> pcstat[k] == Free
    {
      k := 1;
      while k <= hosts && pcstat[k] != Free
        invariant 1 <= k <= hosts + 1
        invariant FreeList(hosts, pcstat[..], 1) == FreeList(hosts, pcstat[..], k)
      {
        k := k + 1;
      }
    }

    /** Dispatcher: one outer turn, booking the first free host if there is one. */
    method BookTurn(job: nat) returns (k: nat)
      requires Valid()
      modifies nodesstat, pcstat
      ensures Valid()
      ensures k == TurnHost(old(Abs())) && Abs() == AfterTurn(old(Abs()), job)
    {
      k := FindFree();
      if k <= hosts {
        nodesstat[k] := job;
        pcstat[k] := Busy;
      }
    }

    /** Dispatcher: the outer booking loop. Each turn searches again from host 1. */
    method Book(job: nat, need: int) returns (booked: seq<nat>)
      requires Valid()
      modifies nodesstat, pcstat
      ensures Valid()
      ensures booked == Upto(FreeList(hosts, old(pcstat[..]), 1), need)
      ensures Abs() == Assigned(old(Abs()), booked, job)
    {
      booked := [];
      ghost var m0, m := Abs(), Abs();
      ghost var n := 0;
      BookStart(m0, job);
      var i := 1;
      while i <= need
        invariant Valid() && Abs() == m && m.Shaped()
        invariant n == i - 1 && (if need <= 0 then n == 0 else n <= need)
        invariant BookedSoFar(m0, m, booked, n, job)
      {
        TurnStep(m0, m, booked, n, job);
        var k := BookTurn(job);
        if k <= hosts {
          booked := booked + [k];
        }
        i := i + 1;
        n, m := n + 1, Abs();
      }
      BookEnd(m0, m, booked, n, job, need);
    }

    /** Dispatcher: a whole booking and the write of the counter. */
    method Launch(job: nat, need: int) returns (booked: seq<nat>)
      requires Valid() && job < MAX_JOB_QUEUE
      modifies nodesstat, pcstat, jobnodes
      ensures Valid()
      ensures booked == Upto(FreeList(hosts, old(pcstat[..]), 1), need)
      ensures Abs() == SetCount(Assigned(old(Abs()), booked, job), job, need)
    {
      booked := Book(job, need);
      jobnodes[job] := need;
    }

    /** Result thread: one return message. Only a FINISHED result counts. */
    method Return(src: nat, job: nat, finished: bool)
      requires Valid() && 1 <= src <= hosts && job < MAX_JOB_QUEUE
      modifies pcstat, jobnodes, jobq
      ensures Valid() && Abs() == if finished then Returned(old(Abs()), src, job) else old(Abs())
    {
      if finished {
        pcstat[src] := Free;
        jobnodes[job] := jobnodes[job] - 1;
        if jobnodes[job] == 0 {
          jobq[job] := jobq[job].(stat := Finished);
        }
      }
    }

    /** Monitor thread: the hosts a cancel is sent to. */
    method Cancel(job: int) returns (sent: seq<nat>)
      requires Valid()
      ensures sent == Selected(Abs(), job, 1)
    {
      sent := [];
      ghost var m := Abs();
      for k := 1 to hosts + 1
        invariant sent + Selected(m, job, k) == Selected(m, job, 1)
      {
        SelectedStep(m, job, k, sent);
        if nodesstat[k] == job {
          sent := sent + [k];
        }
      }
    }

    /** Monitor thread: the status of one job, by linear search for its id. */
    method Query(id: int) returns (stat: JobStat)
      requires Valid()
      ensures stat == ScanStat(jobq[..], id, 0)
    {
      stat := Unknown;
      for i := 0 to MAX_JOB_QUEUE
        invariant stat == Unknown
        invariant ScanStat(jobq[..], id, 0) == ScanStat(jobq[..], id, i)
      {
        if jobq[i].id == id {
          stat := jobq[i].stat;
          return;
        }
      }
    }

    /** Monitor thread: the status of every slot, in order. */
    method QueryAll() returns (stats: seq<JobStat>)
      requires Valid()
      ensures |stats| == MAX_JOB_QUEUE && forall i :: 0 <= i < MAX_JOB_QUEUE ==> stats[i] == jobq[i].stat
    {
      stats := [];
      for i := 0 to MAX_JOB_QUEUE
        invariant |stats| == i && forall j :: 0 <= j < i ==> stats[j] == jobq[j].stat
      {
        stats := stats + [jobq[i].stat];
      }
    }
  }

  lemma {:induction false} AssignedSnoc(m: Tables, ks: seq<nat>, k: nat, job: nat)
    requires m.Shaped() && k <= m.hosts && forall i :: 0 <= i < |ks| ==> ks[i] <= m.hosts
    ensures Assigned(m, ks + [k], job) == SetHost(SetNode(Assigned(m, ks, job), k, job), k, Busy)
    decreases |ks|
  {
    if ks == [] {
      assert [] + [k] == [k];
    } else {
      assert (ks + [k])[1..] == ks[1..] + [k];
      AssignedSnoc(SetHost(SetNode(m, ks[0], job), ks[0], Busy), ks[1..], k, job);
    }
  }

  /** What booking does to each host: the chosen ones, and only they, go busy for the job. */
  lemma {:induction false} AssignedAt(m: Tables, ks: seq<nat>, job: nat, h: nat)
    requires m.Shaped() && h <= m.hosts && forall i :: 0 <= i < |ks| ==> ks[i] <= m.hosts
    ensures var m' := Assigned(m, ks, job);
            && m'.pcstat[h] == (if h in ks then Busy else m.pcstat[h])
            && m'.nodesstat[h] == (if h in ks then job else m.nodesstat[h])
            && m' == m.(pcstat := m'.pcstat, nodesstat := m'.nodesstat)
    decreases |ks|
  {
    if ks != [] {
      AssignedAt(SetHost(SetNode(m, ks[0], job), ks[0], Busy), ks[1..], job, h);
      assert h in ks <==> h == ks[0] || h in ks[1..];
    }
  }

  /** The first `need` of the free list are the lowest-numbered free hosts. */
  lemma ChoiceIsLowest(hosts: nat, pcstat: seq<HostStat>, need: int)
    requires hosts < |pcstat|
    ensures var ks, free := Upto(FreeList(hosts, pcstat, 1), need), FreeFrom(hosts, pcstat, 1);
            && Increasing(ks)
            && |ks| == (if need <= 0 then 0 else if need < |free| then need else |free|)
            && (forall h :: h in ks ==> h in free)
            && (forall h, i :: h in free && h !in ks && 0 <= i < |ks| ==> ks[i] < h)
  {
    var all := FreeList(hosts, pcstat, 1);
    var ks := Upto(all, need);
    FreeListSorted(hosts, pcstat, 1);
    FreeListIsFree(hosts, pcstat, 1);
    forall h, i | h in FreeFrom(hosts, pcstat, 1) && h !in ks && 0 <= i < |ks| ensures ks[i] < h {
      var j :| 0 <= j < |all| && all[j] == h;
      assert ks == all[..|ks|];
      assert all[i] < all[j] || j <= i;
    }
  }

  /** A launch books the `need` lowest-numbered free hosts, or every free host if there are
      fewer: each is free before and busy with the job after, and no other host changes. */
  lemma LaunchTakesLowest(m: Tables, job: nat, need: int)
    requires m.Shaped()
    ensures var ks, m' := Upto(FreeList(m.hosts, m.pcstat, 1), need),
                          Assigned(m, Upto(FreeList(m.hosts, m.pcstat, 1), need), job);
            && |ks| == (if need <= 0 then 0 else if need < |FreeHosts(m)| then need else |FreeHosts(m)|)
            && (forall h :: h in ks ==> h in FreeHosts(m) && m'.pcstat[h].Busy? && m'.nodesstat[h] == job)
            && (forall h: nat :: h <= m.hosts && h !in ks ==>
                  m'.pcstat[h] == m.pcstat[h] && m'.nodesstat[h] == m.nodesstat[h])
            && (forall h, i :: h in FreeHosts(m) && h !in ks && 0 <= i < |ks| ==> ks[i] < h)
  {
    var ks := Upto(FreeList(m.hosts, m.pcstat, 1), need);
    ChoiceIsLowest(m.hosts, m.pcstat, need);
    forall h: nat | h <= m.hosts
      ensures Assigned(m, ks, job).pcstat[h] == (if h in ks then Busy else m.pcstat[h])
      ensures Assigned(m, ks, job).nodesstat[h] == (if h in ks then job else m.nodesstat[h])
    {
      AssignedAt(m, ks, job, h);
    }
  }

  lemma SelectedStep(m: Tables, job: int, k: nat, sent: seq<nat>)
    requires m.Shaped() && k <= m.hosts
    ensures sent + Selected(m, job, k) ==
            (if m.nodesstat[k] == job then sent + [k] else sent) + Selected(m, job, k + 1)
  {
  }

  /** A cancel is sent to each host whose last job is `job`, in increasing order, and to no other. */
  lemma {:induction false} SelectedExactly(m: Tables, job: int, k: nat)
    requires m.Shaped()
    ensures forall h :: h in Selected(m, job, k) <==> k <= h <= m.hosts && m.nodesstat[h] == job
    ensures Increasing(Selected(m, job, k))
    decreases m.hosts + 1 - k
  {
    if k <= m.hosts {
      SelectedExactly(m, job, k + 1);
      var rest := Selected(m, job, k + 1);
      if m.nodesstat[k] == job {
        forall i, j | 0 <= i < j < |[k] + rest| ensures ([k] + rest)[i] < ([k] + rest)[j] {
          assert ([k] + rest)[j] in rest;
        }
      }
    }
  }
}
