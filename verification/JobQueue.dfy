/** The master's shared tables: the job ring, the per-host allocation tables and
    the per-job counters of libjobq.c, with the single writes its threads make. */
module JobQueue {

  const MAX_JOB_QUEUE := 32
  const NUM_HOSTS := 2
  const MAX_NUM_HOSTS := 2 * NUM_HOSTS + 1

  newtype byte = x: int | 0 <= x < 256

  /** Characters of a command or a user name, without the terminating NUL. */
  type Text = seq<byte>

  datatype JobStat = Unknown | InQueue | Running | Finished

  datatype HostStat = Busy | Free

  datatype Job = Job(comm: Text, user: Text, req: int)

  datatype Slot = Slot(comm: Text, user: Text, req: int, stat: JobStat, id: int)

  /** `nodesstat` and `pcstat` are used from index 1 to `hosts`; index 0 is spare. */
  datatype Tables = Tables(
    jobq: seq<Slot>,
    head: nat,
    tail: nat,
    jobnodes: seq<int>,
    nodesstat: seq<int>,
    pcstat: seq<HostStat>,
    hosts: nat)
  {
    predicate Shaped() {
      && |jobq| == |jobnodes| == MAX_JOB_QUEUE
      && head < MAX_JOB_QUEUE && tail < MAX_JOB_QUEUE
      && |nodesstat| == |pcstat| == MAX_NUM_HOSTS
      && hosts < MAX_NUM_HOSTS
    }

    predicate IsEmpty() {
      head == tail
    }

    predicate IsFull() {
      (head + 1) % MAX_JOB_QUEUE == tail
    }
  }

  /** Advance a ring index by one slot. */
  function Succ(i: nat): nat {
    (i + 1) % MAX_JOB_QUEUE
  }

  /** The tables once the configuration and the dispatcher's start-up loop have run. */
  function InitTables(hosts: nat): (m: Tables)
    requires hosts < MAX_NUM_HOSTS
    ensures m.Shaped()
  {
    Tables(seq(MAX_JOB_QUEUE, i => Slot([], [], 0, Unknown, -1)), 0, 0,
           seq(MAX_JOB_QUEUE, i => 0),
           seq(MAX_NUM_HOSTS, i => -1),
           seq(MAX_NUM_HOSTS, i => Free), hosts)
  }

  /** Store a job in the slot at `head` and advance `head`; fullness is not looked at. */
  function PushJob(m: Tables, job: Job): (m': Tables)
    requires m.Shaped()
    ensures m'.Shaped()
  {
    m.(jobq := m.jobq[m.head := Slot(job.comm, job.user, job.req, InQueue, m.head)],
       head := Succ(m.head))
  }

  /** Take the slot at `tail` off the ring and mark it running. */
  function PopJob(m: Tables): (m': Tables)
    requires m.Shaped()
    ensures m'.Shaped()
  {
    m.(jobq := m.jobq[m.tail := m.jobq[m.tail].(stat := Running)],
       tail := Succ(m.tail))
  }

  function SetNode(m: Tables, k: nat, job: nat): (m': Tables)
    requires m.Shaped() && k <= m.hosts
    ensures m'.Shaped()
  {
    m.(nodesstat := m.nodesstat[k := job])
  }

  function SetHost(m: Tables, k: nat, stat: HostStat): (m': Tables)
    requires m.Shaped() && k <= m.hosts
    ensures m'.Shaped()
  {
    m.(pcstat := m.pcstat[k := stat])
  }

  function SetCount(m: Tables, job: nat, n: int): (m': Tables)
    requires m.Shaped() && job < MAX_JOB_QUEUE
    ensures m'.Shaped()
  {
    m.(jobnodes := m.jobnodes[job := n])
  }

  function SetFinished(m: Tables, job: nat): (m': Tables)
    requires m.Shaped() && job < MAX_JOB_QUEUE
    ensures m'.Shaped()
  {
    m.(jobq := m.jobq[job := m.jobq[job].(stat := Finished)])
  }

  /** The free hosts numbered `k` and above. */
  function FreeFrom(hosts: nat, pcstat: seq<HostStat>, k: nat): set<nat>
    requires hosts < |pcstat|
  {
    set h: nat | k <= h <= hosts && 1 <= h && pcstat[h] == Free
  }

  /** The free hosts numbered below `k`. */
  function FreeBelow(hosts: nat, pcstat: seq<HostStat>, k: nat): set<nat>
    requires hosts < |pcstat|
  {
    set h: nat | 1 <= h < k && h <= hosts && pcstat[h] == Free
  }

  function FreeHosts(m: Tables): set<nat>
    requires m.Shaped()
  {
    FreeFrom(m.hosts, m.pcstat, 1)
  }

  /** The busy hosts whose last job was `job`. */
  function BusyWith(m: Tables, job: int): set<nat>
    requires m.Shaped()
  {
    set h: nat | 1 <= h <= m.hosts && m.pcstat[h] == Busy && m.nodesstat[h] == job
  }
}
