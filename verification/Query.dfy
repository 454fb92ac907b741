/** Status queries: the replies the monitor fills in, and what the client reads back. */
module Query {
  import opened JobQueue
  import opened Machine
  import opened Wrappers
  import opened Invariant
  import opened Codec
  import opened MasterTables

  function Code(stat: JobStat): (c: int)
    ensures Int32(c)
  {
    match stat
    case InQueue => 1
    case Running => 2
    case Finished => 3
    case Unknown => 4
  }

  function WithHead(b: seq<byte>, local: int, src: int, id: int): (r: seq<byte>)
    requires |b| == MSG_BUFF_SIZE && Int32(local) && Int32(src) && Int32(id)
    ensures |r| == |b|
  {
    WithWord(WithWord(WithWord(WithWord(b, 0, MSG_TYPE_JOB_QUERY), 1, local), 2, src), 3, id)
  }

  /** The words of a single-status reply; the rest of the buffer keeps what malloc left. */
  function StatReply(b: seq<byte>, local: int, src: int, id: int, stat: JobStat): (r: seq<byte>)
    requires |b| == MSG_BUFF_SIZE && Int32(local) && Int32(src) && Int32(id)
    ensures |r| == |b|
  {
    WithWord(WithHead(b, local, src, id), 4, Code(stat))
  }

  /** `stats` from the `n`-th on, written behind the header. */
  function WithStats(b: seq<byte>, stats: seq<JobStat>, n: nat): (r: seq<byte>)
    requires |b| == MSG_BUFF_SIZE && n <= |stats| <= MAX_JOB_QUEUE
    ensures |r| == |b|
    decreases |stats| - n
  {
    if n == |stats| then b
    else WithStats(WithWord(b, MSG_HEAD_SIZE + n, Code(stats[n])), stats, n + 1)
  }

  lemma StatStep(b: seq<byte>, stats: seq<JobStat>, n: nat, i: nat) returns (b1: seq<byte>)
    requires |b| == MSG_BUFF_SIZE && n < |stats| <= MAX_JOB_QUEUE && 4 * i + 4 <= MSG_BUFF_SIZE
    ensures |b1| == |b| && WithStats(b, stats, n) == WithStats(b1, stats, n + 1)
    ensures Word(b1, i) == if i == MSG_HEAD_SIZE + n then Code(stats[n]) else Word(b, i)
  {
    b1 := WithWord(b, MSG_HEAD_SIZE + n, Code(stats[n]));
    WordOfWith(b, MSG_HEAD_SIZE + n, Code(stats[n]), i);
  }

  lemma {:induction false} StatWords(b: seq<byte>, stats: seq<JobStat>, n: nat, i: nat)
    requires |b| == MSG_BUFF_SIZE && n <= |stats| <= MAX_JOB_QUEUE && 4 * i + 4 <= MSG_BUFF_SIZE
    ensures Word(WithStats(b, stats, n), i) ==
            if MSG_HEAD_SIZE + n <= i < MSG_HEAD_SIZE + |stats| then Code(stats[i - MSG_HEAD_SIZE]) else Word(b, i)
    decreases |stats| - n
  {
    if n < |stats| {
      var b1 := StatStep(b, stats, n, i);
      StatWords(b1, stats, n + 1, i);
    }
  }

  function BulkReply(b: seq<byte>, local: int, src: int, stats: seq<JobStat>): (r: seq<byte>)
    requires |b| == MSG_BUFF_SIZE && Int32(local) && Int32(src) && |stats| == MAX_JOB_QUEUE
    ensures |r| == |b|
  {
    WithStats(WithWord(StatReply(b, local, src, -1, Unknown), 4, 0), stats, 0)
  }

  /** What the client takes from a single reply: nothing when the job id is not the one asked for. */
  function ReadStat(b: seq<byte>, id: int): Option<int>
    requires |b| == MSG_BUFF_SIZE
  {
    if Word(b, 3) == id then Some(Word(b, 4)) else None
  }

  method SetWord(buf: array<byte>, i: nat, x: int)
    requires 4 * i + 4 <= buf.Length && Int32(x)
    modifies buf
    ensures buf[..] == WithWord(old(buf[..]), i, x)
  {
    var b := PutInt(x);
    buf[4 * i], buf[4 * i + 1], buf[4 * i + 2], buf[4 * i + 3] := b[0], b[1], b[2], b[3];
  }

  /** Monitor thread: answer a query for one job. */
  method AnswerOne(m: Master, buf: array<byte>, local: int, src: int, id: int)
    requires m.Valid() && buf.Length == MSG_BUFF_SIZE && Int32(local) && Int32(src) && Int32(id)
    modifies buf
    ensures buf[..] == StatReply(old(buf[..]), local, src, id, ScanStat(m.jobq[..], id, 0))
  {
    var stat := m.Query(id);
    SetHead(buf, local, src, id, Code(stat));
  }

  /** Monitor thread: answer a query for all jobs, word by word. */
  method AnswerAll(m: Master, buf: array<byte>, local: int, src: int) returns (ghost stats: seq<JobStat>)
    requires m.Valid() && buf.Length == MSG_BUFF_SIZE && Int32(local) && Int32(src)
    modifies buf
    ensures |stats| == MAX_JOB_QUEUE && forall i :: 0 <= i < MAX_JOB_QUEUE ==> stats[i] == m.jobq[i].stat
    ensures buf[..] == BulkReply(old(buf[..]), local, src, stats)
  {
    var jobstat := m.QueryAll();
    stats := jobstat;
    SetHead(buf, local, src, -1, 0);
    WithTwice(WithHead(old(buf[..]), local, src, -1), 4, Code(Unknown), 0);
    ghost var reply := BulkReply(old(buf[..]), local, src, jobstat);
    for i := 0 to MAX_JOB_QUEUE
      invariant WithStats(buf[..], jobstat, i) == reply
    {
      SetWord(buf, MSG_HEAD_SIZE + i, Code(jobstat[i]));
    }
  }

  /** The five words every reply to a query starts with. */
  method SetHead(buf: array<byte>, local: int, src: int, id: int, w4: int)
    requires buf.Length == MSG_BUFF_SIZE && Int32(local) && Int32(src) && Int32(id) && Int32(w4)
    modifies buf
    ensures buf[..] == WithWord(WithHead(old(buf[..]), local, src, id), 4, w4)
  {
    SetWord(buf, 0, MSG_TYPE_JOB_QUERY);
    SetWord(buf, 1, local);
    SetWord(buf, 2, src);
    SetWord(buf, 3, id);
    SetWord(buf, 4, w4);
  }

  lemma WithTwice(b: seq<byte>, i: nat, x: int, y: int)
    requires 4 * i + 4 <= |b| && Int32(x) && Int32(y)
    ensures WithWord(WithWord(b, i, x), i, y) == WithWord(b, i, y)
  {
  }

  /** The client reads back the id it asked for and the word for the status found: 1 for a job in
      the queue, 2 for a running, 3 for a finished and 4 for an unknown one. */
  lemma OneReadBack(b: seq<byte>, local: int, src: int, id: int, stat: JobStat)
    requires |b| == MSG_BUFF_SIZE && Int32(local) && Int32(src) && Int32(id)
    ensures var w := ReadStat(StatReply(b, local, src, id, stat), id);
            && w == Some(Code(stat))
            && (w.value == 1 <==> stat.InQueue?) && (w.value == 2 <==> stat.Running?)
            && (w.value == 3 <==> stat.Finished?) && (w.value == 4 <==> stat.Unknown?)
  {
    HeadReadBack(b, local, src, id, Code(stat));
  }

  lemma AllReadBack(b: seq<byte>, local: int, src: int, stats: seq<JobStat>, i: nat)
    requires |b| == MSG_BUFF_SIZE && Int32(local) && Int32(src) && |stats| == MAX_JOB_QUEUE && i < MAX_JOB_QUEUE
    ensures var w, stat := Word(BulkReply(b, local, src, stats), MSG_HEAD_SIZE + i), stats[i];
            && w == Code(stat)
            && (w == 1 <==> stat.InQueue?) && (w == 2 <==> stat.Running?)
            && (w == 3 <==> stat.Finished?) && (w == 4 <==> stat.Unknown?)
  {
    StatWords(WithWord(StatReply(b, local, src, -1, Unknown), 4, 0), stats, 0, MSG_HEAD_SIZE + i);
  }

  /** The head of a reply names its kind, the machine that answers and the client. */
  lemma HeadReadBack(b: seq<byte>, local: int, src: int, id: int, w4: int)
    requires |b| == MSG_BUFF_SIZE && Int32(local) && Int32(src) && Int32(id) && Int32(w4)
    ensures var r := WithWord(WithHead(b, local, src, id), 4, w4);
            Word(r, 0) == 7 && Word(r, 1) == local && Word(r, 2) == src && Word(r, 3) == id && Word(r, 4) == w4
  {
    var b0 := WithWord(b, 0, MSG_TYPE_JOB_QUERY);
    var b1 := WithWord(b0, 1, local);
    var b2 := WithWord(b1, 2, src);
    var b3 := WithWord(b2, 3, id);
    forall i: nat | i < 5 ensures Word(WithWord(b3, 4, w4), i) == if i == 4 then w4 else Word(b3, i) {
      WordOfWith(b3, 4, w4, i);
    }
    forall i: nat | i < 4 ensures Word(b3, i) == if i == 3 then id else Word(b2, i) {
      WordOfWith(b2, 3, id, i);
    }
    forall i: nat | i < 3 ensures Word(b2, i) == if i == 2 then src else Word(b1, i) {
      WordOfWith(b1, 2, src, i);
    }
    WordOfWith(b0, 1, local, 0);
    WordOfWith(b0, 1, local, 1);
    WordOfWith(b, 0, MSG_TYPE_JOB_QUERY, 0);
  }

  /** A worker's return carries the word for a finished job, and the result thread reads kind,
      host, job and that word. */
  lemma ReturnTells(local: int, job: int, unset: int, stale: seq<byte>)
    requires Int32(local) && Int32(job) && Int32(unset) && HEAD_BYTES + |stale| == MSG_BUFF_SIZE
    ensures ReadShort(ShortMessage(MSG_TYPE_JOB_RETURN, local, 1, job, JOB_STAT_FINISHED, unset) + stale) ==
            (6, local, job, 3)
    ensures Code(Finished) == JOB_STAT_FINISHED == 3
  {
    ShortReadBack(MSG_TYPE_JOB_RETURN, local, 1, job, JOB_STAT_FINISHED, unset, stale);
  }

  /** A cancel names its kind, the master and the job to whoever reads it. */
  lemma CancelTells(local: int, host: int, job: int, w4: int, w5: int, stale: seq<byte>)
    requires Int32(local) && Int32(host) && Int32(job) && Int32(w4) && Int32(w5)
    requires HEAD_BYTES + |stale| == MSG_BUFF_SIZE
    ensures ReadShort(ShortMessage(MSG_TYPE_JOB_CANCEL, local, host, job, w4, w5) + stale) == (5, local, job, w4)
  {
    ShortReadBack(MSG_TYPE_JOB_CANCEL, local, host, job, w4, w5, stale);
  }

  /** In every state of every run, guarded or not, the linear search finds a job at the
      index equal to its id, and nothing for an id never given out. */
  lemma {:induction false} ScanIsIndex(s: System, id: nat, i: nat)
    requires WellFormed(s) && (i <= id || id >= MAX_JOB_QUEUE || id >= |s.submitted|)
    ensures ScanStat(s.m.jobq, id, i) ==
            if id < MAX_JOB_QUEUE && id < |s.submitted| then s.m.jobq[id].stat else Unknown
    decreases MAX_JOB_QUEUE - i
  {
    if i < MAX_JOB_QUEUE && s.m.jobq[i].id != id {
      ScanIsIndex(s, id, i + 1);
    }
  }

  /** What the client reads of job `id`, 1, 2, 3 or 4, tells that the slot's job is in the queue,
      running, finished or unknown, by the single reply and by the word of the bulk reply; ids of
      32 and above are unknown. */
  lemma QueryAgrees(s: System, b: seq<byte>, b2: seq<byte>, local: int, src: int, id: nat, stats: seq<JobStat>)
    requires Inv(s) && |b| == |b2| == MSG_BUFF_SIZE && Int32(local) && Int32(src) && Int32(id)
    requires |stats| == MAX_JOB_QUEUE && forall i :: 0 <= i < MAX_JOB_QUEUE ==> stats[i] == s.m.jobq[i].stat
    ensures var one := ReadStat(StatReply(b, local, src, id, ScanStat(s.m.jobq, id, 0)), id);
            && one.Some?
            && (id >= MAX_JOB_QUEUE ==> one.value == 4)
            && (id < MAX_JOB_QUEUE ==>
                  var stat := s.m.jobq[id].stat;
                  && one.value == Word(BulkReply(b2, local, src, stats), MSG_HEAD_SIZE + id)
                  && (one.value == 1 <==> stat.InQueue?) && (one.value == 2 <==> stat.Running?)
                  && (one.value == 3 <==> stat.Finished?) && (one.value == 4 <==> stat.Unknown?))
  {
    OneReadBack(b, local, src, id, ScanStat(s.m.jobq, id, 0));
    ScanIsIndex(s, id, 0);
    if id < MAX_JOB_QUEUE {
      AllReadBack(b2, local, src, stats, id);
    }
  }

  // ---- the answer to a submit

  /** The words of a submit's reply; the fourth is never written. */
  function SubmitReply(b: seq<byte>, local: int, src: int, id: int): (r: seq<byte>)
    requires |b| == MSG_BUFF_SIZE && Int32(local) && Int32(src) && Int32(id)
    ensures |r| == |b|
  {
    WithWord(WithWord(WithWord(WithWord(b, 0, MSG_TYPE_JOB_SUBMIT), 1, local), 2, src), 4, id)
  }

  /** Monitor thread: store the job and answer with its slot. */
  method AnswerSubmit(m: Master, job: Job, buf: array<byte>, local: int, src: int)
    requires m.Valid() && buf.Length == MSG_BUFF_SIZE && Int32(local) && Int32(src)
    modifies m, m.jobq, buf
    ensures m.Valid() && m.Abs() == PushJob(old(m.Abs()), job)
    ensures buf[..] == SubmitReply(old(buf[..]), local, src, old(m.head))
  {
    var id := m.Push(job);
    SetWord(buf, 0, MSG_TYPE_JOB_SUBMIT);
    SetWord(buf, 1, local);
    SetWord(buf, 2, src);
    SetWord(buf, 4, id);
  }

  /** A submit's reply gives the client the slot its job was stored in. */
  lemma SubmitReplyReadBack(b: seq<byte>, local: int, src: int, id: nat)
    requires |b| == MSG_BUFF_SIZE && Int32(local) && Int32(src) && id < MAX_JOB_QUEUE
    ensures var r := SubmitReply(b, local, src, id);
            Word(r, 0) == 4 && Word(r, 1) == local && Word(r, 2) == src && Word(r, 3) == Word(b, 3) && Word(r, 4) == id
  {
    var b0 := WithWord(b, 0, MSG_TYPE_JOB_SUBMIT);
    var b1 := WithWord(b0, 1, local);
    var b2 := WithWord(b1, 2, src);
    forall i: nat | i < 5 ensures Word(WithWord(b2, 4, id), i) == if i == 4 then id else Word(b2, i) {
      WordOfWith(b2, 4, id, i);
    }
    forall i: nat | i < 4 ensures Word(b2, i) == if i == 2 then src else Word(b1, i) {
      WordOfWith(b1, 2, src, i);
    }
    forall i: nat | i < 4 ensures Word(b1, i) == if i == 1 then local else Word(b0, i) {
      WordOfWith(b0, 1, local, i);
    }
    WordOfWith(b, 0, MSG_TYPE_JOB_SUBMIT, 0);
    WordOfWith(b, 0, MSG_TYPE_JOB_SUBMIT, 3);
  }
}
