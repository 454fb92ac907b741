/** The loops and buffer writes that build and read the messages in place. */
module Messages {
  import opened JobQueue
  import opened Wrappers
  import opened Codec

  /** Every four bytes are some word. */
  lemma PutGet(b: seq<byte>)
    requires |b| == 4
    ensures Int32(GetInt(b)) && PutInt(GetInt(b)) == b
  {
    var u := b[0] as int + 256 * b[1] as int + 65536 * b[2] as int + 16777216 * b[3] as int;
    assert u / 256 == b[1] as int + 256 * b[2] as int + 65536 * b[3] as int;
    assert u / 65536 == b[2] as int + 256 * b[3] as int;
    assert u / 16777216 == b[3] as int;
  }

  lemma {:induction false} HeaderSnoc(ws: seq<int>, w: int)
    requires (forall x :: x in ws ==> Int32(x)) && Int32(w)
    ensures (forall x :: x in ws + [w] ==> Int32(x)) && Header(ws + [w]) == Header(ws) + PutInt(w)
  {
    if ws == [] {
      assert [] + [w] == [w] && [w][1..] == [];
    } else {
      assert (ws + [w])[1..] == ws[1..] + [w];
      HeaderSnoc(ws[1..], w);
    }
  }

  /** memcpy. */
  method CopyIn(buf: array<byte>, off: nat, src: seq<byte>)
    requires off + |src| <= buf.Length
    modifies buf
    ensures buf[..off + |src|] == old(buf[..off]) + src
    ensures buf[off + |src|..] == old(buf[off + |src|..])
  {
    for i := 0 to |src|
      invariant buf[..off + i] == old(buf[..off]) + src[..i]
      invariant buf[off + i..] == old(buf[off + i..])
    {
      buf[off + i] := src[i];
      assert buf[..off + i + 1] == buf[..off + i] + [src[i]];
      assert src[..i + 1] == src[..i] + [src[i]];
    }
    assert src[..|src|] == src;
  }

  /** memcpy of one header word behind the words already written. */
  method CopyWord(buf: array<byte>, i: nat, w: int, ghost ws: seq<int>) returns (ghost ws': seq<int>)
    requires 4 * i + 4 <= buf.Length && |ws| == i && (forall x :: x in ws ==> Int32(x)) && Int32(w)
    requires buf[..4 * i] == Header(ws)
    modifies buf
    ensures ws' == ws + [w] && (forall x :: x in ws' ==> Int32(x)) && buf[..4 * i + 4] == Header(ws')
    ensures forall k :: 4 * i + 4 <= k < buf.Length ==> buf[k] == old(buf[k])
  {
    CopyIn(buf, 4 * i, PutInt(w));
    assert forall k :: 4 * i + 4 <= k < buf.Length ==> buf[k] == buf[4 * i + 4..][k - 4 * i - 4];
    HeaderSnoc(ws, w);
    ws' := ws + [w];
  }

  /** The four header words every message to or from a worker starts with. */
  method CopyHead(buf: array<byte>, kind: int, src: int, dist: int, w3: int)
    requires buf.Length >= HEAD_BYTES && Int32(kind) && Int32(src) && Int32(dist) && Int32(w3)
    modifies buf
    ensures buf[..16] == Header([kind, src, dist, w3])
    ensures forall k :: 16 <= k < buf.Length ==> buf[k] == old(buf[k])
  {
    ghost var ws := CopyWord(buf, 0, kind, []);
    ws := CopyWord(buf, 1, src, ws);
    ws := CopyWord(buf, 2, dist, ws);
    ws := CopyWord(buf, 3, w3, ws);
    assert ws == [kind, src, dist, w3];
  }

  /** The header word that was never written is some word all the same. */
  lemma HeaderUnset(buf: seq<byte>, ws: seq<int>)
    requires (forall w :: w in ws ==> Int32(w)) && 4 * |ws| + 4 <= |buf| && buf[..4 * |ws|] == Header(ws)
    ensures var unset := Word(buf, |ws|);
            Int32(unset) && (forall w :: w in ws + [unset] ==> Int32(w))
            && buf[..4 * |ws| + 4] == Header(ws + [unset])
  {
    var n := 4 * |ws|;
    var unset := GetInt(buf[n..n + 4]);
    NextWord(buf, n);
    HeaderSnoc(ws, unset);
    assert Word(buf, |ws|) == unset;
    assert buf[..n + 4] == Header(ws) + PutInt(unset);
  }

  lemma NextWord(buf: seq<byte>, n: nat)
    requires n + 4 <= |buf|
    ensures Int32(GetInt(buf[n..n + 4])) && buf[..n + 4] == buf[..n] + PutInt(GetInt(buf[n..n + 4]))
  {
    PutGet(buf[n..n + 4]);
  }

  /** All six header words. */
  method CopyHeader(buf: array<byte>, kind: int, src: int, dist: int, w3: int, w4: int, w5: int)
    requires buf.Length >= HEAD_BYTES && Int32(kind) && Int32(src) && Int32(dist)
    requires Int32(w3) && Int32(w4) && Int32(w5)
    modifies buf
    ensures buf[..HEAD_BYTES] == Header([kind, src, dist, w3, w4, w5])
  {
    CopyHead(buf, kind, src, dist, w3);
    ghost var ws := CopyWord(buf, 4, w4, [kind, src, dist, w3]);
    ws := CopyWord(buf, 5, w5, ws);
    assert ws == [kind, src, dist, w3, w4, w5];
  }

  /** client_submit_single_job: the message sent to the master. */
  method EncodeSubmit(src: int, dist: int, comm: Text, req: int, user: Text) returns (buf: array<byte>)
    requires Int32(src) && Int32(dist) && Int32(req) && Int32(|comm| + 1) && Int32(|user| + 1)
    ensures fresh(buf) && buf[..] == SubmitMessage(src, dist, comm, req, user)
  {
    var commLen, userLen := |comm| + 1, |user| + 1;
    buf := new byte[HEAD_BYTES + commLen + userLen];
    CopyHeader(buf, MSG_TYPE_JOB_SUBMIT, src, dist, commLen, req, userLen);
    ghost var ws := [MSG_TYPE_JOB_SUBMIT, src, dist, commLen, req, userLen];
    CopyIn(buf, HEAD_BYTES, comm + [0]);
    CopyIn(buf, HEAD_BYTES + commLen, user + [0]);
    ghost var msg := Header(ws) + (comm + [0]) + (user + [0]);
    assert buf[..] == buf[..HEAD_BYTES + commLen + userLen];
    assert buf[..] == msg && msg[HEAD_BYTES + commLen - 1] == 0;
    buf[HEAD_BYTES + commLen - 1] := 0;
    assert buf[..] == msg;
  }

  /** server_single_job_submit: the message sent to a worker; the sixth word keeps
      whatever the fresh buffer held. */
  method EncodeLaunch(src: int, dist: int, job: int, comm: Text) returns (buf: array<byte>, ghost unset: int)
    requires Int32(src) && Int32(dist) && Int32(job) && Int32(|comm| + 1)
    ensures fresh(buf) && Int32(unset) && buf[..] == LaunchMessage(src, dist, job, comm, unset)
  {
    var commLen := |comm| + 1;
    buf := new byte[HEAD_BYTES + commLen];
    CopyHead(buf, MSG_TYPE_JOB_SUBMIT, src, dist, job);
    ghost var ws := CopyWord(buf, 4, commLen, [MSG_TYPE_JOB_SUBMIT, src, dist, job]);
    unset := Word(buf[..], 5);
    HeaderUnset(buf[..], ws);
    ws := ws + [unset];
    assert ws == [MSG_TYPE_JOB_SUBMIT, src, dist, job, commLen, unset];
    CopyIn(buf, HEAD_BYTES, comm + [0]);
    assert buf[..] == buf[..HEAD_BYTES + commLen];
    assert buf[..] == Header(ws) + (comm + [0]);
  }

  /** deal_interactive_job_request: the return sent to the master, machine 1. */
  method EncodeReturn(local: int, job: int) returns (buf: array<byte>, ghost unset: int)
    requires Int32(local) && Int32(job)
    ensures fresh(buf) && Int32(unset)
    ensures buf[..] == ShortMessage(MSG_TYPE_JOB_RETURN, local, 1, job, JOB_STAT_FINISHED, unset)
  {
    buf := new byte[HEAD_BYTES];
    CopyHead(buf, MSG_TYPE_JOB_RETURN, local, 1, job);
    ghost var ws := CopyWord(buf, 4, JOB_STAT_FINISHED, [MSG_TYPE_JOB_RETURN, local, 1, job]);
    unset := Word(buf[..], 5);
    HeaderUnset(buf[..], ws);
    assert ws + [unset] == [MSG_TYPE_JOB_RETURN, local, 1, job, JOB_STAT_FINISHED, unset];
    assert buf[..] == buf[..HEAD_BYTES];
  }

  /** server_single_job_cancel: the cancel sent to one host; it carries no result word. */
  method EncodeCancel(local: int, host: int, job: int) returns (buf: array<byte>, ghost w4: int, ghost w5: int)
    requires Int32(local) && Int32(host) && Int32(job)
    ensures fresh(buf) && Int32(w4) && Int32(w5)
    ensures buf[..] == ShortMessage(MSG_TYPE_JOB_CANCEL, local, host, job, w4, w5)
  {
    buf := new byte[HEAD_BYTES];
    CopyHead(buf, MSG_TYPE_JOB_CANCEL, local, host, job);
    ghost var ws := [MSG_TYPE_JOB_CANCEL, local, host, job];
    w4, w5 := Word(buf[..], 4), Word(buf[..], 5);
    HeaderUnset(buf[..], ws);
    HeaderUnset(buf[..], ws + [w4]);
    assert ws + [w4] + [w5] == [MSG_TYPE_JOB_CANCEL, local, host, job, w4, w5];
    assert buf[..] == buf[..HEAD_BYTES];
  }

  /** The scan for the terminating NUL behind every string read from a buffer. */
  method ReadString(buf: array<byte>, off: nat) returns (t: Option<Text>)
    requires off <= buf.Length
    ensures t == StringAt(buf[..], off)
  {
    var n := off;
    BehindStart(buf[..], off);
    while n < buf.Length && buf[n] != 0
      invariant off <= n <= buf.Length
      invariant Behind(buf[..], off, n) == StringAt(buf[..], off)
    {
      BehindStep(buf[..], off, n);
      n := n + 1;
    }
    assert buf[..][off..n] == buf[off..n] == buf[off..n] + [];
    t := if n == buf.Length then None else Some(buf[off..n]);
  }

  /** The string at `off`, its bytes before `n` already known to be none of them NUL. */
  function Behind(b: seq<byte>, off: nat, n: nat): Option<Text>
    requires off <= n <= |b|
  {
    match StringAt(b, n)
    case None => None
    case Some(t) => Some(b[off..n] + t)
  }

  lemma BehindStart(b: seq<byte>, off: nat)
    requires off <= |b|
    ensures Behind(b, off, off) == StringAt(b, off)
  {
    match StringAt(b, off)
    case None =>
    case Some(t) => assert b[off..off] + t == t;
  }

  lemma BehindStep(b: seq<byte>, off: nat, n: nat)
    requires off <= n < |b| && b[n] != 0
    ensures Behind(b, off, n + 1) == Behind(b, off, n)
  {
    match StringAt(b, n + 1)
    case None =>
    case Some(t) => assert b[off..n + 1] + t == b[off..n] + ([b[n]] + t);
  }

  /** job_monitor_etransfer: the words and strings of a submit. */
  method DecodeSubmit(buf: array<byte>) returns (x: Option<Submission>)
    requires buf.Length == MSG_BUFF_SIZE
    ensures x == ReadSubmit(buf[..])
  {
    var at := HEAD_BYTES + Word(buf[..], 3);
    if at < 0 || at > buf.Length {
      return None;
    }
    var comm := ReadString(buf, HEAD_BYTES);
    var user := ReadString(buf, at);
    x := Some(Submission(Word(buf[..], 0), Word(buf[..], 1), Word(buf[..], 4), comm, Word(buf[..], 3),
                         user, Word(buf[..], 5)));
  }

  /** deal_interactive_job_request: cut the command at its announced length, then read it. */
  method DecodeLaunch(buf: array<byte>) returns (x: Option<(int, Option<Text>)>)
    requires buf.Length == MSG_BUFF_SIZE
    modifies buf
    ensures x == ReadLaunch(old(buf[..]))
  {
    var job, end := Word(buf[..], 3), HEAD_BYTES + Word(buf[..], 4);
    if end < 0 || end >= buf.Length {
      return None;
    }
    buf[end] := 0;
    assert buf[..] == old(buf[..])[end := 0];
    var comm := ReadString(buf, HEAD_BYTES);
    x := Some((job, comm));
  }
}
