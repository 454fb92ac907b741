/** Messages between programs: framed, forwarded whole into a pipe, and cut out of it
    again by the reader's expected length. */
module PipeFraming {
  import opened JobQueue
  import opened Wrappers
  import opened Codec
  import Messages

  /** `w4` and `w5` are the two header words the sender never writes. */
  datatype Message = Message(src: int, dist: int, payload: Text, w4: int, w5: int) {
    predicate Valid() {
      Int32(src) && Int32(dist) && Int32(|payload|) && Int32(w4) && Int32(w5)
    }
  }

  function Frame(m: Message): (b: seq<byte>)
    requires m.Valid()
    ensures |b| == HEAD_BYTES + |m.payload|
  {
    Header([MSG_TYPE_DATA, m.src, m.dist, |m.payload|, m.w4, m.w5]) + m.payload
  }

  /** One read of the socket takes at most a buffer full; that much goes into the pipe. */
  function Forwarded(b: seq<byte>): seq<byte> {
    if |b| <= MSG_BUFF_SIZE then b else b[..MSG_BUFF_SIZE]
  }

  predicate Whole(m: Message) {
    m.Valid() && HEAD_BYTES + |m.payload| <= MSG_BUFF_SIZE
  }

  function InPipe(ms: seq<Message>): seq<byte>
    requires forall i :: 0 <= i < |ms| ==> Whole(ms[i])
  {
    if ms == [] then [] else assert Whole(ms[0]); Forwarded(Frame(ms[0])) + InPipe(ms[1..])
  }

  /** What a receive comes to: the reader waits on an empty pipe, the program exits on a
      mismatch, or a payload is delivered. `rest` stays in the pipe. */
  datatype Got = Blocked | Exit(rest: seq<byte>) | Delivered(payload: Text, rest: seq<byte>)

  function Least(a: nat, b: nat): nat {
    if a <= b then a else b
  }

  /** One receive by machine `local` expecting `len` bytes. The read takes what there is, up to
      header and payload; behind it the buffer keeps `stale`, what it held before. */
  function Receive(pipe: seq<byte>, local: int, len: nat, stale: seq<byte>): Got
    requires |stale| == HEAD_BYTES + len
  {
    var n := Least(|pipe|, |stale|);
    var buf := pipe[..n] + stale[n..];
    if n == 0 then Blocked
    else if Word(buf, 0) != MSG_TYPE_DATA || Word(buf, 2) != local || Word(buf, 3) != len then Exit(pipe[n..])
    else Delivered(buf[HEAD_BYTES..], pipe[n..])
  }

  datatype Want = Want(local: int, len: nat, stale: seq<byte>) {
    predicate Valid() {
      |stale| == HEAD_BYTES + len
    }
  }

  function ReceiveAll(pipe: seq<byte>, wants: seq<Want>): Option<(seq<Text>, seq<byte>)>
    requires forall i :: 0 <= i < |wants| ==> wants[i].Valid()
    decreases |wants|
  {
    if wants == [] then Some(([], pipe))
    else
      assert wants[0].Valid();
      match Receive(pipe, wants[0].local, wants[0].len, wants[0].stale)
      case Delivered(payload, rest) =>
        (match ReceiveAll(rest, wants[1..])
         case None => None
         case Some((ps, left)) => Some(([payload] + ps, left)))
      case _ => None
  }

  /** The (machine, length) pairs the receivers ask for. */
  function Asked(wants: seq<Want>): (ks: seq<(int, nat)>)
    ensures |ks| == |wants|
  {
    if wants == [] then [] else [(wants[0].local, wants[0].len)] + Asked(wants[1..])
  }

  function Payloads(ms: seq<Message>): seq<Text> {
    if ms == [] then [] else [ms[0].payload] + Payloads(ms[1..])
  }

  function Addressed(ms: seq<Message>): (ks: seq<(int, nat)>)
    ensures |ks| == |ms|
  {
    if ms == [] then [] else [(ms[0].dist, |ms[0].payload|)] + Addressed(ms[1..])
  }

  /** The header words of a frame, read from a buffer that begins with them. */
  lemma HeaderRead(m: Message, behind: seq<byte>)
    requires m.Valid()
    ensures var b := Header([MSG_TYPE_DATA, m.src, m.dist, |m.payload|, m.w4, m.w5]) + behind;
            Word(b, 0) == 1 && Word(b, 2) == m.dist && Word(b, 3) == |m.payload|
  {
    var ws := [MSG_TYPE_DATA, m.src, m.dist, |m.payload|, m.w4, m.w5];
    HeaderWord(ws, behind, 0);
    HeaderWord(ws, behind, 2);
    HeaderWord(ws, behind, 3);
  }

  /** With a frame in front, a receive is decided by the header alone. */
  lemma HeaderDecides(m: Message, tail: seq<byte>, w: Want)
    requires m.Valid() && w.Valid()
    ensures var pipe := Header([MSG_TYPE_DATA, m.src, m.dist, |m.payload|, m.w4, m.w5]) + tail;
            var n := Least(|tail|, w.len);
            Receive(pipe, w.local, w.len, w.stale) ==
            if w.local == m.dist && w.len == |m.payload|
            then Delivered(tail[..n] + w.stale[HEAD_BYTES + n..], tail[n..]) else Exit(tail[n..])
  {
    var head := Header([MSG_TYPE_DATA, m.src, m.dist, |m.payload|, m.w4, m.w5]);
    var n := Least(|tail|, w.len);
    var behind := tail[..n] + w.stale[HEAD_BYTES + n..];
    assert (head + tail)[..HEAD_BYTES + n] + w.stale[HEAD_BYTES + n..] == head + behind;
    assert (head + tail)[HEAD_BYTES + n..] == tail[n..];
    HeaderRead(m, behind);
    assert (head + behind)[HEAD_BYTES..] == behind;
  }

  /** A reader waits exactly when it finds the pipe empty, and then leaves it so. */
  lemma WaitsOnEmpty(pipe: seq<byte>, local: int, len: nat, stale: seq<byte>)
    requires |stale| == HEAD_BYTES + len
    ensures Receive(pipe, local, len, stale).Blocked? <==> pipe == []
  {
  }

  /** A whole frame at the front of the pipe is received exactly by its addressee with its length. */
  lemma ReceiveFrame(m: Message, rest: seq<byte>, w: Want)
    requires Whole(m) && w.Valid()
    ensures Receive(Frame(m) + rest, w.local, w.len, w.stale) == Delivered(m.payload, rest)
            <==> w.local == m.dist && w.len == |m.payload|
    ensures !Receive(Frame(m) + rest, w.local, w.len, w.stale).Exit?
            <==> w.local == m.dist && w.len == |m.payload|
  {
    var head := Header([MSG_TYPE_DATA, m.src, m.dist, |m.payload|, m.w4, m.w5]);
    assert Frame(m) + rest == head + (m.payload + rest);
    HeaderDecides(m, m.payload + rest, w);
    if w.len == |m.payload| {
      assert (m.payload + rest)[..w.len] + w.stale[HEAD_BYTES + w.len..] == m.payload;
      assert (m.payload + rest)[w.len..] == rest;
    }
  }

  /** Receivers get every payload back, in order and with nothing left in the pipe, if and
      only if their (machine, length) sequence is the senders' (destination, length) sequence. */
  lemma {:induction false} FramingExact(ms: seq<Message>, wants: seq<Want>)
    requires forall i :: 0 <= i < |ms| ==> Whole(ms[i])
    requires forall i :: 0 <= i < |wants| ==> wants[i].Valid()
    ensures ReceiveAll(InPipe(ms), wants) == Some((Payloads(ms), [])) <==> Asked(wants) == Addressed(ms)
    decreases |wants|
  {
    if ms == [] {
      if wants != [] {
        assert Asked(wants) != [];
      }
    } else if wants == [] {
      assert |InPipe(ms)| >= HEAD_BYTES;
    } else {
      var m, rest := ms[0], InPipe(ms[1..]);
      assert Whole(m);
      assert InPipe(ms) == Frame(m) + rest;
      FramingExact(ms[1..], wants[1..]);
      FramingStep(m, rest, wants, Payloads(ms[1..]));
      PairsStep(ms, wants);
    }
  }

  lemma PairsStep(ms: seq<Message>, wants: seq<Want>)
    requires ms != [] && wants != []
    ensures Asked(wants) == Addressed(ms) <==>
              wants[0].local == ms[0].dist && wants[0].len == |ms[0].payload|
              && Asked(wants[1..]) == Addressed(ms[1..])
  {
    assert Asked(wants)[0] == (wants[0].local, wants[0].len) && Asked(wants)[1..] == Asked(wants[1..]);
    assert Addressed(ms)[0] == (ms[0].dist, |ms[0].payload|) && Addressed(ms)[1..] == Addressed(ms[1..]);
  }

  lemma FramingStep(m: Message, rest: seq<byte>, wants: seq<Want>, ps: seq<Text>)
    requires Whole(m) && wants != [] && forall i :: 0 <= i < |wants| ==> wants[i].Valid()
    ensures ReceiveAll(Frame(m) + rest, wants) == Some(([m.payload] + ps, []))
            <==> wants[0].local == m.dist && wants[0].len == |m.payload|
                 && ReceiveAll(rest, wants[1..]) == Some((ps, []))
  {
    assert wants[0].Valid();
    ReceiveFrame(m, rest, wants[0]);
    if ReceiveAll(rest, wants[1..]).Some? {
      var ps' := ReceiveAll(rest, wants[1..]).value.0;
      assert [m.payload] + ps' == [m.payload] + ps ==> ([m.payload] + ps')[1..] == ([m.payload] + ps)[1..];
    }
  }

  lemma Truncated(m: Message, stale: seq<byte>)
    requires m.Valid() && |stale| == HEAD_BYTES + |m.payload| && |m.payload| > MSG_BUFF_SIZE - HEAD_BYTES
    ensures Receive(Forwarded(Frame(m)), m.dist, |m.payload|, stale) ==
            Delivered(m.payload[..MSG_BUFF_SIZE - HEAD_BYTES] + stale[MSG_BUFF_SIZE..], [])
  {
    var head, tail := Header([MSG_TYPE_DATA, m.src, m.dist, |m.payload|, m.w4, m.w5]),
                      m.payload[..MSG_BUFF_SIZE - HEAD_BYTES];
    assert Forwarded(Frame(m)) == head + tail;
    HeaderDecides(m, tail, Want(m.dist, |m.payload|, stale));
    assert tail[..|tail|] == tail;
  }

  lemma SameTail(t: Text, end: Text, n: nat)
    requires n <= |t|
    ensures t[..n] + end == t <==> end == t[n..]
  {
    assert (t[..n] + end)[n..] == end;
    assert t[..n] + t[n..] == t;
  }

  /** Of a message longer than the forwarding buffer only the front comes through: its reader
      gets the payload's first 1976 bytes and then what its own buffer held. So a message alone
      in the pipe is recovered if and only if it fits, or that happens to be the missing end. */
  lemma ForwardingLimit(m: Message, stale: seq<byte>)
    requires m.Valid() && |stale| == HEAD_BYTES + |m.payload|
    ensures var room := MSG_BUFF_SIZE - HEAD_BYTES;
            var got := Receive(Forwarded(Frame(m)), m.dist, |m.payload|, stale);
            && (got == Delivered(m.payload, []) <==>
                  |m.payload| <= room || stale[MSG_BUFF_SIZE..] == m.payload[room..])
            && (|m.payload| > room ==> got == Delivered(m.payload[..room] + stale[MSG_BUFF_SIZE..], []))
  {
    var room, w := MSG_BUFF_SIZE - HEAD_BYTES, Want(m.dist, |m.payload|, stale);
    if |m.payload| <= room {
      ReceiveFrame(m, [], w);
      assert Frame(m) + [] == Frame(m);
    } else {
      Truncated(m, stale);
      SameTail(m.payload, stale[MSG_BUFF_SIZE..], room);
    }
  }

  lemma FrameSplits(m: Message)
    requires m.Valid()
    ensures Frame(m) == Header([MSG_TYPE_DATA, m.src, m.dist, |m.payload|]) + (PutInt(m.w4) + PutInt(m.w5) + m.payload)
  {
    var ws := [MSG_TYPE_DATA, m.src, m.dist, |m.payload|];
    Messages.HeaderSnoc(ws, m.w4);
    Messages.HeaderSnoc(ws + [m.w4], m.w5);
    assert ws + [m.w4] + [m.w5] == [MSG_TYPE_DATA, m.src, m.dist, |m.payload|, m.w4, m.w5];
  }

  class Pipe {
    var bytes: seq<byte>

    constructor ()
      ensures bytes == []
    {
      bytes := [];
    }

    /** msg_send, and the forwarder that writes the received bytes to the pipe. */
    method Send(src: int, dist: int, payload: Text) returns (ghost m: Message)
      requires Int32(src) && Int32(dist) && Int32(|payload|)
      modifies this
      ensures m.Valid() && m == Message(src, dist, payload, m.w4, m.w5)
      ensures bytes == old(bytes) + Forwarded(Frame(m))
    {
      var buf := new byte[HEAD_BYTES + |payload|];
      Messages.CopyIn(buf, HEAD_BYTES, payload);
      ghost var w4, w5 := GetInt(buf[16..20]), GetInt(buf[20..24]);
      Messages.PutGet(buf[16..20]);
      Messages.PutGet(buf[20..24]);
      ghost var behind := PutInt(w4) + PutInt(w5) + payload;
      assert behind == buf[16..20] + buf[20..24] + buf[24..] == buf[16..];
      Messages.CopyHead(buf, MSG_TYPE_DATA, src, dist, |payload|);
      assert buf[16..] == behind;
      m := Message(src, dist, payload, w4, w5);
      FrameSplits(m);
      assert buf[..] == buf[..16] + buf[16..];
      var n := if buf.Length <= MSG_BUFF_SIZE then buf.Length else MSG_BUFF_SIZE;
      bytes := bytes + buf[..n];
    }

    /** msg_recv. */
    method Recv(local: int, len: nat) returns (got: Got, ghost stale: seq<byte>)
      modifies this
      ensures |stale| == HEAD_BYTES + len && got == Receive(old(bytes), local, len, stale)
      ensures bytes == if got.Blocked? then old(bytes) else got.rest
      ensures got.Blocked? <==> old(bytes) == []
    {
      var buf := new byte[HEAD_BYTES + len];
      stale := buf[..];
      var n := Least(|bytes|, buf.Length);
      if n == 0 {
        return Blocked, stale;
      }
      Messages.CopyIn(buf, 0, bytes[..n]);
      assert buf[..] == bytes[..n] + stale[n..];
      bytes := bytes[n..];
      if Word(buf[..], 0) != MSG_TYPE_DATA || Word(buf[..], 2) != local || Word(buf[..], 3) != len {
        got := Exit(bytes);
      } else {
        got := Delivered(buf[HEAD_BYTES..], bytes);
      }
    }
  }
}
