/** Byte layout of the messages: header words, NUL-terminated strings, and the copies
    made with sprintf. Words are 32-bit two's complement, low byte first. */
module Codec {
  import opened JobQueue
  import opened Wrappers

  const MSG_BUFF_SIZE := 2000
  const MSG_HEAD_SIZE := 6
  const HEAD_BYTES := 24
  const MSG_TYPE_DATA := 1
  const MSG_TYPE_JOB_SUBMIT := 4
  const MSG_TYPE_JOB_CANCEL := 5
  const MSG_TYPE_JOB_RETURN := 6
  const MSG_TYPE_JOB_QUERY := 7
  const JOB_STAT_FINISHED := 3
  const COMM_SIZE := 256
  const USER_SIZE := 32
  const WORK_COMM_SIZE := 32
  const PERCENT: byte := 37

  predicate Int32(x: int) {
    -0x8000_0000 <= x < 0x8000_0000
  }

  // ---- words

  function PutInt(x: int): (b: seq<byte>)
    requires Int32(x)
    ensures |b| == 4
  {
    var u := if x < 0 then x + 0x1_0000_0000 else x;
    [(u % 256) as byte, (u / 256 % 256) as byte, (u / 65536 % 256) as byte, (u / 16777216) as byte]
  }

  function GetInt(b: seq<byte>): int
    requires |b| == 4
  {
    var u := b[0] as int + 256 * b[1] as int + 65536 * b[2] as int + 16777216 * b[3] as int;
    if u < 0x8000_0000 then u else u - 0x1_0000_0000
  }

  lemma GetPut(x: int)
    requires Int32(x)
    ensures GetInt(PutInt(x)) == x
  {
    var u := if x < 0 then x + 0x1_0000_0000 else x;
    assert u == u % 256 + 256 * (u / 256);
    assert u / 256 == u / 256 % 256 + 256 * (u / 65536);
    assert u / 65536 == u / 65536 % 256 + 256 * (u / 16777216);
  }

  function Word(b: seq<byte>, i: nat): int
    requires 4 * i + 4 <= |b|
  {
    GetInt(b[4 * i..4 * i + 4])
  }

  function WithWord(b: seq<byte>, i: nat, x: int): (b': seq<byte>)
    requires 4 * i + 4 <= |b| && Int32(x)
    ensures |b'| == |b|
  {
    b[..4 * i] + PutInt(x) + b[4 * i + 4..]
  }

  /** A word written is read back, and no other word changes. */
  lemma WordOfWith(b: seq<byte>, i: nat, x: int, j: nat)
    requires 4 * i + 4 <= |b| && 4 * j + 4 <= |b| && Int32(x)
    ensures Word(WithWord(b, i, x), j) == if j == i then x else Word(b, j)
  {
    var b' := WithWord(b, i, x);
    if j == i {
      assert b'[4 * i..4 * i + 4] == PutInt(x);
      GetPut(x);
    } else {
      assert b'[4 * j..4 * j + 4] == b[4 * j..4 * j + 4];
    }
  }

  // ---- strings

  predicate NoNul(t: Text) {
    0 !in t
  }

  /** The C string at `off`: the bytes before the next NUL, if the buffer has one. */
  function StringAt(b: seq<byte>, off: nat): Option<Text>
    requires off <= |b|
    decreases |b| - off
  {
    if off == |b| then None
    else if b[off] == 0 then Some([])
    else match StringAt(b, off + 1)
      case None => None
      case Some(t) => Some([b[off]] + t)
  }

  /** The string read at `off` is `t` exactly when the buffer holds `t` there, then a NUL, and no
      NUL before; there is none exactly when no NUL follows. */
  lemma {:induction false} StringExact(b: seq<byte>, off: nat, t: Text)
    requires off <= |b|
    ensures StringAt(b, off) == Some(t) <==>
              off + |t| < |b| && b[off..off + |t|] == t && b[off + |t|] == 0 && NoNul(t)
    ensures StringAt(b, off) == None <==> NoNul(b[off..])
    decreases |b| - off
  {
    if off < |b| {
      assert b[off..] == [b[off]] + b[off + 1..];
      if b[off] != 0 {
        StringExact(b, off + 1, if t == [] then [] else t[1..]);
        StringTail(b, off, t);
      } else if t != [] && off + |t| < |b| {
        assert b[off..off + |t|][0] == 0;
      }
    }
  }

  lemma StringTail(b: seq<byte>, off: nat, t: Text)
    requires off < |b| && b[off] != 0
    ensures StringAt(b, off) == Some(t) <==> t != [] && t[0] == b[off] && StringAt(b, off + 1) == Some(t[1..])
    ensures t != [] && off + |t| < |b| ==>
              (b[off..off + |t|] == t <==> t[0] == b[off] && b[off + 1..off + |t|] == t[1..])
    ensures t != [] ==> (NoNul(t) <==> t[0] != 0 && NoNul(t[1..]))
  {
    if t != [] {
      assert t == [t[0]] + t[1..];
      if off + |t| < |b| {
        assert b[off..off + |t|] == [b[off]] + b[off + 1..off + |t|];
      }
    }
    if StringAt(b, off + 1).Some? {
      assert ([b[off]] + StringAt(b, off + 1).value)[1..] == StringAt(b, off + 1).value;
    }
  }

  lemma {:induction false} StringFound(b: seq<byte>, off: nat, t: Text)
    requires off + |t| < |b| && b[off..off + |t|] == t && b[off + |t|] == 0 && NoNul(t)
    ensures StringAt(b, off) == Some(t)
    decreases |t|
  {
    if t != [] {
      assert b[off] == t[0];
      assert b[off + 1..off + 1 + |t[1..]|] == t[1..];
      StringFound(b, off + 1, t[1..]);
      assert t == [t[0]] + t[1..];
    }
  }

  // ---- copies through sprintf

  const LOWER_D: byte := 100

  /** The decimal digits of `n`, as %d prints them. */
  function Digits(n: nat): (t: Text)
    ensures t != [] && forall i :: 0 <= i < |t| ==> 48 <= t[i] <= 57
  {
    (if n < 10 then [] else Digits(n / 10)) + [(48 + n % 10) as byte]
  }

  function Decimal(n: int): (t: Text)
    ensures t != [] && t[0] != PERCENT && NoNul(t)
  {
    if n < 0 then [45] + Digits(-n) else Digits(n)
  }

  /** The number a text of digits stands for. */
  function Value(t: Text): int {
    if t == [] then 0 else 10 * Value(t[..|t| - 1]) + t[|t| - 1] as int - 48
  }

  lemma {:induction false} DigitsReadBack(n: nat)
    ensures Value(Digits(n)) == n
  {
    if n >= 10 {
      DigitsReadBack(n / 10);
      assert Digits(n)[..|Digits(n)| - 1] == Digits(n / 10);
    } else {
      assert Digits(n)[..0] == [];
    }
  }

  /** What %d prints reads back as the number. */
  lemma DecimalReadBack(n: int)
    ensures n >= 0 ==> Value(Decimal(n)) == n
    ensures n < 0 ==> Decimal(n)[0] == 45 && Value(Decimal(n)[1..]) == -n
  {
    if n >= 0 {
      DigitsReadBack(n);
    } else {
      DigitsReadBack(-n);
      assert Decimal(n)[1..] == Digits(-n);
    }
  }

  /** Every percent sign doubled. */
  function Escape(t: Text): Text {
    if t == [] then [] else (if t[0] == PERCENT then [PERCENT, PERCENT] else [t[0]]) + Escape(t[1..])
  }

  function Prepended(t: Text, u: Option<Text>): Option<Text> {
    if u.None? then None else Some(t + u.value)
  }

  lemma FormatStep(c: byte, fmt: Text, arg: Option<int>)
    ensures Format((if c == PERCENT then [PERCENT, PERCENT] else [c]) + fmt, arg) == Prepended([c], Format(fmt, arg))
  {
    if c == PERCENT {
      assert ([PERCENT, PERCENT] + fmt)[2..] == fmt;
    } else {
      assert ([c] + fmt)[1..] == fmt;
    }
  }

  lemma Regroup(a: Text, b: Text, c: Text)
    ensures (a + b) + c == a + (b + c)
  {
  }

  lemma EscapeStep(t: Text, rest: Text, u: Option<Text>)
    requires t != []
    ensures Escape(t) + rest ==
            (if t[0] == PERCENT then [PERCENT, PERCENT] else [t[0]]) + (Escape(t[1..]) + rest)
    ensures Prepended([t[0]], Prepended(t[1..], u)) == Prepended(t, u)
  {
    Regroup(if t[0] == PERCENT then [PERCENT, PERCENT] else [t[0]], Escape(t[1..]), rest);
    if u.Some? {
      Regroup([t[0]], t[1..], u.value);
      assert [t[0]] + t[1..] == t;
    }
  }

  /** sprintf undoes the doubling, and puts the argument where %d stands. */
  lemma {:induction false} FormatEscaped(t: Text, rest: Text, arg: Option<int>)
    ensures Format(Escape(t) + rest, arg) == Prepended(t, Format(rest, arg))
    decreases |t|
  {
    var u := Format(rest, arg);
    if t == [] {
      assert Escape(t) + rest == rest;
      assert u.Some? ==> [] + u.value == u.value;
    } else {
      FormatEscaped(t[1..], rest, arg);
      FormatStep(t[0], Escape(t[1..]) + rest, arg);
      EscapeStep(t, rest, u);
    }
  }

  lemma FormatArgument(t: Text, u: Text, arg: int)
    ensures Format(Escape(t) + [PERCENT, LOWER_D] + Escape(u), Some(arg)) == Some(t + (Decimal(arg) + u))
  {
    var rest := [PERCENT, LOWER_D] + Escape(u);
    assert rest[2..] == Escape(u) == Escape(u) + [];
    FormatEscaped(u, [], None);
    assert u + [] == u;
    assert Escape(t) + [PERCENT, LOWER_D] + Escape(u) == Escape(t) + rest;
    FormatEscaped(t, rest, Some(arg));
  }

  /** What sprintf makes of `fmt` used as a format with the one integer argument `arg`, or
      with none left. A doubled percent sign gives one, %d the argument; any other
      directive is None. */
  function Format(fmt: Text, arg: Option<int>): Option<Text> {
    if fmt == [] then Some([])
    else if fmt[0] != PERCENT then
      match Format(fmt[1..], arg)
      case None => None
      case Some(t) => Some([fmt[0]] + t)
    else if |fmt| >= 2 && fmt[1] == PERCENT then
      match Format(fmt[2..], arg)
      case None => None
      case Some(t) => Some([PERCENT] + t)
    else if |fmt| >= 2 && fmt[1] == LOWER_D && arg.Some? then
      match Format(fmt[2..], None)
      case None => None
      case Some(t) => Some(Decimal(arg.value) + t)
    else None
  }

  /** The percent signs a text begins with. */
  function Lead(t: Text): nat {
    if t == [] || t[0] != PERCENT then 0 else 1 + Lead(t[1..])
  }

  lemma {:induction false} LeadHalves(fmt: Text, arg: Option<int>)
    requires Format(fmt, arg).Some?
    ensures 2 * Lead(Format(fmt, arg).value) <= Lead(fmt)
    decreases |fmt|
  {
    if |fmt| >= 2 && fmt[0] == fmt[1] == PERCENT {
      LeadHalves(fmt[2..], arg);
      assert Lead(fmt) == 2 + Lead(fmt[2..]);
      assert ([PERCENT] + Format(fmt[2..], arg).value)[1..] == Format(fmt[2..], arg).value;
    }
  }

  lemma {:induction false} FormatPlain(fmt: Text, arg: Option<int>)
    requires PERCENT !in fmt
    ensures Format(fmt, arg) == Some(fmt)
    decreases |fmt|
  {
    if fmt != [] {
      FormatPlain(fmt[1..], arg);
      assert fmt == [fmt[0]] + fmt[1..];
    }
  }

  function Twice(t: Text, arg1: Option<int>, arg2: Option<int>): Option<Text> {
    if Format(t, arg1).None? then None else Format(Format(t, arg1).value, arg2)
  }

  /** Neither one formatting nor two leave a text with a percent sign as it was. */
  lemma {:induction false} FormatChanges(t: Text, arg1: Option<int>, arg2: Option<int>)
    requires PERCENT in t
    ensures Format(t, arg1) != Some(t) && Twice(t, arg1, arg2) != Some(t)
    decreases |t|
  {
    if t[0] != PERCENT {
      assert t == [t[0]] + t[1..];
      FormatChanges(t[1..], arg1, arg2);
      if Format(t, arg1).Some? {
        assert Format(t, arg1).value[1..] == Format(t[1..], arg1).value;
      }
    } else if Format(t, arg1).Some? {
      LeadHalves(t, arg1);
      if Twice(t, arg1, arg2).Some? {
        LeadHalves(Format(t, arg1).value, arg2);
      }
    }
  }

  /** sprintf into a field of `size` bytes; None when it would write past the field. */
  function Store(fmt: Option<Text>, arg: int, size: nat): Option<Text> {
    if fmt.None? then None
    else match Format(fmt.value, Some(arg))
      case None => None
      case Some(t) => if |t| < size then Some(t) else None
  }

  lemma StoreIsCopy(t: Text, arg: int, size: nat)
    ensures Store(Some(t), arg, size) == Some(t) <==> PERCENT !in t && |t| < size
  {
    if PERCENT !in t {
      FormatPlain(t, Some(arg));
    } else {
      FormatChanges(t, Some(arg), None);
    }
  }

  /** Two copies in a row return the original only if each of them does. */
  lemma StoreTwice(t: Text, arg1: int, size1: nat, arg2: int, size2: nat)
    ensures Store(Store(Some(t), arg1, size1), arg2, size2) == Some(t) <==>
            PERCENT !in t && |t| < size1 && |t| < size2
  {
    if PERCENT !in t {
      FormatPlain(t, Some(arg1));
      FormatPlain(t, Some(arg2));
    } else {
      FormatChanges(t, Some(arg1), Some(arg2));
    }
  }

  // ---- messages

  function Header(ws: seq<int>): (b: seq<byte>)
    requires forall w :: w in ws ==> Int32(w)
    ensures |b| == 4 * |ws|
  {
    if ws == [] then [] else PutInt(ws[0]) + Header(ws[1..])
  }

  lemma {:induction false} HeaderWord(ws: seq<int>, rest: seq<byte>, i: nat)
    requires (forall w :: w in ws ==> Int32(w)) && i < |ws|
    ensures Word(Header(ws) + rest, i) == ws[i]
  {
    var b := Header(ws) + rest;
    if i == 0 {
      assert b[0..4] == PutInt(ws[0]);
      GetPut(ws[0]);
    } else {
      HeaderWord(ws[1..], rest, i - 1);
      assert b[4 * i..4 * i + 4] == (Header(ws[1..]) + rest)[4 * (i - 1)..4 * (i - 1) + 4];
    }
  }

  /** A submit from a client: command and user name follow the header. */
  function SubmitMessage(src: int, dist: int, comm: Text, req: int, user: Text): (b: seq<byte>)
    requires Int32(src) && Int32(dist) && Int32(req) && Int32(|comm| + 1) && Int32(|user| + 1)
    ensures |b| == HEAD_BYTES + |comm| + |user| + 2
  {
    Header([MSG_TYPE_JOB_SUBMIT, src, dist, |comm| + 1, req, |user| + 1]) + comm + [0] + user + [0]
  }

  /** A submit from the master to a worker. The sixth header word is never written. */
  function LaunchMessage(src: int, dist: int, job: int, comm: Text, unset: int): (b: seq<byte>)
    requires Int32(src) && Int32(dist) && Int32(job) && Int32(unset) && Int32(|comm| + 1)
    ensures |b| == HEAD_BYTES + |comm| + 1
  {
    Header([MSG_TYPE_JOB_SUBMIT, src, dist, job, |comm| + 1, unset]) + comm + [0]
  }

  datatype Submission = Submission(kind: int, src: int, req: int, comm: Option<Text>, commLen: int,
                                   user: Option<Text>, userLen: int)

  /** The monitor's reading of a receive buffer. */
  function ReadSubmit(b: seq<byte>): Option<Submission>
    requires |b| == MSG_BUFF_SIZE
  {
    var at := HEAD_BYTES + Word(b, 3);
    if 0 <= at <= |b|
    then Some(Submission(Word(b, 0), Word(b, 1), Word(b, 4), StringAt(b, HEAD_BYTES), Word(b, 3),
                         StringAt(b, at), Word(b, 5)))
    else None
  }

  /** The worker's reading: it cuts the command at the announced length first. */
  function ReadLaunch(b: seq<byte>): Option<(int, Option<Text>)>
    requires |b| == MSG_BUFF_SIZE
  {
    var end := HEAD_BYTES + Word(b, 4);
    if 0 <= end < |b| then Some((Word(b, 3), StringAt(b[end := 0], HEAD_BYTES))) else None
  }

  /** The monitor reads back what the client wrote, whatever its buffer held before. */
  lemma SubmitReadBack(src: int, dist: int, comm: Text, req: int, user: Text, stale: seq<byte>)
    requires Int32(src) && Int32(dist) && Int32(req) && NoNul(comm) && NoNul(user)
    requires HEAD_BYTES + |comm| + |user| + 2 + |stale| == MSG_BUFF_SIZE
    ensures ReadSubmit(SubmitMessage(src, dist, comm, req, user) + stale) ==
            Some(Submission(4, src, req, Some(comm), |comm| + 1, Some(user), |user| + 1))
  {
    var ws := [MSG_TYPE_JOB_SUBMIT, src, dist, |comm| + 1, req, |user| + 1];
    var b := SubmitMessage(src, dist, comm, req, user) + stale;
    var rest := comm + [0] + user + [0] + stale;
    assert b == Header(ws) + rest;
    HeaderWord(ws, rest, 0);
    HeaderWord(ws, rest, 1);
    HeaderWord(ws, rest, 3);
    HeaderWord(ws, rest, 4);
    HeaderWord(ws, rest, 5);
    assert b[HEAD_BYTES..HEAD_BYTES + |comm|] == comm;
    StringFound(b, HEAD_BYTES, comm);
    assert b[HEAD_BYTES + |comm| + 1..HEAD_BYTES + |comm| + 1 + |user|] == user;
    StringFound(b, HEAD_BYTES + |comm| + 1, user);
  }

  /** The worker reads back what the master wrote. */
  lemma LaunchReadBack(src: int, dist: int, job: int, comm: Text, unset: int, stale: seq<byte>)
    requires Int32(src) && Int32(dist) && Int32(job) && Int32(unset) && NoNul(comm)
    requires HEAD_BYTES + |comm| + 1 + |stale| == MSG_BUFF_SIZE && stale != []
    ensures ReadLaunch(LaunchMessage(src, dist, job, comm, unset) + stale) == Some((job, Some(comm)))
  {
    var ws := [MSG_TYPE_JOB_SUBMIT, src, dist, job, |comm| + 1, unset];
    var b := LaunchMessage(src, dist, job, comm, unset) + stale;
    var rest := comm + [0] + stale;
    assert b == Header(ws) + rest;
    HeaderWord(ws, rest, 3);
    HeaderWord(ws, rest, 4);
    var b' := b[HEAD_BYTES + |comm| + 1 := 0];
    assert b'[HEAD_BYTES..HEAD_BYTES + |comm|] == comm;
    assert b'[HEAD_BYTES + |comm|] == 0;
    StringFound(b', HEAD_BYTES, comm);
  }

  // ---- the whole way of a command

  datatype Delivery = Delivery(job: int, comm: Text, req: int, user: Text)

  function LengthOf(t: Option<Text>): nat {
    if t.None? then 0 else |t.value|
  }

  /** Client message, monitor's slot, dispatcher's copy, master's message, worker's reading. */
  function Deliver(src: int, dist: int, comm: Text, req: int, user: Text, stale: seq<byte>,
                   job: int, host: int, unset: int, stale2: seq<byte>): Option<Delivery>
    requires Int32(src) && Int32(dist) && Int32(req) && Int32(job) && Int32(host) && Int32(unset)
    requires HEAD_BYTES + |comm| + |user| + 2 + |stale| == MSG_BUFF_SIZE && |stale2| == MSG_BUFF_SIZE
  {
    match ReadSubmit(SubmitMessage(src, dist, comm, req, user) + stale)
    case None => None
    case Some(x) =>
      var slotComm, slotUser := Store(x.comm, x.commLen, COMM_SIZE), Store(x.user, x.userLen, USER_SIZE);
      var work := Store(slotComm, LengthOf(slotComm), WORK_COMM_SIZE);
      if work.None? || slotUser.None? then None
      else
        var msg := LaunchMessage(src, host, job, work.value, unset);
        match ReadLaunch(msg + stale2[|msg|..])
        case Some((j, Some(c))) => Some(Delivery(j, c, x.req, slotUser.value))
        case _ => None
  }

  /** A job arrives as it was submitted if and only if neither string holds a percent sign
      and each fits the smallest field on its way: 31 characters, because the dispatcher's
      copy is shorter than the slot's. */
  lemma DeliveryExact(src: int, dist: int, comm: Text, req: int, user: Text, stale: seq<byte>,
                      job: int, host: int, unset: int, stale2: seq<byte>)
    requires Int32(src) && Int32(dist) && Int32(req) && Int32(job) && Int32(host) && Int32(unset)
    requires NoNul(comm) && NoNul(user)
    requires HEAD_BYTES + |comm| + |user| + 2 + |stale| == MSG_BUFF_SIZE && |stale2| == MSG_BUFF_SIZE
    ensures Deliver(src, dist, comm, req, user, stale, job, host, unset, stale2) ==
            Some(Delivery(job, comm, req, user))
            <==> PERCENT !in comm && PERCENT !in user && |comm| < WORK_COMM_SIZE && |user| < USER_SIZE
  {
    SubmitReadBack(src, dist, comm, req, user, stale);
    var slotComm := Store(Some(comm), |comm| + 1, COMM_SIZE);
    StoreTwice(comm, |comm| + 1, COMM_SIZE, LengthOf(slotComm), WORK_COMM_SIZE);
    StoreIsCopy(user, |user| + 1, USER_SIZE);
    var work := Store(slotComm, LengthOf(slotComm), WORK_COMM_SIZE);
    if work.Some? {
      StoreKeepsNoNul(Some(comm), |comm| + 1, COMM_SIZE);
      StoreKeepsNoNul(slotComm, LengthOf(slotComm), WORK_COMM_SIZE);
      var msg := LaunchMessage(src, host, job, work.value, unset);
      LaunchReadBack(src, host, job, work.value, unset, stale2[|msg|..]);
    }
  }

  lemma {:induction false} FormatKeepsNoNul(fmt: Text, arg: Option<int>)
    requires NoNul(fmt)
    ensures Format(fmt, arg).Some? ==> NoNul(Format(fmt, arg).value)
    decreases |fmt|
  {
    if fmt != [] && fmt[0] != PERCENT {
      FormatKeepsNoNul(fmt[1..], arg);
    } else if |fmt| >= 2 {
      FormatKeepsNoNul(fmt[2..], if fmt[1] == PERCENT then arg else None);
    }
  }

  lemma StoreKeepsNoNul(t: Option<Text>, arg: int, size: nat)
    requires t.Some? ==> NoNul(t.value)
    ensures Store(t, arg, size).Some? ==> NoNul(Store(t, arg, size).value) && |Store(t, arg, size).value| < size
  {
    if t.Some? {
      FormatKeepsNoNul(t.value, Some(arg));
    }
  }

  // ---- cancels and returns

  /** A message of five words; the sixth header word is never written. */
  function ShortMessage(kind: int, src: int, dist: int, job: int, relt: int, unset: int): (b: seq<byte>)
    requires Int32(kind) && Int32(src) && Int32(dist) && Int32(job) && Int32(relt) && Int32(unset)
    ensures |b| == HEAD_BYTES
  {
    Header([kind, src, dist, job, relt, unset])
  }

  /** What a reader of a short message takes from its buffer: kind, sender, job and result. */
  function ReadShort(b: seq<byte>): (int, int, int, int)
    requires |b| == MSG_BUFF_SIZE
  {
    (Word(b, 0), Word(b, 1), Word(b, 3), Word(b, 4))
  }

  /** A return names its host and its job, a cancel its job, whatever the buffer held before. */
  lemma ShortReadBack(kind: int, src: int, dist: int, job: int, relt: int, unset: int, stale: seq<byte>)
    requires Int32(kind) && Int32(src) && Int32(dist) && Int32(job) && Int32(relt) && Int32(unset)
    requires HEAD_BYTES + |stale| == MSG_BUFF_SIZE
    ensures ReadShort(ShortMessage(kind, src, dist, job, relt, unset) + stale) == (kind, src, job, relt)
  {
    var ws := [kind, src, dist, job, relt, unset];
    HeaderWord(ws, stale, 0);
    HeaderWord(ws, stale, 1);
    HeaderWord(ws, stale, 3);
    HeaderWord(ws, stale, 4);
  }
}
