/** The monitor's connections: accepted, read once, answered once, closed. A connection's
    poll entry owns the reply buffer from the moment its request is executed. */
module Connections {
  import opened Wrappers
  import opened JobQueue
  import opened Polling

  /** What one receive gave: a request, the peer's hang-up, nothing yet, or an error. */
  datatype Recv = Data(msg: Text) | Hangup | Again | Failed

  datatype Act =
    | Executed(conn: nat, msg: Text, at: nat)
    | Sent(conn: nat, buf: nat, reply: Text)
    | Freed(buf: nat)

  datatype Key = Execution(c: nat) | Reply(c: nat) | Release(b: nat)

  function KeyOf(a: Act): Key {
    match a
    case Executed(c, _, _) => Execution(c)
    case Sent(c, _, _) => Reply(c)
    case Freed(b) => Release(b)
  }

  /** How often the log has an act of the given kind for the given connection or buffer. */
  function Tally(log: seq<Act>, k: Key): nat {
    if log == [] then 0 else Tally(log[..|log| - 1], k) + if KeyOf(log[|log| - 1]) == k then 1 else 0
  }

  lemma TallySnoc(log: seq<Act>, a: Act, k: Key)
    ensures Tally(log + [a], k) == Tally(log, k) + if KeyOf(a) == k then 1 else 0
  {
    assert (log + [a])[..|log|] == log;
  }

  const LISTENER := 0

  /** `conns` is the monitor's socket map, `heap` the live reply buffers with their contents.
      `clock` counts executed requests; `log` is what was done so far. */
  datatype State = State(
    conns: map<nat, Poll<nat>>,
    waiting: seq<nat>,
    nextConn: nat,
    heap: map<nat, Text>,
    nextBuf: nat,
    clock: nat,
    log: seq<Act>)

  const START := State(map[], [], 1, map[], 0, 0, [])

  function Reading(c: nat): Poll<nat> {
    Poll(c, true, false, false, None)
  }

  function Writing(c: nat, b: nat): Poll<nat> {
    Poll(c, false, true, false, Some(b))
  }

  /** A new connection has been queued by the listening socket. */
  function Arrive(s: State): State {
    s.(waiting := s.waiting + [s.nextConn], nextConn := s.nextConn + 1)
  }

  function AcceptOne(s: State): State {
    if s.waiting == [] then s
    else s.(conns := s.conns[s.waiting[0] := Reading(s.waiting[0])], waiting := s.waiting[1..])
  }

  /** Execute a request: a fresh buffer takes the reply and the entry turns to writing.
      `serve` stands for the scheduler's answer at that moment. */
  function Execute(s: State, c: nat, msg: Text, serve: (Text, nat) -> Text): State {
    s.(conns := s.conns[c := Writing(c, s.nextBuf)],
       heap := s.heap[s.nextBuf := serve(msg, s.clock)],
       nextBuf := s.nextBuf + 1,
       clock := s.clock + 1,
       log := s.log + [Executed(c, msg, s.clock)])
  }

  function Drop(s: State, c: nat): State {
    s.(conns := s.conns - {c})
  }

  /** Send the reply, free its buffer, close the connection. */
  function Answer(s: State, c: nat, b: nat): State {
    var reply := if b in s.heap then s.heap[b] else [];
    s.(conns := s.conns - {c}, heap := s.heap - {b}, log := s.log + [Sent(c, b, reply), Freed(b)])
  }

  /** One entry of the ready list. An entry that only reports an error is passed over. */
  function Visit(s: State, up: Poll<nat>, r: Recv, serve: (Text, nat) -> Text): State {
    if up.sock == LISTENER then (if up.read then AcceptOne(s) else s)
    else if up.write then (match up.pointer case None => Drop(s, up.sock) case Some(b) => Answer(s, up.sock, b))
    else if up.read then
      match r
      case Failed => Drop(s, up.sock)
      case Data(msg) => Execute(s, up.sock, msg, serve)
      case _ => s
    else s
  }

  function Batch(s: State, ups: seq<Poll<nat>>, recv: nat -> Recv, serve: (Text, nat) -> Text): State
    decreases |ups|
  {
    if ups == [] then s
    else Batch(Visit(s, ups[0], recv(ups[0].sock), serve), ups[1..], recv, serve)
  }

  /** The entry is still the one the poll was made with. */
  predicate Current(s: State, up: Poll<nat>) {
    && up.OneBit()
    && (up.sock != LISTENER ==>
          && up.sock in s.conns && s.conns[up.sock].pointer == up.pointer
          && (up.read ==> s.conns[up.sock].read) && (up.write ==> s.conns[up.sock].write))
  }

  ghost predicate AllCurrent(s: State, ups: seq<Poll<nat>>) {
    DistinctSocks(ups) && forall i :: 0 <= i < |ups| ==> Current(s, ups[i])
  }

  // ---- the invariant

  /** The log holds an executed request of `c` whose answer is `reply`. */
  ghost predicate Answers(log: seq<Act>, c: nat, reply: Text, serve: (Text, nat) -> Text) {
    exists a :: a in log && a.Executed? && a.conn == c && reply == serve(a.msg, a.at)
  }

  ghost predicate EntryInv(s: State, c: nat, serve: (Text, nat) -> Text) {
    c in s.conns ==>
      && 1 <= c < s.nextConn && Tally(s.log, Reply(c)) == 0
      && (s.conns[c] == Reading(c) ==> Tally(s.log, Execution(c)) == 0)
      && (s.conns[c] != Reading(c) ==>
            && s.conns[c].pointer.Some? && s.conns[c] == Writing(c, s.conns[c].pointer.value)
            && Tally(s.log, Execution(c)) == 1
            && s.conns[c].pointer.value in s.heap
            && Answers(s.log, c, s.heap[s.conns[c].pointer.value], serve))
  }

  ghost predicate CountInv(s: State, c: nat) {
    && Tally(s.log, Reply(c)) <= Tally(s.log, Execution(c)) <= 1
    && (c >= s.nextConn || c in s.waiting ==> Tally(s.log, Execution(c)) == 0)
  }

  ghost predicate WaitInv(s: State) {
    && s.nextConn >= 1
    && (forall i, j :: 0 <= i < j < |s.waiting| ==> s.waiting[i] != s.waiting[j])
    && forall c :: c in s.waiting ==> 1 <= c < s.nextConn && c !in s.conns
  }

  /** Live buffers are unfreed and owned by exactly one entry; dead ones were freed once. */
  ghost predicate BufferInv(s: State, b: nat) {
    && (b in s.heap ==> b < s.nextBuf && exists c :: c in s.conns && s.conns[c].pointer == Some(b))
    && Tally(s.log, Release(b)) == (if b < s.nextBuf && b !in s.heap then 1 else 0)
  }

  ghost predicate OwnerInv(s: State) {
    forall c, d :: c in s.conns && d in s.conns && s.conns[c].pointer.Some? && s.conns[c].pointer == s.conns[d].pointer
                   ==> c == d
  }

  /** Every reply sent answers a request of its own connection; every free follows the send
      of the same buffer. */
  ghost predicate LogInv(log: seq<Act>, serve: (Text, nat) -> Text) {
    && (forall a :: a in log && a.Sent? ==> Answers(log, a.conn, a.reply, serve))
    && (forall i :: 0 <= i < |log| && log[i].Freed? ==> i >= 1 && log[i - 1].Sent? && log[i - 1].buf == log[i].buf)
  }

  ghost predicate Inv(s: State, serve: (Text, nat) -> Text) {
    && WaitInv(s) && OwnerInv(s) && LogInv(s.log, serve)
    && (forall c: nat :: EntryInv(s, c, serve)) && (forall c: nat :: CountInv(s, c))
    && (forall b: nat :: BufferInv(s, b))
  }

  lemma StartInv(serve: (Text, nat) -> Text)
    ensures Inv(START, serve)
  {
  }

  lemma ArriveKeeps(s: State, serve: (Text, nat) -> Text)
    requires Inv(s, serve)
    ensures Inv(Arrive(s), serve)
  {
    var s' := Arrive(s);
    assert EntryInv(s, s.nextConn, serve) && CountInv(s, s.nextConn);
    forall c: nat ensures EntryInv(s', c, serve) && CountInv(s', c) {
      assert EntryInv(s, c, serve) && CountInv(s, c);
    }
    forall b: nat ensures BufferInv(s', b) {
      assert BufferInv(s, b);
    }
  }

  lemma AcceptKeeps(s: State, serve: (Text, nat) -> Text)
    requires Inv(s, serve)
    ensures Inv(AcceptOne(s), serve)
  {
    if s.waiting != [] {
      var s', w := AcceptOne(s), s.waiting[0];
      assert w in s.waiting && CountInv(s, w);
      assert forall c :: c in s'.waiting ==> c in s.waiting && c != w;
      forall c: nat ensures EntryInv(s', c, serve) && CountInv(s', c) {
        assert EntryInv(s, c, serve) && CountInv(s, c);
      }
      forall b: nat ensures BufferInv(s', b) {
        assert BufferInv(s, b);
        if b in s.heap {
          var c :| c in s.conns && s.conns[c].pointer == Some(b);
          assert s'.conns[c] == s.conns[c];
        }
      }
    }
  }

  lemma DropKeeps(s: State, c: nat, serve: (Text, nat) -> Text)
    requires Inv(s, serve) && c in s.conns && s.conns[c].read
    ensures Inv(Drop(s, c), serve)
  {
    var s' := Drop(s, c);
    assert EntryInv(s, c, serve);
    forall d: nat ensures EntryInv(s', d, serve) && CountInv(s', d) {
      assert EntryInv(s, d, serve) && CountInv(s, d);
    }
    forall b: nat ensures BufferInv(s', b) {
      assert BufferInv(s, b);
      if b in s.heap {
        var d :| d in s.conns && s.conns[d].pointer == Some(b);
        assert d in s'.conns && s'.conns[d] == s.conns[d];
      }
    }
  }

  lemma AnswersGrows(log: seq<Act>, more: seq<Act>, c: nat, reply: Text, serve: (Text, nat) -> Text)
    requires Answers(log, c, reply, serve)
    ensures Answers(log + more, c, reply, serve)
  {
    var a :| a in log && a.Executed? && a.conn == c && reply == serve(a.msg, a.at);
    assert a in log + more;
  }

  lemma ExecuteLog(s: State, c: nat, msg: Text, serve: (Text, nat) -> Text)
    requires LogInv(s.log, serve)
    ensures LogInv(Execute(s, c, msg, serve).log, serve)
    ensures Answers(Execute(s, c, msg, serve).log, c, serve(msg, s.clock), serve)
  {
    var x := Executed(c, msg, s.clock);
    var log' := s.log + [x];
    assert x in log';
    forall a | a in log' && a.Sent? ensures Answers(log', a.conn, a.reply, serve) {
      AnswersGrows(s.log, [x], a.conn, a.reply, serve);
    }
    forall i | 0 <= i < |log'| && log'[i].Freed?
      ensures i >= 1 && log'[i - 1].Sent? && log'[i - 1].buf == log'[i].buf
    {
      assert log'[i] == s.log[i] && log'[i - 1] == s.log[i - 1];
    }
  }

  lemma ExecuteEntry(s: State, c: nat, msg: Text, serve: (Text, nat) -> Text, d: nat)
    requires c in s.conns && s.conns[c].read && LogInv(s.log, serve) && WaitInv(s) && BufferInv(s, s.nextBuf)
    requires EntryInv(s, c, serve) && CountInv(s, c) && EntryInv(s, d, serve) && CountInv(s, d)
    ensures EntryInv(Execute(s, c, msg, serve), d, serve)
  {
    var x := Executed(c, msg, s.clock);
    TallySnoc(s.log, x, Execution(d));
    TallySnoc(s.log, x, Reply(d));
    ExecuteLog(s, c, msg, serve);
    if d != c && d in s.conns && s.conns[d] != Reading(d) {
      AnswersGrows(s.log, [x], d, s.heap[s.conns[d].pointer.value], serve);
    }
  }

  lemma ExecuteCount(s: State, c: nat, msg: Text, serve: (Text, nat) -> Text, d: nat)
    requires c in s.conns && s.conns[c].read && WaitInv(s)
    requires EntryInv(s, c, serve) && CountInv(s, c) && CountInv(s, d)
    ensures CountInv(Execute(s, c, msg, serve), d)
  {
    var x := Executed(c, msg, s.clock);
    TallySnoc(s.log, x, Execution(d));
    TallySnoc(s.log, x, Reply(d));
  }

  lemma ExecuteKeeps(s: State, c: nat, msg: Text, serve: (Text, nat) -> Text)
    requires Inv(s, serve) && c in s.conns && s.conns[c].read
    ensures Inv(Execute(s, c, msg, serve), serve)
  {
    var s', x := Execute(s, c, msg, serve), Executed(c, msg, s.clock);
    ExecuteLog(s, c, msg, serve);
    assert BufferInv(s, s.nextBuf);
    forall d: nat ensures EntryInv(s', d, serve) && CountInv(s', d) {
      assert EntryInv(s, c, serve) && CountInv(s, c) && EntryInv(s, d, serve) && CountInv(s, d);
      ExecuteEntry(s, c, msg, serve, d);
      ExecuteCount(s, c, msg, serve, d);
    }
    assert EntryInv(s, c, serve);
    forall b: nat ensures BufferInv(s', b) {
      assert BufferInv(s, b);
      TallySnoc(s.log, x, Release(b));
      if b == s.nextBuf {
        assert s'.conns[c].pointer == Some(b);
      } else if b in s.heap {
        var d :| d in s.conns && s.conns[d].pointer == Some(b);
        assert s'.conns[d] == s.conns[d];
      }
    }
    forall d | d in s'.conns && d != c ensures s'.conns[d].pointer != Some(s.nextBuf) {
      assert EntryInv(s, d, serve) && BufferInv(s, s.nextBuf);
    }
  }

  lemma TallyTwo(log: seq<Act>, a: Act, b: Act, k: Key)
    ensures Tally(log + [a, b], k) ==
            Tally(log, k) + (if KeyOf(a) == k then 1 else 0) + if KeyOf(b) == k then 1 else 0
  {
    assert log + [a, b] == (log + [a]) + [b];
    TallySnoc(log, a, k);
    TallySnoc(log + [a], b, k);
  }

  lemma AnswerLog(s: State, c: nat, b: nat, serve: (Text, nat) -> Text)
    requires LogInv(s.log, serve) && b in s.heap && Answers(s.log, c, s.heap[b], serve)
    ensures LogInv(Answer(s, c, b).log, serve)
  {
    var more := [Sent(c, b, s.heap[b]), Freed(b)];
    var log' := s.log + more;
    forall a | a in log' && a.Sent? ensures Answers(log', a.conn, a.reply, serve) {
      if a in s.log {
        AnswersGrows(s.log, more, a.conn, a.reply, serve);
      } else {
        assert a == more[0];
        AnswersGrows(s.log, more, c, s.heap[b], serve);
      }
    }
    forall i | 0 <= i < |log'| && log'[i].Freed?
      ensures i >= 1 && log'[i - 1].Sent? && log'[i - 1].buf == log'[i].buf
    {
      if i < |s.log| {
        assert log'[i] == s.log[i] && log'[i - 1] == s.log[i - 1];
      }
    }
  }

  lemma AnswerEntry(s: State, c: nat, b: nat, serve: (Text, nat) -> Text, d: nat)
    requires Inv(s, serve) && c in s.conns && s.conns[c] == Writing(c, b)
    ensures EntryInv(Answer(s, c, b), d, serve) && CountInv(Answer(s, c, b), d)
  {
    assert EntryInv(s, c, serve) && CountInv(s, c) && EntryInv(s, d, serve) && CountInv(s, d);
    var x, y := Sent(c, b, s.heap[b]), Freed(b);
    TallyTwo(s.log, x, y, Execution(d));
    TallyTwo(s.log, x, y, Reply(d));
    if d != c && d in s.conns && s.conns[d] != Reading(d) {
      AnswersGrows(s.log, [x, y], d, s.heap[s.conns[d].pointer.value], serve);
    }
  }

  lemma AnswerKeeps(s: State, c: nat, b: nat, serve: (Text, nat) -> Text)
    requires Inv(s, serve) && c in s.conns && s.conns[c] == Writing(c, b)
    ensures Inv(Answer(s, c, b), serve)
  {
    var s' := Answer(s, c, b);
    assert EntryInv(s, c, serve) && BufferInv(s, b);
    AnswerLog(s, c, b, serve);
    forall d: nat ensures EntryInv(s', d, serve) && CountInv(s', d) {
      AnswerEntry(s, c, b, serve, d);
    }
    forall b': nat ensures BufferInv(s', b') {
      assert BufferInv(s, b');
      TallyTwo(s.log, Sent(c, b, s.heap[b]), Freed(b), Release(b'));
      if b' != b && b' in s.heap {
        var d :| d in s.conns && s.conns[d].pointer == Some(b');
        assert d in s'.conns && s'.conns[d] == s.conns[d];
      }
    }
  }

  lemma VisitKeeps(s: State, up: Poll<nat>, r: Recv, serve: (Text, nat) -> Text)
    requires Inv(s, serve) && Current(s, up)
    ensures Inv(Visit(s, up, r, serve), serve)
  {
    if up.sock == LISTENER {
      if up.read {
        AcceptKeeps(s, serve);
      }
    } else {
      assert EntryInv(s, up.sock, serve);
      if up.write {
        AnswerKeeps(s, up.sock, up.pointer.value, serve);
      } else if up.read && r.Failed? {
        DropKeeps(s, up.sock, serve);
      } else if up.read && r.Data? {
        ExecuteKeeps(s, up.sock, r.msg, serve);
      }
    }
  }

  /** A visit changes no entry but its own: the others of the batch stay current. */
  lemma VisitLeavesOthers(s: State, up: Poll<nat>, r: Recv, serve: (Text, nat) -> Text, other: Poll<nat>)
    requires Inv(s, serve) && Current(s, up) && Current(s, other) && other.sock != up.sock
    ensures Current(Visit(s, up, r, serve), other)
  {
  }

  /** A whole batch keeps the invariant, and none of its entries has been erased or replaced
      when its turn comes. */
  lemma {:induction false} BatchKeeps(s: State, ups: seq<Poll<nat>>, recv: nat -> Recv, serve: (Text, nat) -> Text)
    requires Inv(s, serve) && AllCurrent(s, ups)
    ensures Inv(Batch(s, ups, recv, serve), serve)
    decreases |ups|
  {
    if ups != [] {
      var s1 := Visit(s, ups[0], recv(ups[0].sock), serve);
      VisitKeeps(s, ups[0], recv(ups[0].sock), serve);
      forall i | 0 <= i < |ups[1..]| ensures Current(s1, ups[1..][i]) {
        VisitLeavesOthers(s, ups[0], recv(ups[0].sock), serve, ups[1..][i]);
      }
      BatchKeeps(s1, ups[1..], recv, serve);
    }
  }

  // ---- rounds of the monitor loop

  /** The poll list: every connection in the map's order, then the listener. */
  function Sources(s: State, order: seq<nat>): seq<Poll<nat>>
    requires forall c :: c in order ==> c in s.conns
  {
    seq(|order|, i requires 0 <= i < |order| => s.conns[order[i]]) + [Reading(LISTENER)]
  }

  ghost predicate Enumerates(order: seq<nat>, s: State) {
    && (forall i, j :: 0 <= i < j < |order| ==> order[i] != order[j])
    && (forall c :: c in order ==> c in s.conns) && (forall c :: c in s.conns ==> c in order)
  }

  datatype Round = NewConn | Turn(order: seq<nat>, looks: seq<View<nat>>, recv: nat -> Recv)

  ghost predicate Possible(s: State, r: Round) {
    r.Turn? ==> Enumerates(r.order, s)
  }

  ghost function RoundStep(s: State, r: Round, serve: (Text, nat) -> Text): State
    requires Possible(s, r)
  {
    match r
    case NewConn => Arrive(s)
    case Turn(order, looks, recv) => Batch(s, Selected(Sources(s, order), LISTENER, looks), recv, serve)
  }

  /** What select reports is current, with no socket twice. */
  lemma SelectedCurrent(s: State, order: seq<nat>, looks: seq<View<nat>>, serve: (Text, nat) -> Text)
    requires Inv(s, serve) && Enumerates(order, s)
    ensures AllCurrent(s, Selected(Sources(s, order), LISTENER, looks))
  {
    var src := Sources(s, order);
    forall c: nat | c in s.conns ensures 1 <= c && s.conns[c].sock == c && s.conns[c].OneBit() {
      assert EntryInv(s, c, serve);
    }
    forall i | 0 <= i < |order| ensures src[i].sock == order[i] && src[i] == s.conns[order[i]] {
      assert order[i] in order;
    }
    assert src[|order|] == Reading(LISTENER);
    forall i, j | 0 <= i < j < |src| ensures src[i].sock != src[j].sock {
      assert i < |order|;
    }
    SelectedIsOneLook(src, LISTENER, looks);
    if Selected(src, LISTENER, looks) != [] {
      var v :| v in looks && Selected(src, LISTENER, looks) == Ready(src, LISTENER, v);
      ReadyDistinct(src, LISTENER, v);
      forall r | r in Ready(src, LISTENER, v) ensures Current(s, r) {
        ReadyFrom(src, LISTENER, v, r);
      }
    }
  }

  lemma RoundKeeps(s: State, r: Round, serve: (Text, nat) -> Text)
    requires Inv(s, serve) && Possible(s, r)
    ensures Inv(RoundStep(s, r, serve), serve)
  {
    match r
    case NewConn => ArriveKeeps(s, serve);
    case Turn(order, looks, recv) =>
      SelectedCurrent(s, order, looks, serve);
      BatchKeeps(s, Selected(Sources(s, order), LISTENER, looks), recv, serve);
  }

  ghost predicate Rounds(s: State, rs: seq<Round>, serve: (Text, nat) -> Text)
    decreases |rs|
  {
    rs != [] ==> Possible(s, rs[0]) && Rounds(RoundStep(s, rs[0], serve), rs[1..], serve)
  }

  ghost function AfterRounds(s: State, rs: seq<Round>, serve: (Text, nat) -> Text): State
    requires Rounds(s, rs, serve)
    decreases |rs|
  {
    if rs == [] then s else AfterRounds(RoundStep(s, rs[0], serve), rs[1..], serve)
  }

  lemma {:induction false} RoundsKeep(s: State, rs: seq<Round>, serve: (Text, nat) -> Text)
    requires Inv(s, serve) && Rounds(s, rs, serve)
    ensures Inv(AfterRounds(s, rs, serve), serve)
    decreases |rs|
  {
    if rs != [] {
      RoundKeeps(s, rs[0], serve);
      RoundsKeep(RoundStep(s, rs[0], serve), rs[1..], serve);
    }
  }

  // ---- what a round achieves

  /** Connection `c` has its entry, its reply and its counts in `s'` as in `s`. */
  ghost predicate Untouched(s: State, s': State, c: nat) {
    && c in s.conns && c in s'.conns && s'.conns[c] == s.conns[c]
    && (forall b :: s.conns[c].pointer == Some(b) && b in s.heap ==> b in s'.heap && s'.heap[b] == s.heap[b])
    && Tally(s'.log, Execution(c)) == Tally(s.log, Execution(c))
    && Tally(s'.log, Reply(c)) == Tally(s.log, Reply(c))
  }

  lemma VisitTallies(s: State, up: Poll<nat>, r: Recv, serve: (Text, nat) -> Text, c: nat)
    requires Inv(s, serve) && Current(s, up) && up.sock != c
    ensures var s' := Visit(s, up, r, serve);
            && Tally(s'.log, Execution(c)) == Tally(s.log, Execution(c))
            && Tally(s'.log, Reply(c)) == Tally(s.log, Reply(c))
  {
    if up.sock != LISTENER {
      assert EntryInv(s, up.sock, serve);
      if up.write {
        var b := up.pointer.value;
        TallyTwo(s.log, Sent(up.sock, b, s.heap[b]), Freed(b), Execution(c));
        TallyTwo(s.log, Sent(up.sock, b, s.heap[b]), Freed(b), Reply(c));
      } else if up.read && r.Data? {
        TallySnoc(s.log, Executed(up.sock, r.msg, s.clock), Execution(c));
        TallySnoc(s.log, Executed(up.sock, r.msg, s.clock), Reply(c));
      }
    }
  }

  lemma VisitSpares(s: State, up: Poll<nat>, r: Recv, serve: (Text, nat) -> Text, c: nat)
    requires Inv(s, serve) && Current(s, up) && up.sock != c && c in s.conns
    ensures Untouched(s, Visit(s, up, r, serve), c)
  {
    VisitTallies(s, up, r, serve, c);
    assert EntryInv(s, c, serve) && BufferInv(s, s.nextBuf);
    if up.sock != LISTENER {
      assert EntryInv(s, up.sock, serve);
    }
  }

  lemma VisitLogs(s: State, up: Poll<nat>, r: Recv, serve: (Text, nat) -> Text)
    ensures s.log <= Visit(s, up, r, serve).log
    ensures Visit(s, up, r, serve).waiting == s.waiting || Visit(s, up, r, serve).waiting == s.waiting[1..]
    ensures up.sock != LISTENER || !up.read ==> Visit(s, up, r, serve).waiting == s.waiting
  {
  }

  lemma BatchTail(s: State, ups: seq<Poll<nat>>, recv: nat -> Recv, serve: (Text, nat) -> Text)
    requires Inv(s, serve) && AllCurrent(s, ups) && ups != []
    ensures var s1 := Visit(s, ups[0], recv(ups[0].sock), serve);
            Inv(s1, serve) && AllCurrent(s1, ups[1..]) && Batch(s, ups, recv, serve) == Batch(s1, ups[1..], recv, serve)
  {
    var s1, rest := Visit(s, ups[0], recv(ups[0].sock), serve), ups[1..];
    VisitKeeps(s, ups[0], recv(ups[0].sock), serve);
    forall j | 0 <= j < |rest| ensures Current(s1, rest[j]) {
      VisitLeavesOthers(s, ups[0], recv(ups[0].sock), serve, rest[j]);
    }
  }

  /** A connection the ready list does not name keeps its entry. */
  lemma {:induction false} BatchSpares(s: State, ups: seq<Poll<nat>>, recv: nat -> Recv, serve: (Text, nat) -> Text,
                                       c: nat)
    requires Inv(s, serve) && AllCurrent(s, ups) && c in s.conns && forall up :: up in ups ==> up.sock != c
    ensures Untouched(s, Batch(s, ups, recv, serve), c) && s.log <= Batch(s, ups, recv, serve).log
    decreases |ups|
  {
    if ups != [] {
      var s1 := Visit(s, ups[0], recv(ups[0].sock), serve);
      BatchTail(s, ups, recv, serve);
      VisitSpares(s, ups[0], recv(ups[0].sock), serve, c);
      VisitLogs(s, ups[0], recv(ups[0].sock), serve);
      BatchSpares(s1, ups[1..], recv, serve, c);
    }
  }

  /** A connection that was closed is not opened again. */
  lemma {:induction false} BatchForgets(s: State, ups: seq<Poll<nat>>, recv: nat -> Recv, serve: (Text, nat) -> Text,
                                        c: nat)
    requires Inv(s, serve) && AllCurrent(s, ups) && c !in s.conns && c !in s.waiting && c != LISTENER
    ensures var s' := Batch(s, ups, recv, serve);
            && c !in s'.conns && s.log <= s'.log
            && Tally(s'.log, Execution(c)) == Tally(s.log, Execution(c))
            && Tally(s'.log, Reply(c)) == Tally(s.log, Reply(c))
    decreases |ups|
  {
    if ups != [] {
      BatchTail(s, ups, recv, serve);
      VisitTallies(s, ups[0], recv(ups[0].sock), serve, c);
      VisitLogs(s, ups[0], recv(ups[0].sock), serve);
      BatchForgets(Visit(s, ups[0], recv(ups[0].sock), serve), ups[1..], recv, serve, c);
    }
  }

  /** A request that was read has been executed: once, and its reply waits to be sent. */
  ghost predicate Served(s: State, s': State, c: nat, msg: Text, serve: (Text, nat) -> Text) {
    && Tally(s'.log, Execution(c)) == Tally(s.log, Execution(c)) + 1
    && exists b, at :: Executed(c, msg, at) in s'.log && b in s'.heap && s'.heap[b] == serve(msg, at)
                       && c in s'.conns && s'.conns[c] == Poll(c, false, true, false, Some(b))
  }

  /** A reply that could be sent has been: once, and its connection is closed. */
  ghost predicate Replied(s: State, s': State, c: nat, b: nat)
    requires b in s.heap
  {
    && Tally(s'.log, Reply(c)) == Tally(s.log, Reply(c)) + 1
    && Sent(c, b, s.heap[b]) in s'.log && c !in s'.conns
  }

  lemma ServedNow(s: State, ups: seq<Poll<nat>>, recv: nat -> Recv, serve: (Text, nat) -> Text, msg: Text)
    requires Inv(s, serve) && AllCurrent(s, ups) && ups != []
    requires ups[0].sock != LISTENER && ups[0].read && recv(ups[0].sock) == Data(msg)
    ensures Served(s, Batch(s, ups, recv, serve), ups[0].sock, msg, serve)
  {
    var c, x := ups[0].sock, Executed(ups[0].sock, msg, s.clock);
    var s1, s' := Visit(s, ups[0], recv(c), serve), Batch(s, ups, recv, serve);
    BatchTail(s, ups, recv, serve);
    TallySnoc(s.log, x, Execution(c));
    BatchSpares(s1, ups[1..], recv, serve, c);
    assert x in s1.log && x in s'.log;
    assert s'.conns[c] == Poll(c, false, true, false, Some(s.nextBuf)) && s'.heap[s.nextBuf] == serve(msg, s.clock);
  }

  lemma RepliedNow(s: State, ups: seq<Poll<nat>>, recv: nat -> Recv, serve: (Text, nat) -> Text)
    requires Inv(s, serve) && AllCurrent(s, ups) && ups != [] && ups[0].sock != LISTENER && ups[0].write
    ensures ups[0].pointer.Some? && ups[0].pointer.value in s.heap
    ensures Replied(s, Batch(s, ups, recv, serve), ups[0].sock, ups[0].pointer.value)
  {
    var c := ups[0].sock;
    assert EntryInv(s, c, serve);
    var b := ups[0].pointer.value;
    var s1 := Visit(s, ups[0], recv(c), serve);
    BatchTail(s, ups, recv, serve);
    TallyTwo(s.log, Sent(c, b, s.heap[b]), Freed(b), Reply(c));
    BatchForgets(s1, ups[1..], recv, serve, c);
    assert Sent(c, b, s.heap[b]) == s1.log[|s.log|];
  }

  /** What the ready list names is dealt with: every request read is executed, every reply that can
      be sent is sent, and a broken connection is closed. */
  lemma {:induction false} BatchServes(s: State, ups: seq<Poll<nat>>, recv: nat -> Recv, serve: (Text, nat) -> Text,
                                       up: Poll<nat>)
    requires Inv(s, serve) && AllCurrent(s, ups) && up in ups && up.sock != LISTENER
    ensures var s' := Batch(s, ups, recv, serve);
            && (up.read && recv(up.sock).Data? ==> Served(s, s', up.sock, recv(up.sock).msg, serve))
            && (up.write ==>
                  up.pointer.Some? && up.pointer.value in s.heap && Replied(s, s', up.sock, up.pointer.value))
            && (up.read && recv(up.sock).Failed? ==> up.sock !in s'.conns)
            && (up.error || (up.read && (recv(up.sock).Again? || recv(up.sock).Hangup?)) ==>
                  Untouched(s, s', up.sock))
    decreases |ups|
  {
    BatchTail(s, ups, recv, serve);
    var s1 := Visit(s, ups[0], recv(ups[0].sock), serve);
    if up == ups[0] {
      if up.read && recv(up.sock).Data? {
        ServedNow(s, ups, recv, serve, recv(up.sock).msg);
      } else if up.write {
        RepliedNow(s, ups, recv, serve);
      } else if up.read && recv(up.sock).Failed? {
        BatchForgets(s1, ups[1..], recv, serve, up.sock);
      } else {
        BatchSpares(s1, ups[1..], recv, serve, up.sock);
      }
    } else {
      assert exists j :: 1 <= j < |ups| && ups[j] == up;
      VisitSpares(s, ups[0], recv(ups[0].sock), serve, up.sock);
      VisitLogs(s, ups[0], recv(ups[0].sock), serve);
      assert up.write ==> EntryInv(s, up.sock, serve);
      BatchServes(s1, ups[1..], recv, serve, up);
    }
  }

  /** Unless the list names the listener for reading nobody is accepted. */
  lemma {:induction false} BatchWaits(s: State, ups: seq<Poll<nat>>, recv: nat -> Recv, serve: (Text, nat) -> Text)
    requires Inv(s, serve) && AllCurrent(s, ups) && forall up :: up in ups && up.sock == LISTENER ==> !up.read
    ensures Batch(s, ups, recv, serve).waiting == s.waiting
    decreases |ups|
  {
    if ups != [] {
      BatchTail(s, ups, recv, serve);
      VisitLogs(s, ups[0], recv(ups[0].sock), serve);
      BatchWaits(Visit(s, ups[0], recv(ups[0].sock), serve), ups[1..], recv, serve);
    }
  }

  /** When the listener is readable the connection that has waited longest is accepted, and it
      alone: from now on it is watched for reading. */
  lemma {:induction false} BatchAccepts(s: State, ups: seq<Poll<nat>>, recv: nat -> Recv, serve: (Text, nat) -> Text,
                                        up: Poll<nat>)
    requires Inv(s, serve) && AllCurrent(s, ups) && up in ups && up.sock == LISTENER && up.read && s.waiting != []
    ensures var s', c := Batch(s, ups, recv, serve), s.waiting[0];
            && c in s'.conns && s'.conns[c] == Poll(c, true, false, false, None) && s'.waiting == s.waiting[1..]
    decreases |ups|
  {
    var c := s.waiting[0];
    var s1 := Visit(s, ups[0], recv(ups[0].sock), serve);
    BatchTail(s, ups, recv, serve);
    assert c in s.waiting;
    if up == ups[0] {
      forall other | other in ups[1..] ensures other.sock != c && other.sock != LISTENER {
        var j :| 0 <= j < |ups[1..]| && ups[1..][j] == other;
        assert Current(s, ups[j + 1]);
      }
      BatchSpares(s1, ups[1..], recv, serve, c);
      BatchWaits(s1, ups[1..], recv, serve);
    } else {
      assert exists j :: 1 <= j < |ups| && ups[j] == up;
      VisitLogs(s, ups[0], recv(ups[0].sock), serve);
      BatchAccepts(s1, ups[1..], recv, serve, up);
    }
  }

  /** What the monitor watches: each connection by its entry, and the listener. */
  lemma SourcesAre(s: State, order: seq<nat>, serve: (Text, nat) -> Text, it: Poll<nat>)
    requires Inv(s, serve) && Enumerates(order, s)
    ensures it in Sources(s, order) <==>
            it == Reading(LISTENER) || (it.sock in s.conns && it == s.conns[it.sock])
  {
    var src := Sources(s, order);
    if it.sock in s.conns && it == s.conns[it.sock] {
      var i :| 0 <= i < |order| && order[i] == it.sock;
      assert src[i] == it;
    }
    assert src[|order|] == Reading(LISTENER);
    forall c: nat | c in s.conns ensures s.conns[c].sock == c {
      assert EntryInv(s, c, serve);
    }
    if it in src && it != Reading(LISTENER) {
      var i :| 0 <= i < |src| && src[i] == it;
      assert order[i] in order;
    }
  }

  /** Nothing has happened: nobody wants to connect, no socket is in error, and none has what the
      monitor waits for. */
  ghost predicate Quiet(s: State, v: View<nat>) {
    && LISTENER !in v.errors && !v.waiting
    && forall c :: c in s.conns ==> c !in v.errors && !(s.conns[c].read && c in v.readable)
                                    && !(s.conns[c].write && c in v.writable)
  }

  lemma LookFinds(s: State, order: seq<nat>, v: View<nat>, serve: (Text, nat) -> Text, c: nat)
    requires Inv(s, serve) && Enumerates(order, s) && c in s.conns
    ensures var found := Ready(Sources(s, order), LISTENER, v);
            && (c in v.errors ==> Poll(c, false, false, true, s.conns[c].pointer) in found)
            && (c !in v.errors && s.conns[c].read && c in v.readable ==> Reading(c) in found)
            && (c !in v.errors && s.conns[c].write && c in v.writable ==>
                  s.conns[c].pointer.Some? && Writing(c, s.conns[c].pointer.value) in found)
  {
    assert EntryInv(s, c, serve);
    SourcesAre(s, order, serve, s.conns[c]);
    ReadyComplete(Sources(s, order), LISTENER, v, s.conns[c]);
  }

  lemma ListenerFound(s: State, order: seq<nat>, v: View<nat>, serve: (Text, nat) -> Text)
    requires Inv(s, serve) && Enumerates(order, s)
    ensures var found := Ready(Sources(s, order), LISTENER, v);
            && (LISTENER in v.errors ==> Poll(LISTENER, false, false, true, None) in found)
            && (LISTENER !in v.errors && v.waiting ==> Reading(LISTENER) in found)
  {
    SourcesAre(s, order, serve, Reading(LISTENER));
    ReadyComplete(Sources(s, order), LISTENER, v, Reading(LISTENER));
  }

  /** What is found of a connection has happened to it, and is what its entry waits for or an error. */
  lemma FoundHappened(s: State, order: seq<nat>, v: View<nat>, serve: (Text, nat) -> Text, up: Poll<nat>)
    requires Inv(s, serve) && Enumerates(order, s) && up in Ready(Sources(s, order), LISTENER, v)
    ensures up.OneBit() && (up.error <==> up.sock in v.errors)
    ensures up.sock == LISTENER || up.sock in s.conns
    ensures up.sock == LISTENER ==> !up.write && (up.read ==> v.waiting)
    ensures up.sock in s.conns ==> (up.read ==> s.conns[up.sock].read && up.sock in v.readable)
                                   && (up.write ==> s.conns[up.sock].write && up.sock in v.writable)
  {
    ReadyHappened(Sources(s, order), LISTENER, v, up);
    ReadyFrom(Sources(s, order), LISTENER, v, up);
    var it :| it in Sources(s, order) && it.sock == up.sock && it.pointer == up.pointer
              && (up.read ==> it.read) && (up.write ==> it.write) && (up.error ==> it.sock in v.errors);
    SourcesAre(s, order, serve, it);
    assert EntryInv(s, LISTENER, serve);
  }

  /** A look finds nothing exactly when nothing has happened. */
  lemma QuietIsEmpty(s: State, order: seq<nat>, v: View<nat>, serve: (Text, nat) -> Text)
    requires Inv(s, serve) && Enumerates(order, s)
    ensures Quiet(s, v) <==> Ready(Sources(s, order), LISTENER, v) == []
  {
    var found := Ready(Sources(s, order), LISTENER, v);
    if found != [] {
      FoundHappened(s, order, v, serve, found[0]);
    } else {
      ListenerFound(s, order, v, serve);
      forall c: nat | c in s.conns
        ensures c !in v.errors && !(s.conns[c].read && c in v.readable) && !(s.conns[c].write && c in v.writable)
      {
        LookFinds(s, order, v, serve, c);
      }
    }
  }

  /** The look a turn acts on: the first at which something has happened. */
  ghost predicate Decides(s: State, looks: seq<View<nat>>, i: nat) {
    i < |looks| && !Quiet(s, looks[i]) && forall j :: 0 <= j < i ==> Quiet(s, looks[j])
  }

  lemma DecidesFound(s: State, order: seq<nat>, looks: seq<View<nat>>, serve: (Text, nat) -> Text, i: nat)
    requires Inv(s, serve) && Enumerates(order, s) && Decides(s, looks, i)
    ensures Selected(Sources(s, order), LISTENER, looks) == Ready(Sources(s, order), LISTENER, looks[i])
  {
    forall j: nat | j <= i ensures Quiet(s, looks[j]) <==> Ready(Sources(s, order), LISTENER, looks[j]) == [] {
      QuietIsEmpty(s, order, looks[j], serve);
    }
    SelectedIsFirst(Sources(s, order), LISTENER, looks, i);
  }

  /** What a turn of the monitor loop does for a connection, by the look it acts on: a request that can
      be read is executed, a reply that can be sent is sent, a broken connection is closed, and one
      to which nothing has happened, or an error, stays as it is. */
  lemma RoundServes(s: State, order: seq<nat>, looks: seq<View<nat>>, recv: nat -> Recv, serve: (Text, nat) -> Text,
                    i: nat, c: nat)
    requires Inv(s, serve) && Possible(s, Turn(order, looks, recv)) && Decides(s, looks, i) && c in s.conns
    ensures var s', v := RoundStep(s, Turn(order, looks, recv), serve), looks[i];
            var canRead := s.conns[c].read && c in v.readable && c !in v.errors;
            var canSend := s.conns[c].write && c in v.writable && c !in v.errors;
            && (canRead && recv(c).Data? ==> Served(s, s', c, recv(c).msg, serve))
            && (canRead && recv(c).Failed? ==> c !in s'.conns)
            && (canSend ==>
                  && s.conns[c].pointer.Some? && s.conns[c].pointer.value in s.heap
                  && Replied(s, s', c, s.conns[c].pointer.value))
            && (!canSend && !(canRead && (recv(c).Data? || recv(c).Failed?)) ==> Untouched(s, s', c))
  {
    var found, v := Selected(Sources(s, order), LISTENER, looks), looks[i];
    assert EntryInv(s, c, serve);
    SelectedCurrent(s, order, looks, serve);
    DecidesFound(s, order, looks, serve, i);
    LookFinds(s, order, v, serve, c);
    if up :| up in found && up.sock == c {
      FoundHappened(s, order, v, serve, up);
      FoundAlone(s, found, up);
      BatchServes(s, found, recv, serve, up);
    } else {
      BatchSpares(s, found, recv, serve, c);
    }
  }

  /** A turn in which nothing has happened at any look changes nothing. */
  lemma RoundRests(s: State, order: seq<nat>, looks: seq<View<nat>>, recv: nat -> Recv, serve: (Text, nat) -> Text)
    requires Inv(s, serve) && Possible(s, Turn(order, looks, recv)) && forall v :: v in looks ==> Quiet(s, v)
    ensures RoundStep(s, Turn(order, looks, recv), serve) == s
  {
    forall v | v in looks ensures Ready(Sources(s, order), LISTENER, v) == [] {
      QuietIsEmpty(s, order, v, serve);
    }
    SelectedIsOneLook(Sources(s, order), LISTENER, looks);
  }

  /** A current list names a socket once. */
  lemma FoundAlone(s: State, ups: seq<Poll<nat>>, up: Poll<nat>)
    requires AllCurrent(s, ups) && up in ups
    ensures forall other :: other in ups && other.sock == up.sock ==> other == up
  {
  }

  /** With a connection waiting and the listener not in error, the first that waits is taken in. */
  lemma RoundAccepts(s: State, order: seq<nat>, looks: seq<View<nat>>, recv: nat -> Recv, serve: (Text, nat) -> Text,
                     i: nat)
    requires Inv(s, serve) && Possible(s, Turn(order, looks, recv)) && Decides(s, looks, i) && s.waiting != []
    ensures var s', v := RoundStep(s, Turn(order, looks, recv), serve), looks[i];
            if v.waiting && LISTENER !in v.errors then
              var c := s.waiting[0];
              c in s'.conns && s'.conns[c] == Reading(c) && s'.waiting == s.waiting[1..]
            else s'.waiting == s.waiting
  {
    var found, v := Selected(Sources(s, order), LISTENER, looks), looks[i];
    SelectedCurrent(s, order, looks, serve);
    DecidesFound(s, order, looks, serve, i);
    ListenerFound(s, order, v, serve);
    if v.waiting && LISTENER !in v.errors {
      BatchAccepts(s, found, recv, serve, Reading(LISTENER));
    } else {
      forall up | up in found && up.sock == LISTENER ensures !up.read {
        FoundHappened(s, order, v, serve, up);
      }
      BatchWaits(s, found, recv, serve);
    }
  }

  /** Over every run of the monitor loop a connection has at most one request executed and
      gets at most one reply, made from its own request; every reply buffer is owned by one
      entry while it lives and freed at most once, right after it was sent. */
  lemma ConnectionProtocol(rs: seq<Round>, serve: (Text, nat) -> Text, c: nat, b: nat)
    requires Rounds(START, rs, serve)
    ensures var s := AfterRounds(START, rs, serve);
            && Tally(s.log, Reply(c)) <= Tally(s.log, Execution(c)) <= 1
            && (forall a :: a in s.log && a.Sent? ==> Answers(s.log, a.conn, a.reply, serve))
            && Tally(s.log, Release(b)) <= 1
            && (forall i :: 0 <= i < |s.log| && s.log[i].Freed? ==>
                  i >= 1 && s.log[i - 1].Sent? && s.log[i - 1].buf == s.log[i].buf)
            && (b in s.heap ==> Tally(s.log, Release(b)) == 0
                                && exists d :: d in s.conns && s.conns[d] == Writing(d, b)
                                               && forall e :: e in s.conns && s.conns[e].pointer == Some(b) ==> e == d)
  {
    StartInv(serve);
    RoundsKeep(START, rs, serve);
    var s := AfterRounds(START, rs, serve);
    assert CountInv(s, c) && BufferInv(s, b);
    if b in s.heap {
      var d :| d in s.conns && s.conns[d].pointer == Some(b);
      assert EntryInv(s, d, serve);
    }
  }

  // ---- the loop itself

  class Monitor {
    var conns: map<nat, Poll<nat>>
    var waiting: seq<nat>
    var nextConn: nat
    var heap: map<nat, Text>
    var nextBuf: nat
    ghost var clock: nat
    ghost var log: seq<Act>

    ghost function Abs(): State
      reads this
    {
      State(conns, waiting, nextConn, heap, nextBuf, clock, log)
    }

    constructor ()
      ensures Abs() == START
    {
      conns, waiting, nextConn, heap, nextBuf := map[], [], 1, map[], 0;
      clock, log := 0, [];
    }

    method Accept()
      modifies this
      ensures Abs() == AcceptOne(old(Abs()))
    {
      if waiting != [] {
        var c := waiting[0];
        conns, waiting := conns[c := Reading(c)], waiting[1..];
      }
    }

    method Write(up: Poll<nat>)
      requires up.pointer.Some?
      modifies this
      ensures Abs() == Answer(old(Abs()), up.sock, up.pointer.value)
    {
      var b := up.pointer.value;
      var reply := if b in heap then heap[b] else [];
      log := log + [Sent(up.sock, b, reply)];
      heap := heap - {b};
      log := log + [Freed(b)];
      conns := conns - {up.sock};
      assert log == old(log) + [Sent(up.sock, b, reply), Freed(b)];
    }

    /** `reply` is what the scheduler answers to the request at this moment. */
    method Read(up: Poll<nat>, r: Recv, reply: Text, ghost serve: (Text, nat) -> Text)
      requires r.Data? ==> reply == serve(r.msg, clock)
      modifies this
      ensures Abs() == match r
                       case Failed => Drop(old(Abs()), up.sock)
                       case Data(msg) => Execute(old(Abs()), up.sock, msg, serve)
                       case _ => old(Abs())
    {
      match r
      case Failed => conns := conns - {up.sock};
      case Data(msg) =>
        var b := nextBuf;
        nextBuf := nextBuf + 1;
        heap := heap[b := reply];
        conns := conns[up.sock := Writing(up.sock, b)];
        log := log + [Executed(up.sock, msg, clock)];
        clock := clock + 1;
      case _ =>
    }

    /** The loop over the ready list. */
    method RunBatch(ups: seq<Poll<nat>>, recv: nat -> Recv, serve: (Text, nat) -> Text, start: nat)
      requires start == clock && AllCurrent(Abs(), ups) && Inv(Abs(), serve)
      modifies this
      ensures Abs() == Batch(old(Abs()), ups, recv, serve) && Inv(Abs(), serve)
    {
      var now := start;
      for i := 0 to |ups|
        invariant now == clock && AllCurrent(Abs(), ups[i..]) && Inv(Abs(), serve)
        invariant Batch(Abs(), ups[i..], recv, serve) == Batch(old(Abs()), ups, recv, serve)
      {
        var up, r := ups[i], recv(ups[i].sock);
        ghost var s := Abs();
        BatchStep(s, ups, i, recv, serve);
        if up.sock == LISTENER {
          if up.read {
            Accept();
          }
        } else if up.write {
          Write(up);
        } else if up.read {
          var reply := if r.Data? then serve(r.msg, now) else [];
          Read(up, r, reply, serve);
          if r.Data? {
            now := now + 1;
          }
        }
      }
      assert ups[|ups|..] == [];
    }
  }

  lemma BatchStep(s: State, ups: seq<Poll<nat>>, i: nat, recv: nat -> Recv, serve: (Text, nat) -> Text)
    requires Inv(s, serve) && i < |ups| && AllCurrent(s, ups[i..])
    ensures Current(s, ups[i])
    ensures var s1 := Visit(s, ups[i], recv(ups[i].sock), serve);
            && Inv(s1, serve) && AllCurrent(s1, ups[i + 1..])
            && Batch(s, ups[i..], recv, serve) == Batch(s1, ups[i + 1..], recv, serve)
            && (ups[i].sock != LISTENER && ups[i].write ==> ups[i].pointer.Some?)
  {
    var rest := ups[i..];
    assert rest[0] == ups[i] && rest[1..] == ups[i + 1..];
    VisitKeeps(s, ups[i], recv(ups[i].sock), serve);
    assert ups[i].sock != LISTENER ==> EntryInv(s, ups[i].sock, serve);
    var s1, later := Visit(s, ups[i], recv(ups[i].sock), serve), ups[i + 1..];
    forall j | 0 <= j < |later| ensures Current(s1, later[j]) {
      assert later[j] == rest[j + 1];
      VisitLeavesOthers(s, ups[i], recv(ups[i].sock), serve, rest[j + 1]);
    }
  }
}
