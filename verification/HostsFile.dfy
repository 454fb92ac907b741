/** The scanner of the hosts file: `<host>name</host>` entries between separators,
    with a byte budget that only the entries are charged to. */
module HostsFile {
  import opened JobQueue
  import opened Wrappers

  // "<host>" and "</host>"
  const OPEN_TAG: Text := [60, 104, 111, 115, 116, 62]
  const CLOSE_TAG: Text := [60, 47, 104, 111, 115, 116, 62]
  const NAME_SIZE := 64

  /** The two tags the scan looks for. */
  datatype Tags = Tags(open: Text, close: Text) {
    const cost: nat := |open| + |close|

    /** Each tag begins with a byte that does not come again inside it. */
    predicate Valid() {
      HeadOnce(open) && HeadOnce(close)
    }
  }

  const HOST_TAGS := Tags(OPEN_TAG, CLOSE_TAG)

  predicate Occurs(pat: Text, b: Text, i: int) {
    0 <= i && i + |pat| <= |b| && b[i..i + |pat|] == pat
  }

  predicate FreeOf(pat: Text, b: Text) {
    forall i :: 0 <= i < |b| ==> !Occurs(pat, b, i)
  }

  ghost predicate First(pat: Text, b: Text, p: nat, r: nat) {
    p <= r && Occurs(pat, b, r) && forall i :: p <= i < r ==> !Occurs(pat, b, i)
  }

  lemma {:induction false} FirstExists(pat: Text, b: Text, p: nat, i: nat) returns (r: nat)
    requires p <= i && Occurs(pat, b, i)
    ensures First(pat, b, p, r)
    decreases i - p
  {
    if Occurs(pat, b, p) {
      r := p;
    } else {
      r := FirstExists(pat, b, p + 1, i);
    }
  }

  /** strstr: the first occurrence of `pat` from position `p` on. */
  ghost function Find(pat: Text, b: Text, p: nat): (r: Option<nat>)
    ensures r.Some? ==> First(pat, b, p, r.value)
  {
    if exists r: nat :: First(pat, b, p, r) then (var r: nat :| First(pat, b, p, r); Some(r)) else None
  }

  /** Where the next name from `p` on begins and ends. */
  ghost function NextEntry(g: Tags, b: Text, p: nat): (r: Option<(nat, nat)>)
    ensures r.Some? ==> r.value.0 <= r.value.1 && r.value.1 + |g.close| <= |b|
  {
    match Find(g.open, b, p)
    case None => None
    case Some(o) =>
      match Find(g.close, b, o + |g.open|)
      case None => None
      case Some(p2) => Some((o + |g.open|, p2))
  }

  /** The names the scan finds from `p` on while its budget allows. */
  ghost function Scan(g: Tags, b: Text, p: nat, budget: int): seq<Text>
    requires p <= |b| && g.Valid()
    decreases budget
  {
    if budget <= g.cost || NextEntry(g, b, p).None? then []
    else
      var (p1, p2) := NextEntry(g, b, p).value;
      [b[p1..p2]] + Scan(g, b, p2 + |g.close|, budget - (p2 - p1 + g.cost))
  }

  datatype Entry = Entry(sep: Text, name: Text)

  function Print(g: Tags, es: seq<Entry>): Text {
    if es == [] then [] else es[0].sep + g.open + es[0].name + g.close + Print(g, es[1..])
  }

  function Names(es: seq<Entry>): (ns: seq<Text>)
    ensures |ns| == |es|
  {
    if es == [] then [] else [es[0].name] + Names(es[1..])
  }

  predicate TagFree(g: Tags, es: seq<Entry>) {
    forall e :: e in es ==> FreeOf(g.open, e.sep) && FreeOf(g.close, e.name)
  }

  /** The pattern begins with a byte that does not come again inside it. */
  predicate HeadOnce(pat: Text) {
    pat != [] && forall i :: 0 < i < |pat| ==> pat[i] != pat[0]
  }

  lemma FindIs(pat: Text, b: Text, p: nat, r: Option<nat>)
    requires r.Some? ==> First(pat, b, p, r.value)
    requires r.None? ==> forall i :: p <= i <= |b| ==> !Occurs(pat, b, i)
    ensures Find(pat, b, p) == r
  {
    if r.Some? {
      assert First(pat, b, p, r.value);
    }
  }

  lemma Straddles(pat: Text, b: Text, i: nat, k: nat)
    requires HeadOnce(pat) && Occurs(pat, b, i) && Occurs(pat, b, k) && i <= k
    ensures i == k || i + |pat| <= k
  {
    assert forall x :: i <= x < i + |pat| ==> b[x] == b[i..i + |pat|][x - i];
    assert b[k] == b[k..k + |pat|][0];
  }

  lemma OccursInside(pat: Text, b: Text, p: nat, gap: Text, i: nat)
    requires p + |gap| <= |b| && b[p..p + |gap|] == gap && p <= i
    ensures Occurs(pat, b, i) && i + |pat| <= p + |gap| ==> Occurs(pat, gap, i - p)
  {
    if Occurs(pat, b, i) && i + |pat| <= p + |gap| {
      Inner(b[..p + |gap|], p, i - p, i - p + |pat|);
      assert b[..p + |gap|][p..] == gap && b[..p + |gap|][i..i + |pat|] == b[i..i + |pat|];
    }
  }

  /** A pattern behind text free of it is found just there: it cannot straddle the border. */
  lemma FindsAtBorder(pat: Text, b: Text, p: nat, gap: Text)
    requires HeadOnce(pat) && FreeOf(pat, gap)
    requires p + |gap| + |pat| <= |b| && b[p..p + |gap|] == gap && Occurs(pat, b, p + |gap|)
    ensures Find(pat, b, p) == Some(p + |gap|)
  {
    forall i | p <= i < p + |gap| ensures !Occurs(pat, b, i) {
      OccursInside(pat, b, p, gap, i);
      if Occurs(pat, b, i) {
        Straddles(pat, b, i, p + |gap|);
      }
    }
    FindIs(pat, b, p, Some(p + |gap|));
  }

  lemma FindsNone(pat: Text, b: Text, p: nat)
    requires p <= |b| && pat != [] && FreeOf(pat, b[p..])
    ensures Find(pat, b, p) == None
  {
    forall i | p <= i < |b| ensures !Occurs(pat, b, i) {
      if Occurs(pat, b, i) {
        assert b[p..][i - p..i - p + |pat|] == b[i..i + |pat|];
        assert Occurs(pat, b[p..], i - p);
      }
    }
    FindIs(pat, b, p, None);
  }

  /** The constants 6, 7 and 13 of the loop are the lengths of these two tags. */
  lemma HostTagsValid()
    ensures HOST_TAGS.Valid() && HOST_TAGS.cost == 13
  {
  }

  /** The budget will run out just before the last entry: nothing but its two tags is left. */
  predicate Starved(es: seq<Entry>, extra: nat) {
    es != [] && extra == 0 && es[|es| - 1].name == [] && forall e :: e in es ==> e.sep == []
  }

  lemma Parts(x: Text, o: Text, n: Text, c: Text, rest: Text)
    ensures var t := x + o + n + c + rest;
            && t[..|x|] == x && t[|x|..|x| + |o|] == o && t[|x| + |o|..|x| + |o| + |n|] == n
            && t[|x| + |o| + |n|..|x| + |o| + |n| + |c|] == c && t[|x| + |o| + |n| + |c|..] == rest
  {
  }

  lemma Inner(b: Text, p: nat, i: nat, j: nat)
    requires p <= |b| && i <= j <= |b| - p
    ensures b[p..][i..j] == b[p + i..p + j] && b[p..][j..] == b[p + j..]
  {
  }

  /** Where the parts of an entry at `p` lie. */
  lemma EntryParts(b: Text, p: nat, x: Text, o: Text, n: Text, c: Text, rest: Text)
    requires p <= |b| && b[p..] == x + o + n + c + rest
    ensures var i := p + |x|; var j := i + |o|; var k := j + |n|;
            && k + |c| <= |b| && b[p..i] == x && b[i..j] == o && b[j..k] == n && b[k..k + |c|] == c
            && b[k + |c|..] == rest
  {
    Parts(x, o, n, c, rest);
    Inner(b, p, 0, |x|);
    Inner(b, p, |x|, |x| + |o|);
    Inner(b, p, |x| + |o|, |x| + |o| + |n|);
    Inner(b, p, |x| + |o| + |n|, |x| + |o| + |n| + |c|);
  }

  lemma EntryFound(g: Tags, b: Text, p: nat, e: Entry, rest: Text)
    requires g.Valid() && p <= |b| && b[p..] == e.sep + g.open + e.name + g.close + rest
    requires FreeOf(g.open, e.sep) && FreeOf(g.close, e.name)
    ensures Find(g.open, b, p) == Some(p + |e.sep|)
    ensures var p1 := p + |e.sep| + |g.open|;
            && Find(g.close, b, p1) == Some(p1 + |e.name|)
            && p1 + |e.name| + |g.close| <= |b| && b[p1..p1 + |e.name|] == e.name
            && b[p1 + |e.name| + |g.close|..] == rest
  {
    EntryParts(b, p, e.sep, g.open, e.name, g.close, rest);
    var p1 := p + |e.sep| + |g.open|;
    assert Occurs(g.open, b, p + |e.sep|) && Occurs(g.close, b, p1 + |e.name|);
    FindsAtBorder(g.open, b, p, e.sep);
    FindsAtBorder(g.close, b, p1, e.name);
  }

  /** One turn of the scan: an entry found, the budget charged, on behind the entry. */
  lemma ScanStep(g: Tags, b: Text, p: nat, budget: int, p1: nat, p2: nat, p': nat, budget': int)
    requires g.Valid() && p <= |b| && budget > g.cost && NextEntry(g, b, p) == Some((p1, p2))
    requires p' == p2 + |g.close| && budget' == budget - (p2 - p1 + g.cost)
    ensures p1 <= p2 && p' <= |b|
    ensures Scan(g, b, p, budget) == [b[p1..p2]] + Scan(g, b, p', budget')
  {
  }

  /** One turn of the scan over a printed entry, if the budget lasts. */
  lemma ScanEntry(g: Tags, b: Text, p: nat, e: Entry, rest: Text, budget: int) returns (p': nat, budget': int)
    requires g.Valid() && p <= |b| && b[p..] == e.sep + g.open + e.name + g.close + rest
    requires FreeOf(g.open, e.sep) && FreeOf(g.close, e.name) && budget > g.cost
    ensures p' <= |b| && b[p'..] == rest && budget' == budget - (|e.name| + g.cost)
    ensures Scan(g, b, p, budget) == [e.name] + Scan(g, b, p', budget')
  {
    EntryFound(g, b, p, e, rest);
    var p1 := p + |e.sep| + |g.open|;
    assert NextEntry(g, b, p) == Some((p1, p1 + |e.name|));
    p', budget' := p1 + |e.name| + |g.close|, budget - (|e.name| + g.cost);
    ScanStep(g, b, p, budget, p1, p1 + |e.name|, p', budget');
  }

  lemma ScanEnd(g: Tags, b: Text, p: nat, budget: int)
    requires g.Valid() && p <= |b| && FreeOf(g.open, b[p..])
    ensures Scan(g, b, p, budget) == []
  {
    FindsNone(g.open, b, p);
  }

  function Expected(es: seq<Entry>, extra: nat): seq<Text> {
    if Starved(es, extra) then Names(es)[..|es| - 1] else Names(es)
  }

  lemma ExpectedStep(es: seq<Entry>, extra: nat)
    requires es != [] && !(|es| == 1 && Starved(es, extra))
    ensures Expected(es, extra) == [es[0].name] + Expected(es[1..], extra + |es[0].sep|)
  {
    StarvedStep(es, extra);
    assert Names(es) == [es[0].name] + Names(es[1..]);
  }

  lemma PrintSplit(g: Tags, es: seq<Entry>, tail: Text)
    requires es != []
    ensures Print(g, es) + tail == es[0].sep + g.open + es[0].name + g.close + (Print(g, es[1..]) + tail)
    ensures |Print(g, es)| == |es[0].sep| + |es[0].name| + g.cost + |Print(g, es[1..])|
    ensures |es| >= 2 ==> |Print(g, es[1..])| >= g.cost
  {
    PrintLength(g, es[1..]);
  }

  /** Only the last entry, bare of name and separators, can meet an exhausted budget. */
  lemma LastStarved(g: Tags, es: seq<Entry>, extra: nat)
    requires g.Valid() && es != []
    ensures |Print(g, es)| + extra <= g.cost <==> |es| == 1 && Starved(es, extra)
  {
    PrintSplit(g, es, []);
    if |es| == 1 {
      assert es[1..] == [];
      assert forall e :: e in es ==> e == es[0];
    }
  }

  /** One turn of the scan over a printed list. */
  lemma ScanHead(g: Tags, b: Text, p: nat, es: seq<Entry>, tail: Text, budget: int) returns (p': nat, budget': int)
    requires g.Valid() && p <= |b| && b[p..] == Print(g, es) + tail && TagFree(g, es)
    requires es != [] && budget > g.cost
    ensures p' <= |b| && b[p'..] == Print(g, es[1..]) + tail && TagFree(g, es[1..])
    ensures budget' == budget - |Print(g, es)| + |es[0].sep| + |Print(g, es[1..])|
    ensures Scan(g, b, p, budget) == [es[0].name] + Scan(g, b, p', budget')
  {
    PrintSplit(g, es, tail);
    p', budget' := ScanEntry(g, b, p, es[0], Print(g, es[1..]) + tail, budget);
  }

  /** From any point of a printed list with `extra` bytes of budget to spare, the scan
      returns the remaining names, all of them unless it is starved of the last. */
  lemma {:induction false} ScanPrinted(g: Tags, b: Text, p: nat, es: seq<Entry>, tail: Text, extra: nat, budget: int)
    requires g.Valid() && p <= |b| && b[p..] == Print(g, es) + tail && TagFree(g, es) && FreeOf(g.open, tail)
    requires budget == |Print(g, es)| + extra
    ensures Scan(g, b, p, budget) == Expected(es, extra)
    decreases |es|
  {
    if es == [] {
      assert b[p..] == tail;
      ScanEnd(g, b, p, budget);
    } else {
      LastStarved(g, es, extra);
      if |es| > 1 || !Starved(es, extra) {
        var p', budget' := ScanHead(g, b, p, es, tail, budget);
        ScanPrinted(g, b, p', es[1..], tail, extra + |es[0].sep|, budget');
        ExpectedStep(es, extra);
      }
    }
  }

  lemma PrintLength(g: Tags, es: seq<Entry>)
    ensures es != [] ==> |Print(g, es)| >= g.cost
  {
  }

  lemma StarvedStep(es: seq<Entry>, extra: nat)
    requires |es| >= 1
    ensures |es| >= 2 ==> (Starved(es, extra) <==> Starved(es[1..], extra + |es[0].sep|))
  {
    if |es| >= 2 {
      assert es == [es[0]] + es[1..];
      assert es[1..][|es| - 2] == es[|es| - 1];
    }
  }

  /** Scanning what was read returns exactly the printed names, in order, if and only if the
      last name or some separator, the text behind the last entry included, is not empty.
      `unread` is what the buffer holds behind the bytes read. */
  lemma ParserInvertsPrinter(es: seq<Entry>, end: Text, unread: Text)
    requires TagFree(HOST_TAGS, es) && FreeOf(OPEN_TAG, end + unread)
    ensures HOST_TAGS.Valid()
    ensures var text := Print(HOST_TAGS, es) + end;
            Scan(HOST_TAGS, text + unread, 0, |text|) == Names(es)
            <==> es == [] || es[|es| - 1].name != [] || end != [] || exists e :: e in es && e.sep != []
  {
    HostTagsValid();
    InvertsPrinter(HOST_TAGS, es, end, unread);
  }

  lemma InvertsPrinter(g: Tags, es: seq<Entry>, end: Text, unread: Text)
    requires g.Valid() && TagFree(g, es) && FreeOf(g.open, end + unread)
    ensures Scan(g, Print(g, es) + end + unread, 0, |Print(g, es) + end|) == Names(es) <==> !Starved(es, |end|)
  {
    var b := Print(g, es) + end + unread;
    assert b[0..] == Print(g, es) + (end + unread);
    ScanPrinted(g, b, 0, es, end + unread, |end|, |Print(g, es) + end|);
    assert Starved(es, |end|) ==> |Expected(es, |end|)| < |Names(es)|;
  }

  /** Every entry is charged at least its 13 bytes of tags, so the loop ends. */
  lemma {:induction false} ScanBound(g: Tags, b: Text, p: nat, budget: int)
    requires p <= |b| && g.Valid() && g.cost == 13
    ensures 13 * |Scan(g, b, p, budget)| <= if budget < 0 then 0 else budget
    decreases budget
  {
    if budget > g.cost && NextEntry(g, b, p).Some? {
      var (p1, p2) := NextEntry(g, b, p).value;
      ScanBound(g, b, p2 + |g.close|, budget - (p2 - p1 + g.cost));
    }
  }

  /** strstr as a loop. */
  method StrStr(b: Text, p: nat, pat: Text) returns (r: Option<nat>)
    requires p <= |b| && pat != []
    ensures r == Find(pat, b, p)
  {
    var i := p;
    while i + |pat| <= |b|
      invariant p <= i
      invariant forall j :: p <= j < i ==> !Occurs(pat, b, j)
    {
      if b[i..i + |pat|] == pat {
        FindIs(pat, b, p, Some(i));
        return Some(i);
      }
      i := i + 1;
    }
    FindIs(pat, b, p, None);
    r := None;
  }

  /** The two searches of one turn of the loop. */
  method FindEntry(g: Tags, b: Text, p: nat) returns (e: Option<(nat, nat)>)
    requires g.Valid() && p <= |b|
    ensures e == NextEntry(g, b, p)
  {
    e := None;
    var o := StrStr(b, p, g.open);
    if o.Some? {
      var p2 := StrStr(b, o.value + |g.open|, g.close);
      if p2.Some? {
        e := Some((o.value + |g.open|, p2.value));
      }
    }
  }

  predicate Fits(names: seq<Text>, slots: nat) {
    |names| < slots && forall n :: n in names ==> |n| < NAME_SIZE
  }

  /** memcpy of one name into its slot of both arrays. */
  method PutName(hosts: array<Text>, ips: array<Text>, i: nat, name: Text)
    requires hosts != ips && 1 <= i < hosts.Length == ips.Length
    modifies hosts, ips
    ensures hosts[1..i + 1] == old(hosts[1..i]) + [name]
    ensures ips[1..i + 1] == old(ips[1..i]) + [name]
  {
    hosts[i], ips[i] := name, name;
    assert hosts[1..i + 1] == hosts[1..i] + [name];
    assert ips[1..i + 1] == ips[1..i] + [name];
  }

  /** The scanning loop, filling `hosts` and `ips` from index 1. The result is the number
      of hosts, or None when an entry does not fit the arrays. */
  method ScanInto(g: Tags, b: Text, read: nat, hosts: array<Text>, ips: array<Text>) returns (n: Option<nat>)
    requires g.Valid() && hosts != ips && hosts.Length == ips.Length == MAX_NUM_HOSTS + 1
    modifies hosts, ips
    ensures n.Some? <==> Fits(Scan(g, b, 0, read), MAX_NUM_HOSTS + 1)
    ensures n.Some? ==> n.value + 1 <= hosts.Length
                        && hosts[1..n.value + 1] == ips[1..n.value + 1] == Scan(g, b, 0, read)
  {
    var budget: int := read;
    var i: nat, p: nat := 1, 0;
    ghost var all, done, rest := Scan(g, b, 0, read), [], Scan(g, b, 0, read);
    while budget > g.cost
      invariant 1 <= i <= hosts.Length && p <= |b|
      invariant rest == Scan(g, b, p, budget) && all == done + rest
      invariant hosts[1..i] == ips[1..i] == done && forall n :: n in done ==> |n| < NAME_SIZE
      decreases budget
    {
      var e := FindEntry(g, b, p);
      if e.None? {
        break;
      }
      var name := b[e.value.0..e.value.1];
      var next, left := e.value.1 + |g.close|, budget - (|name| + g.cost);
      rest := NextName(g, b, p, budget, e.value.0, e.value.1, next, left, all, done, hosts.Length);
      p, budget := next, left;
      if i == hosts.Length || |name| >= NAME_SIZE {
        return None;
      }
      PutName(hosts, ips, i, name);
      done := done + [name];
      i := i + 1;
    }
    assert rest == [];
    assert all == done;
    n := Some(i - 1);
  }

  /** The name just found belongs to the result; without room for it the result does not fit. */
  lemma NextName(g: Tags, b: Text, p: nat, budget: int, p1: nat, p2: nat, p': nat, budget': int,
                 all: seq<Text>, done: seq<Text>, slots: nat)
      returns (rest: seq<Text>)
    requires p' == p2 + |g.close| && budget' == budget - (p2 - p1 + g.cost)
    requires g.Valid() && p <= |b| && budget > g.cost && NextEntry(g, b, p) == Some((p1, p2))
    requires all == done + Scan(g, b, p, budget)
    ensures p1 <= p2 && p' <= |b| && rest == Scan(g, b, p', budget')
    ensures all == (done + [b[p1..p2]]) + rest
    ensures |done| + 1 >= slots || |b[p1..p2]| >= NAME_SIZE ==> !Fits(all, slots)
  {
    rest := Scan(g, b, p', budget');
    ScanStep(g, b, p, budget, p1, p2, p', budget');
    assert all[|done|] == b[p1..p2];
  }

  /** read_host_config_file. */
  method ReadHosts(b: Text, read: nat, hosts: array<Text>, ips: array<Text>) returns (n: Option<nat>)
    requires hosts != ips && hosts.Length == ips.Length == MAX_NUM_HOSTS + 1
    modifies hosts, ips
    ensures HOST_TAGS.Valid()
    ensures n.Some? <==> Fits(Scan(HOST_TAGS, b, 0, read), MAX_NUM_HOSTS + 1)
    ensures n.Some? ==> n.value + 1 <= hosts.Length
                        && hosts[1..n.value + 1] == ips[1..n.value + 1] == Scan(HOST_TAGS, b, 0, read)
  {
    HostTagsValid();
    n := ScanInto(HOST_TAGS, b, read, hosts, ips);
  }
}
