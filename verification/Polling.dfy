/** Readiness polling: which of the watched sockets have something to do. */
module Polling {
  import opened Wrappers

  /** One entry of a poll list. The three flags are the bits of its event mask. */
  datatype Poll<S> = Poll(sock: S, read: bool, write: bool, error: bool, pointer: Option<nat>) {
    predicate OneBit() {
      (read && !write && !error) || (!read && write && !error) || (!read && !write && error)
    }
  }

  /** What one look at the sockets finds: those in error, readable, writable, and whether a
      connection is waiting to be accepted. */
  datatype View<!S(==)> = View(errors: set<S>, readable: set<S>, writable: set<S>, waiting: bool)

  function ReadyOne<S(==)>(it: Poll<S>, listener: S, v: View<S>): seq<Poll<S>> {
    if it.sock in v.errors then [Poll(it.sock, false, false, true, it.pointer)]
    else
      (if it.write && it.sock in v.writable then [Poll(it.sock, false, true, false, it.pointer)] else [])
      + (if it.read && (if it.sock == listener then v.waiting else it.sock in v.readable)
         then [Poll(it.sock, true, false, false, it.pointer)] else [])
  }

  /** has_available_sockets, as a list. */
  function Ready<S(==)>(src: seq<Poll<S>>, listener: S, v: View<S>): seq<Poll<S>> {
    if src == [] then [] else ReadyOne(src[0], listener, v) + Ready(src[1..], listener, v)
  }

  ghost predicate DistinctSocks<S>(ps: seq<Poll<S>>) {
    forall i, j :: 0 <= i < j < |ps| ==> ps[i].sock != ps[j].sock
  }

  /** Every result comes from a watched entry, keeps its pointer, and carries one event bit
      the entry asked for, or the error bit. */
  lemma {:induction false} ReadyFrom<S>(src: seq<Poll<S>>, listener: S, v: View<S>, r: Poll<S>)
    requires r in Ready(src, listener, v)
    ensures r.OneBit()
    ensures exists it :: it in src && it.sock == r.sock && it.pointer == r.pointer
                         && (r.read ==> it.read) && (r.write ==> it.write) && (r.error ==> it.sock in v.errors)
  {
    if r in ReadyOne(src[0], listener, v) {
      assert src[0] in src;
    } else {
      ReadyFrom(src[1..], listener, v, r);
      var it :| it in src[1..] && it.sock == r.sock && it.pointer == r.pointer
                && (r.read ==> it.read) && (r.write ==> it.write) && (r.error ==> it.sock in v.errors);
      assert it in src;
    }
  }

  /** If no socket is watched twice and each entry asks for one event, no socket is
      reported twice. */
  lemma {:induction false} ReadyDistinct<S>(src: seq<Poll<S>>, listener: S, v: View<S>)
    requires DistinctSocks(src) && forall it :: it in src ==> it.OneBit()
    ensures DistinctSocks(Ready(src, listener, v))
  {
    if src != [] {
      var first, rest := ReadyOne(src[0], listener, v), Ready(src[1..], listener, v);
      assert src[0] in src;
      assert |first| <= 1;
      ReadyDistinct(src[1..], listener, v);
      forall j | 0 <= j < |rest| ensures rest[j].sock != src[0].sock {
        ReadyFrom(src[1..], listener, v, rest[j]);
      }
      assert Ready(src, listener, v) == first + rest;
    }
  }

  /** What is reported has happened: a read result has data, or a connection waiting if it is the
      listener's; a write result can be written to; neither is in error, an error result is. */
  lemma {:induction false} ReadyHappened<S>(src: seq<Poll<S>>, listener: S, v: View<S>, r: Poll<S>)
    requires r in Ready(src, listener, v)
    ensures r.read ==> r.sock !in v.errors && if r.sock == listener then v.waiting else r.sock in v.readable
    ensures r.write ==> r.sock !in v.errors && r.sock in v.writable
    ensures r.error <==> r.sock in v.errors
  {
    if r !in ReadyOne(src[0], listener, v) {
      ReadyHappened(src[1..], listener, v, r);
    }
  }

  /** What has happened to a watched socket is reported: an error alone, otherwise what the entry
      asks for. */
  lemma {:induction false} ReadyComplete<S>(src: seq<Poll<S>>, listener: S, v: View<S>, it: Poll<S>)
    requires it in src
    ensures it.sock in v.errors ==> Poll(it.sock, false, false, true, it.pointer) in Ready(src, listener, v)
    ensures it.sock !in v.errors && it.write && it.sock in v.writable
            ==> Poll(it.sock, false, true, false, it.pointer) in Ready(src, listener, v)
    ensures it.sock !in v.errors && it.read && (if it.sock == listener then v.waiting else it.sock in v.readable)
            ==> Poll(it.sock, true, false, false, it.pointer) in Ready(src, listener, v)
  {
    if it != src[0] {
      ReadyComplete(src[1..], listener, v, it);
    }
  }

  /** select: at most three looks, ending with the first that finds something. */
  function Selected<S(==)>(src: seq<Poll<S>>, listener: S, looks: seq<View<S>>): seq<Poll<S>> {
    if looks == [] then []
    else if Ready(src, listener, looks[0]) != [] then Ready(src, listener, looks[0])
    else Selected(src, listener, looks[1..])
  }

  lemma ReadyStep<S>(src: seq<Poll<S>>, listener: S, v: View<S>, i: nat)
    requires i < |src|
    ensures Ready(src[i..], listener, v) == ReadyOne(src[i], listener, v) + Ready(src[i + 1..], listener, v)
  {
    assert src[i..][1..] == src[i + 1..];
  }

  lemma SelectedThree<S>(src: seq<Poll<S>>, listener: S, v0: View<S>, v1: View<S>, v2: View<S>)
    ensures Selected(src, listener, [v0, v1, v2]) ==
            if Ready(src, listener, v0) != [] then Ready(src, listener, v0)
            else if Ready(src, listener, v1) != [] then Ready(src, listener, v1)
            else Ready(src, listener, v2)
  {
    assert [v0, v1, v2][1..] == [v1, v2] && [v1, v2][1..] == [v2] && [v2][1..] == [];
    assert Selected(src, listener, [v2]) == Ready(src, listener, v2);
    assert Selected(src, listener, [v1, v2]) ==
           if Ready(src, listener, v1) != [] then Ready(src, listener, v1) else Ready(src, listener, v2);
  }

  /** What select returns is the result of the first look that finds something, and of that one
      alone. */
  lemma {:induction false} SelectedIsFirst<S>(src: seq<Poll<S>>, listener: S, looks: seq<View<S>>, i: nat)
    requires i < |looks| && Ready(src, listener, looks[i]) != []
    requires forall j :: 0 <= j < i ==> Ready(src, listener, looks[j]) == []
    ensures Selected(src, listener, looks) == Ready(src, listener, looks[i])
  {
    if i > 0 {
      SelectedIsFirst(src, listener, looks[1..], i - 1);
    }
  }

  /** What select returns is the result of a single look, never a mixture of two. */
  lemma {:induction false} SelectedIsOneLook<S>(src: seq<Poll<S>>, listener: S, looks: seq<View<S>>)
    ensures Selected(src, listener, looks) == [] <==> forall v :: v in looks ==> Ready(src, listener, v) == []
    ensures Selected(src, listener, looks) != [] ==>
              exists v :: v in looks && Selected(src, listener, looks) == Ready(src, listener, v)
  {
    if looks != [] {
      SelectedIsOneLook(src, listener, looks[1..]);
      assert looks[0] in looks;
      assert forall v :: v in looks[1..] ==> v in looks;
      assert forall v :: v in looks ==> v == looks[0] || v in looks[1..];
    }
  }
}
