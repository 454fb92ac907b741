/** The transfer object: its descriptor map, the connections waiting to be accepted and
    the sockets waiting to be destroyed. */
module Transfer {
  import opened JobQueue
  import opened Polling

  datatype Status = CONNECTING | ACCEPTED | CONNECTED | CLOSED | ERROR

  const EWOULDBLOCK := 11

  class UTcpSocket {
    var sock: int
    var status: Status
    var needRead: bool
    var needWrite: bool
    var addr: Text
    var reason: int

    constructor ()
      ensures sock == -1 && status == CLOSED && !needRead && !needWrite
    {
      sock, status, needRead, needWrite, addr, reason := -1, CLOSED, false, false, [], 0;
    }

    /** `nonBlocking` says whether the descriptor could be made so, `err` is the system's error.
        The address is kept only then. */
    method Bind(fd: int, remote: Text, nonBlocking: bool, err: int) returns (code: int)
      modifies this`sock, this`addr
      ensures sock == fd && code == (if nonBlocking then 0 else err)
      ensures addr == if nonBlocking then remote else old(addr)
    {
      sock := fd;
      if nonBlocking {
        addr := remote;
        return 0;
      }
      code := err;
    }

    /** The descriptor given back to the system, or -1. */
    method Close() returns (fd: int)
      modifies this`sock, this`status
      ensures old(sock) >= 0 ==> fd == old(sock) && sock == -1 && status == CLOSED
      ensures old(sock) < 0 ==> fd == -1 && sock == old(sock) && status == old(status)
    {
      fd := -1;
      if sock >= 0 {
        fd := sock;
        status := CLOSED;
        sock := -1;
      }
    }

    /** A receive that returned `size`, with the system's error `err` if that is negative. The
        reason of a failure is kept for the caller. */
    method Recv(size: int, err: int) returns (r: int)
      modifies this`status, this`reason
      ensures r == if old(status) == ERROR then -1 else size
      ensures status == (if old(status) == ERROR || (size < 0 && err == EWOULDBLOCK) || size > 0 then old(status)
                         else if size < 0 then ERROR else CLOSED)
      ensures reason == if old(status) != ERROR && size < 0 then err else old(reason)
    {
      if status == ERROR {
        return -1;
      }
      if size < 0 {
        reason := err;
        if err != EWOULDBLOCK {
          status := ERROR;
        }
      } else if size == 0 {
        status := CLOSED;
      }
      r := size;
    }
  }

  /** The same descriptors belong to the same sockets. */
  ghost predicate SameSockets(a: map<int, UTcpSocket>, b: map<int, UTcpSocket>) {
    (forall fd :: fd in a <==> fd in b) && forall fd :: fd in a ==> a[fd] == b[fd]
  }

  /** No entry between `i` and `n` watches the socket of entry `i` again. */
  ghost predicate LastOf(src: seq<Poll<UTcpSocket>>, i: nat, n: nat)
    requires i < n <= |src|
  {
    forall j :: i < j < n ==> src[j].sock != src[i].sock
  }

  class ETransfer {
    const listener: UTcpSocket
    var tcpMap: map<int, UTcpSocket>
    var acceptList: seq<UTcpSocket>
    var destroyList: seq<UTcpSocket>
    /** The descriptors the system has given out and not taken back. */
    ghost var fds: set<int>
    /** Every socket ever bound, in order of arrival, and how many were handed out. */
    ghost var arrivals: seq<UTcpSocket>
    ghost var handed: nat

    ghost predicate Valid()
      reads this, arrivals
    {
      && listener !in arrivals && (forall fd :: fd in fds ==> fd >= 0)
      && (forall i, j :: 0 <= i < j < |arrivals| ==> arrivals[i] != arrivals[j])
      && (forall fd :: fd in tcpMap ==> fd >= 0 && fd in fds && tcpMap[fd] in arrivals && tcpMap[fd].sock == fd)
      && (forall u :: u in arrivals ==> u.sock == -1 || (u.sock in tcpMap && tcpMap[u.sock] == u))
      && handed <= |arrivals| && acceptList == arrivals[handed..]
      && (forall u :: u in acceptList ==> u.sock >= 0)
      && (forall u :: u in destroyList ==> u in arrivals[..handed])
    }

    constructor ()
      ensures Valid() && tcpMap == map[] && acceptList == [] && destroyList == [] && arrivals == [] && fresh(listener)
    {
      listener := new UTcpSocket();
      tcpMap, acceptList, destroyList := map[], [], [];
      fds, arrivals, handed := {}, [], 0;
    }

    /** proc_tcp_listen_sock: the system's accept returned `fd`, a descriptor not in use, or failed. */
    method ListenReady(fd: int, remote: Text, nonBlocking: bool, err: int) returns (u: UTcpSocket?)
      requires Valid() && (fd >= 0 ==> fd !in fds)
      modifies this
      ensures Valid() && handed == old(handed) && destroyList == old(destroyList)
      ensures fd < 0 ==> u == null && tcpMap == old(tcpMap) && arrivals == old(arrivals) && fds == old(fds)
      ensures fd >= 0 ==> u != null && fresh(u) && u.sock == fd && (nonBlocking ==> u.addr == remote)
                          && tcpMap == old(tcpMap)[fd := u] && arrivals == old(arrivals) + [u] && fds == old(fds) + {fd}
    {
      u := null;
      if fd >= 0 {
        var s := new UTcpSocket();
        var _ := s.Bind(fd, remote, nonBlocking, err);
        assert forall v :: v in arrivals ==> v != s;
        tcpMap := tcpMap[fd := s];
        acceptList := acceptList + [s];
        fds, arrivals := fds + {fd}, arrivals + [s];
        u := s;
        assert arrivals[..handed] == old(arrivals)[..handed];
      }
    }

    /** accept: hand out the connection that has waited longest. `asked` is the socket the
        caller names; null stands for the listener. */
    method Accept(asked: UTcpSocket?) returns (u: UTcpSocket?)
      requires Valid()
      modifies this`acceptList, this`handed, acceptList`status
      ensures forall v :: v in old(acceptList) && v != u ==> v.status == old(v.status)
      ensures Valid() && tcpMap == old(tcpMap) && arrivals == old(arrivals) && destroyList == old(destroyList)
      ensures fds == old(fds)
      ensures (asked == null || asked == listener) && old(handed) < |arrivals|
              ==> u == arrivals[old(handed)] && handed == old(handed) + 1
                  && u.status == CONNECTED && u.sock in tcpMap && tcpMap[u.sock] == u
      ensures !((asked == null || asked == listener) && old(handed) < |arrivals|)
              ==> u == null && handed == old(handed)
    {
      u := null;
      if (asked == null || asked == listener) && acceptList != [] {
        u := acceptList[0];
        u.status := CONNECTED;
        acceptList := acceptList[1..];
        handed := handed + 1;
        assert arrivals[..handed] == arrivals[..old(handed)] + [u];
      }
    }

    /** destroy_socket: callers destroy only sockets handed out to them. */
    method DestroySocket(u: UTcpSocket)
      requires Valid() && u in arrivals[..handed]
      modifies this`destroyList, u`status
      ensures Valid() && destroyList == old(destroyList) + [u] && u.status == CLOSED
    {
      u.status := CLOSED;
      destroyList := destroyList + [u];
    }

    /** One turn of do_destroy_sockets: erase the socket's descriptor, then close it. */
    method DestroyOne(u: UTcpSocket)
      requires Valid() && u in arrivals[..handed]
      modifies this`tcpMap, this`fds, u`sock, u`status
      ensures Valid() && u.sock == -1
      ensures u.status == if old(u.sock) >= 0 then CLOSED else old(u.status)
      ensures old(u.sock) >= 0 ==> old(u.sock) in old(tcpMap) && old(tcpMap)[old(u.sock)] == u
      ensures tcpMap == old(tcpMap) - {old(u.sock)} && fds == old(fds) - {old(u.sock)}
      ensures old(u.sock) < 0 ==> tcpMap == old(tcpMap)
    {
      tcpMap := tcpMap - {u.sock};
      ghost var was := u.sock;
      var fd := u.Close();
      fds := fds - {was};
    }

    /** Closed, from a socket that had descriptor `sock` and status `status`. */
    ghost predicate Destroyed(u: UTcpSocket, sock: int, status: Status)
      reads u
    {
      u.sock == -1 && u.status == if sock >= 0 then CLOSED else status
    }

    /** do_destroy_sockets: erase and close every listed socket. The list is not cleared. */
    method DoDestroySockets()
      requires Valid()
      modifies this`tcpMap, this`fds, destroyList`sock, destroyList`status
      ensures Valid()
      ensures forall u :: u in destroyList ==> u.sock == -1
      ensures forall u :: u in destroyList ==> u.status == if old(u.sock) >= 0 then CLOSED else old(u.status)
      ensures forall fd :: fd in tcpMap <==> fd in old(tcpMap) && old(tcpMap)[fd] !in destroyList
      ensures forall fd :: fd in tcpMap ==> tcpMap[fd] == old(tcpMap)[fd]
      ensures forall fd :: fd in fds <==> fd in old(fds) && (fd in old(tcpMap) ==> old(tcpMap)[fd] !in destroyList)
    {
      var i := 0;
      ghost var gone: set<int> := {};
      while i < |destroyList|
        invariant 0 <= i <= |destroyList| && Valid()
        invariant tcpMap == old(tcpMap) - gone && fds == old(fds) - gone
        invariant forall fd :: fd in gone ==> fd == -1 || (fd in old(tcpMap) && old(tcpMap)[fd] in destroyList)
        invariant forall u :: u in destroyList[..i] ==> Destroyed(u, old(u.sock), old(u.status))
        invariant forall u :: u in destroyList ==> (u.sock == old(u.sock) && u.status == old(u.status))
                                                   || Destroyed(u, old(u.sock), old(u.status))
      {
        var u := destroyList[i];
        assert destroyList[..i + 1] == destroyList[..i] + [u];
        gone := gone + {u.sock};
        DestroyOne(u);
        i := i + 1;
      }
      assert destroyList[..i] == destroyList;
      forall fd | fd in tcpMap ensures tcpMap[fd] !in destroyList {
        assert tcpMap[fd].sock == fd >= 0;
      }
    }

    /** Destroying again changes nothing, and a connection that meanwhile got a closed
        descriptor keeps it. */
    method DestroyAgain(fd: int, remote: Text) returns (u: UTcpSocket?)
      requires Valid() && (fd >= 0 ==> fd !in fds)
      requires forall v :: v in destroyList ==> v.sock == -1
      modifies this, destroyList
      ensures Valid()
      ensures fd >= 0 ==> u != null && SameSockets(tcpMap, old(tcpMap)[fd := u])
      ensures fd < 0 ==> SameSockets(tcpMap, old(tcpMap))
    {
      u := ListenReady(fd, remote, true, 0);
      ghost var before := tcpMap;
      forall k | k in before ensures before[k] !in destroyList {
        assert before[k].sock == k >= 0;
      }
      DoDestroySockets();
      assert SameSockets(tcpMap, before);
    }

    /** The look at one entry: an error hides everything else. */
    method LookAt(it: Poll<UTcpSocket>, v: View<UTcpSocket>) returns (one: seq<Poll<UTcpSocket>>)
      ensures one == ReadyOne(it, listener, v)
    {
      one := [];
      if it.sock in v.errors {
        one := [Poll(it.sock, false, false, true, it.pointer)];
      } else {
        if it.write && it.sock in v.writable {
          one := [Poll(it.sock, false, true, false, it.pointer)];
        }
        if it.read {
          var canRead := if it.sock == listener then v.waiting else it.sock in v.readable;
          if canRead {
            one := one + [Poll(it.sock, true, false, false, it.pointer)];
          }
        }
      }
    }

    /** has_available_sockets. */
    method HasAvailable(src: seq<Poll<UTcpSocket>>, v: View<UTcpSocket>) returns (dst: seq<Poll<UTcpSocket>>)
      ensures dst == Ready(src, listener, v)
    {
      dst := [];
      ghost var all, rest := Ready(src, listener, v), Ready(src, listener, v);
      assert src[0..] == src;
      for i := 0 to |src|
        invariant rest == Ready(src[i..], listener, v) && dst + rest == all
      {
        var one := LookAt(src[i], v);
        ReadyStep(src, listener, v, i);
        rest := Ready(src[i + 1..], listener, v);
        assert (dst + one) + rest == dst + (one + rest);
        dst := dst + one;
      }
      assert rest == [];
    }

    /** The flags for the waiting thread. */
    method SetInterest(src: seq<Poll<UTcpSocket>>)
      modifies (set it | it in src :: it.sock)`needRead, (set it | it in src :: it.sock)`needWrite
      ensures forall i :: 0 <= i < |src| && LastOf(src, i, |src|) ==>
                            src[i].sock.needRead == src[i].read && src[i].sock.needWrite == src[i].write
    {
      for i := 0 to |src|
        invariant forall k :: 0 <= k < i && LastOf(src, k, i) ==>
                                src[k].sock.needRead == src[k].read && src[k].sock.needWrite == src[k].write
      {
        src[i].sock.needRead := src[i].read;
        src[i].sock.needWrite := src[i].write;
      }
    }

    /** select: one look, then the flags for the waiting thread, then up to two more looks. */
    method Select(src: seq<Poll<UTcpSocket>>, v0: View<UTcpSocket>, v1: View<UTcpSocket>, v2: View<UTcpSocket>)
        returns (dst: seq<Poll<UTcpSocket>>)
      modifies (set it | it in src :: it.sock)`needRead, (set it | it in src :: it.sock)`needWrite
      ensures dst == Selected(src, listener, [v0, v1, v2])
      ensures Ready(src, listener, v0) != [] ==>
                forall it :: it in src ==> it.sock.needRead == old(it.sock.needRead)
                                           && it.sock.needWrite == old(it.sock.needWrite)
      ensures Ready(src, listener, v0) == [] ==>
                forall i :: 0 <= i < |src| && LastOf(src, i, |src|) ==>
                              src[i].sock.needRead == src[i].read && src[i].sock.needWrite == src[i].write
    {
      dst := HasAvailable(src, v0);
      SelectedThree(src, listener, v0, v1, v2);
      if dst != [] {
        return;
      }
      SetInterest(src);
      dst := HasAvailable(src, v1);
      if dst == [] {
        dst := HasAvailable(src, v2);
      }
    }
  }
}
