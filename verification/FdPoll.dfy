/**
fd interest in ev.c with the poll backend of ev_poll.c: per-fd watcher lists, the batch of changed
fds, and the polls / pollidxs pair of arrays that fd_reify brings up to date.
*/
module FdPoll {
  import opened Common

  const EV_READ: bv8 := 0x01
  const EV_WRITE: bv8 := 0x02
  const EV__IOFDSET: bv8 := 0x80
  const EV_ANFD_REIFY: bv8 := 0x01
  const POLLIN: bv8 := 0x01
  const POLLOUT: bv8 := 0x04

  function Or(a: bv8, b: bv8): bv8 { a | b }

  /** The poll events for an event mask. */
  function PollMask(events: bv8): bv8 {
    Or(if events & EV_READ != 0 then POLLIN else 0, if events & EV_WRITE != 0 then POLLOUT else 0)
  }

  class IoWatcher {
    const fd: nat
    var events: bv8
    var active: nat

    constructor (fd: nat, events: bv8)
      ensures this.fd == fd && this.events == Or(events, EV__IOFDSET) && active == 0
    {
      this.fd := fd;
      this.events := Or(events, EV__IOFDSET);
      active := 0;
    }
  }

  /** Only the events a watcher may ask for. */
  predicate Plain(events: bv8) { events & !(EV_READ | EV_WRITE) == 0 }

  /** The combined mask of a watcher list. */
  function Combined(head: seq<IoWatcher>): bv8
    reads (set w | w in head)`events
  {
    if head == [] then 0 else Or(Combined(head[..|head| - 1]), head[|head| - 1].events)
  }

  /** A bit is in the combined mask exactly when some watcher of the list has it. */
  lemma {:induction false} CombinedMeans(head: seq<IoWatcher>, bit: bv8)
    ensures Combined(head) & bit != 0 <==> exists i :: 0 <= i < |head| && head[i].events & bit != 0
  {
    if head != [] {
      var n := |head| - 1;
      CombinedMeans(head[..n], bit);
      OrBits(Combined(head[..n]), head[n].events, bit);
      assert forall i :: 0 <= i < n ==> head[..n][i] == head[i];
    }
  }

  lemma OrBits(a: bv8, b: bv8, bit: bv8)
    ensures Or(a, b) & bit != 0 <==> a & bit != 0 || b & bit != 0
  {
  }

  lemma {:induction false} CombinedPlain(head: seq<IoWatcher>)
    requires forall w :: w in head ==> Plain(w.events)
    ensures Plain(Combined(head))
  {
    if head != [] { CombinedPlain(head[..|head| - 1]); }
  }

  datatype Anfd = Anfd(head: seq<IoWatcher>, events: bv8, reify: bv8)

  datatype PollFd = PollFd(fd: nat, events: bv8)

  /** What the arrays say about an fd. */
  function Lookup(polls: seq<PollFd>, pollidxs: seq<int>, fd: nat): Option<bv8> {
    if fd < |pollidxs| && 0 <= pollidxs[fd] < |polls| then Some(polls[pollidxs[fd]].events) else None
  }

  /** polls and pollidxs are mutually inverse. */
  ghost predicate Inverse(polls: seq<PollFd>, pollidxs: seq<int>) {
    && (forall i :: 0 <= i < |polls| ==> polls[i].fd < |pollidxs| && pollidxs[polls[i].fd] == i)
    && (forall fd :: 0 <= fd < |pollidxs| && pollidxs[fd] >= 0 ==> pollidxs[fd] < |polls| && polls[pollidxs[fd]].fd == fd)
  }

  /** The watchers in the list of fd are active watchers of that fd, each listed once. */
  ghost predicate HeadOk(head: seq<IoWatcher>, fd: nat)
    reads (set w | w in head)`active, (set w | w in head)`events
  {
    (forall w :: w in head ==> w.fd == fd && w.active == 1 && Plain(w.events)) && NoDup(head)
  }

  /** Recorded interest is up to date unless the fd is marked as changed. */
  ghost predicate AnfdOk(a: Anfd, fd: nat)
    reads (set w | w in a.head)`active, (set w | w in a.head)`events
  {
    HeadOk(a.head, fd) && (a.reify == 0 ==> a.events == Combined(a.head))
  }

  ghost predicate AllOk(anfds: seq<Anfd>)
    reads (set fd, w | 0 <= fd < |anfds| && w in anfds[fd].head :: w)`active
    reads (set fd, w | 0 <= fd < |anfds| && w in anfds[fd].head :: w)`events
  {
    forall fd :: 0 <= fd < |anfds| ==> AnfdOk(anfds[fd], fd)
  }

  ghost predicate OthersOk(anfds: seq<Anfd>, except: nat)
    reads (set fd, w | 0 <= fd < |anfds| && fd != except && w in anfds[fd].head :: w)`active
    reads (set fd, w | 0 <= fd < |anfds| && fd != except && w in anfds[fd].head :: w)`events
  {
    forall fd :: 0 <= fd < |anfds| && fd != except ==> AnfdOk(anfds[fd], fd)
  }

  /** Lists hold watchers of ws only. */
  ghost predicate Members(anfds: seq<Anfd>, ws: set<IoWatcher>) {
    forall fd, w :: 0 <= fd < |anfds| && w in anfds[fd].head ==> w in ws
  }

  /** Every active watcher is in the list of its fd. */
  ghost predicate Listed(anfds: seq<Anfd>, ws: set<IoWatcher>)
    reads ws`active
  {
    forall w :: w in ws && w.active != 0 ==> w.fd < |anfds| && w in anfds[w.fd].head
  }

  /** The changed fds are listed exactly when their reify flag is set, without duplicates. */
  ghost predicate ChangesOk(anfds: seq<Anfd>, fdchanges: seq<nat>) {
    && (forall i :: 0 <= i < |fdchanges| ==> fdchanges[i] < |anfds| && anfds[fdchanges[i]].reify != 0)
    && NoDup(fdchanges)
    && (forall fd :: 0 <= fd < |anfds| && anfds[fd].reify != 0 ==> fd in fdchanges)
  }

  /** The watcher list of an fd. */
  function Head(anfds: seq<Anfd>, fd: nat): seq<IoWatcher> {
    if fd < |anfds| then anfds[fd].head else []
  }

  /** Recorded interest in an fd. */
  function Recorded(anfds: seq<Anfd>, fd: nat): bv8 {
    if fd < |anfds| then anfds[fd].events else 0
  }

  function Polled(events: bv8): Option<bv8> {
    if events != 0 then Some(PollMask(events)) else None
  }

  /** The backend's arrays hold exactly the fds with recorded interest, with that interest. */
  ghost predicate BackendOk(anfds: seq<Anfd>, polls: seq<PollFd>, pollidxs: seq<int>) {
    && Inverse(polls, pollidxs)
    && forall fd: nat :: Lookup(polls, pollidxs, fd) == Polled(Recorded(anfds, fd))
  }

  lemma BackendKept(anfds: seq<Anfd>, after: seq<Anfd>, polls: seq<PollFd>, pollidxs: seq<int>)
    requires BackendOk(anfds, polls, pollidxs)
    requires forall fd: nat :: Recorded(after, fd) == Recorded(anfds, fd)
    ensures BackendOk(after, polls, pollidxs)
  {
  }

  lemma MarkedOk(a: Anfd, fd: nat)
    requires HeadOk(a.head, fd) && a.reify != 0
    ensures AnfdOk(a, fd)
  {
  }

  lemma MarkedAllOk(anfds: seq<Anfd>, after: seq<Anfd>, fd: nat)
    requires |after| == |anfds| && fd < |anfds|
    requires OthersOk(anfds, fd) && forall f :: 0 <= f < |anfds| && f != fd ==> after[f] == anfds[f]
    requires HeadOk(after[fd].head, fd) && after[fd].reify != 0
    ensures AllOk(after)
  {
    MarkedOk(after[fd], fd);
    hide AnfdOk, HeadOk;
  }

  lemma OthersAreOk(anfds: seq<Anfd>, fd: nat)
    requires AllOk(anfds)
    ensures OthersOk(anfds, fd) && (fd < |anfds| ==> HeadOk(anfds[fd].head, fd))
  {
  }

  lemma HeadsAreOk(anfds: seq<Anfd>)
    requires AllOk(anfds)
    ensures forall fd :: 0 <= fd < |anfds| ==> HeadOk(anfds[fd].head, fd)
  {
  }

  lemma InactiveUnlisted(anfds: seq<Anfd>, w: IoWatcher)
    requires AllOk(anfds) && w.active == 0
    ensures forall fd :: 0 <= fd < |anfds| ==> w !in anfds[fd].head
  {
  }

  /** Linking w at the front of its fd's list, which is marked as changed. */
  lemma LinkedOk(anfds: seq<Anfd>, after: seq<Anfd>, w: IoWatcher)
    requires |after| == |anfds| && w.fd < |anfds| && w.active == 1 && Plain(w.events)
    requires HeadOk(anfds[w.fd].head, w.fd) && w !in anfds[w.fd].head
    requires OthersOk(anfds, w.fd) && forall fd :: 0 <= fd < |anfds| && fd != w.fd ==> after[fd] == anfds[fd]
    requires after[w.fd].head == [w] + anfds[w.fd].head && after[w.fd].reify != 0
    ensures AllOk(after)
  {
    HeadPrepended(anfds[w.fd].head, w, w.fd);
    MarkedAllOk(anfds, after, w.fd);
  }

  /** The lists still hold exactly the active watchers once w is linked. */
  lemma LinkedLists(anfds: seq<Anfd>, after: seq<Anfd>, w: IoWatcher, ws: set<IoWatcher>)
    requires w in ws && |after| == |anfds| && w.fd < |anfds|
    requires Members(anfds, ws) && Listed(anfds, ws - {w})
    requires forall fd :: 0 <= fd < |anfds| && fd != w.fd ==> after[fd] == anfds[fd]
    requires after[w.fd].head == [w] + anfds[w.fd].head && after[w.fd].events == anfds[w.fd].events
    ensures Members(after, ws) && Listed(after, ws)
    ensures forall fd: nat :: Recorded(after, fd) == Recorded(anfds, fd)
  {
  }

  lemma ListedSome(anfds: seq<Anfd>, some: set<IoWatcher>, ws: set<IoWatcher>)
    requires Listed(anfds, ws) && some <= ws
    ensures Listed(anfds, some)
  {
  }

  lemma ChangesKept(anfds: seq<Anfd>, after: seq<Anfd>, fdchanges: seq<nat>)
    requires ChangesOk(anfds, fdchanges) && |after| == |anfds|
    requires forall fd :: 0 <= fd < |anfds| ==> after[fd].reify == anfds[fd].reify
    ensures ChangesOk(after, fdchanges)
  {
  }

  lemma ListedElsewhere(anfds: seq<Anfd>, w: IoWatcher)
    requires AllOk(anfds)
    ensures forall fd :: 0 <= fd < |anfds| && fd != w.fd ==> w !in anfds[fd].head
  {
  }

  /** rest has the members of head other than w. */
  ghost predicate Without(head: seq<IoWatcher>, rest: seq<IoWatcher>, w: IoWatcher) {
    && (forall v :: v in rest ==> v in head && v != w)
    && (forall v :: v in head && v != w ==> v in rest)
  }

  lemma UnlinkedOk(head: seq<IoWatcher>, rest: seq<IoWatcher>, w: IoWatcher, fd: nat)
    requires HeadOk(head, fd) && NoDup(rest) && Without(head, rest, w)
    ensures HeadOk(rest, fd) && w !in rest
  {
  }

  lemma UnlinkedLists(anfds: seq<Anfd>, after: seq<Anfd>, w: IoWatcher, ws: set<IoWatcher>)
    requires w in ws && w.active == 0 && |after| == |anfds| && w.fd < |anfds|
    requires Members(anfds, ws) && Listed(anfds, ws - {w})
    requires forall fd :: 0 <= fd < |anfds| && fd != w.fd ==> after[fd] == anfds[fd]
    requires Without(anfds[w.fd].head, after[w.fd].head, w) && after[w.fd].events == anfds[w.fd].events
    ensures Members(after, ws) && Listed(after, ws)
    ensures forall fd: nat :: Recorded(after, fd) == Recorded(anfds, fd)
  {
  }

  lemma HeadsSame(anfds: seq<Anfd>, after: seq<Anfd>, ws: set<IoWatcher>)
    requires Members(anfds, ws) && Listed(anfds, ws) && |after| == |anfds|
    requires forall fd :: 0 <= fd < |anfds| ==> after[fd].head == anfds[fd].head
    ensures Members(after, ws) && Listed(after, ws)
  {
  }

  lemma AllUpToDate(anfds: seq<Anfd>)
    requires AllOk(anfds) && forall fd :: 0 <= fd < |anfds| ==> anfds[fd].reify == 0
    ensures forall fd :: 0 <= fd < |anfds| ==> anfds[fd].events == Combined(anfds[fd].head)
  {
  }

  lemma EmptyOk(ws: set<IoWatcher>)
    requires forall w :: w in ws ==> w.active == 0
    ensures ChangesOk([], []) && Members([], ws) && AllOk([]) && Listed([], ws) && BackendOk([], [], [])
  {
    hide AnfdOk, HeadOk, Plain, Or, Combined, PollMask;
    assert forall fd: nat :: Recorded([], fd) == 0;
  }

  predicate Legal(events: bv8) { events & !(EV__IOFDSET | EV_READ | EV_WRITE) == 0 }

  function Cleared(events: bv8): (r: bv8)
    requires Legal(events)
    ensures Plain(r)
  {
    events & !EV__IOFDSET
  }

  /** The two events stay as they are, and the flag goes. */
  lemma ClearedMeans(events: bv8)
    requires Legal(events)
    ensures Cleared(events) & EV_READ != 0 <==> events & EV_READ != 0
    ensures Cleared(events) & EV_WRITE != 0 <==> events & EV_WRITE != 0
    ensures Cleared(events) & EV__IOFDSET == 0
  {
  }

  function StartFlags(events: bv8): (r: bv8)
    ensures r != 0
  {
    Or(events & EV__IOFDSET, EV_ANFD_REIFY)
  }

  lemma HeadPrepended(head: seq<IoWatcher>, w: IoWatcher, fd: nat)
    requires HeadOk(head, fd) && w !in head && w.fd == fd && w.active == 1 && Plain(w.events)
    ensures HeadOk([w] + head, fd)
  {
  }

  class Fds {
    var anfds: seq<Anfd>
    var fdchanges: seq<nat>
    var polls: seq<PollFd>
    var pollidxs: seq<int>

    ghost predicate Valid(ws: set<IoWatcher>)
      reads this, ws`active, ws`events
    {
      && ChangesOk(anfds, fdchanges) && Members(anfds, ws) && AllOk(anfds) && Listed(anfds, ws)
      && BackendOk(anfds, polls, pollidxs)
    }

    constructor (ghost ws: set<IoWatcher>)
      requires forall w :: w in ws ==> w.active == 0
      ensures Valid(ws)
    {
      anfds, fdchanges, polls, pollidxs := [], [], [], [];
      new;
      hide ChangesOk, Members, AllOk, Listed, BackendOk, Plain, PollMask, Or, Combined, HeadOk, AnfdOk, Inverse, Lookup;
      EmptyOk(ws);
    }

    /** poll_modify: allocate, change or remove an entry; removal moves the last entry into the hole. */
    method PollModify(fd: nat, oev: bv8, nev: bv8)
      requires Inverse(polls, pollidxs)
      requires Lookup(polls, pollidxs, fd) == if oev == 0 then None else Some(PollMask(oev))
      modifies this`polls, this`pollidxs
      ensures Inverse(polls, pollidxs)
      ensures Lookup(polls, pollidxs, fd) == if nev == 0 then None else Some(PollMask(nev))
      ensures forall f: nat :: f != fd ==> Lookup(polls, pollidxs, f) == Lookup(old(polls), old(pollidxs), f)
    {
      hide PollMask;
      if oev == nev { return; }
      if fd + 1 > |pollidxs| {
        pollidxs := pollidxs + seq(fd + 1 - |pollidxs|, _ => -1);
      }
      var idx := pollidxs[fd];
      if idx < 0 {
        idx := |polls|;
        pollidxs := pollidxs[fd := idx];
        polls := polls + [PollFd(fd, 0)];
      }
      assert polls[idx].fd == fd;
      if nev != 0 {
        polls := polls[idx := PollFd(fd, PollMask(nev))];
      } else {
        RemovePollFd(fd, idx);
      }
    }

    /** poll_modify's removal: the last entry moves into the hole. */
    method RemovePollFd(fd: nat, idx: nat)
      requires Inverse(polls, pollidxs) && fd < |pollidxs| && pollidxs[fd] == idx
      modifies this`polls, this`pollidxs
      ensures Inverse(polls, pollidxs) && |pollidxs| == |old(pollidxs)|
      ensures Lookup(polls, pollidxs, fd) == None
      ensures forall f: nat :: f != fd ==> Lookup(polls, pollidxs, f) == Lookup(old(polls), old(pollidxs), f)
    {
      pollidxs := pollidxs[fd := -1];
      var last := polls[|polls| - 1];
      if idx < |polls| - 1 {
        polls := polls[idx := last][..|polls| - 1];
        pollidxs := pollidxs[last.fd := idx];
      } else {
        polls := polls[..|polls| - 1];
      }
    }

    /** fd_change. */
    method FdChange(fd: nat, flags: bv8)
      requires fd < |anfds| && flags != 0 && ChangesOk(anfds, fdchanges)
      modifies this`anfds, this`fdchanges
      ensures ChangesOk(anfds, fdchanges)
      ensures anfds == old(anfds)[fd := old(anfds)[fd].(reify := Or(old(anfds)[fd].reify, flags))]
      ensures anfds[fd].reify != 0
    {
      var reify := anfds[fd].reify;
      anfds := anfds[fd := anfds[fd].(reify := Or(reify, flags))];
      assert Or(reify, flags) != 0;
      if reify == 0 {
        fdchanges := fdchanges + [fd];
      }
    }

    /** array_needsize on anfds. */
    method Grow(size: nat, ghost ws: set<IoWatcher>)
      requires Valid(ws)
      modifies this`anfds
      ensures Valid(ws) && |anfds| >= size && old(anfds) <= anfds
      ensures forall fd :: |old(anfds)| <= fd < |anfds| ==> anfds[fd] == Anfd([], 0, 0)
    {
      if size > |anfds| {
        ghost var before := anfds;
        anfds := anfds + seq(size - |anfds|, _ => Anfd([], 0, 0));
        BackendKept(before, anfds, polls, pollidxs);
      }
    }

    /** ev_io_start. */
    method IoStart(w: IoWatcher, ghost ws: set<IoWatcher>)
      requires Valid(ws) && w in ws
      requires Legal(w.events)
      modifies this`anfds, this`fdchanges, w`active, w`events
      ensures Valid(ws) && w.active != 0
      ensures old(w.active) != 0 ==> anfds == old(anfds) && fdchanges == old(fdchanges) && w.events == old(w.events)
      ensures old(w.active) == 0 ==>
        w.events == Cleared(old(w.events)) && w.fd < |anfds| && anfds[w.fd].reify != 0 && |old(anfds)| <= |anfds|
      ensures w.events & EV_READ != 0 <==> old(w.events) & EV_READ != 0
      ensures w.events & EV_WRITE != 0 <==> old(w.events) & EV_WRITE != 0
      ensures old(w.active) == 0 ==> w.events & EV__IOFDSET == 0
      ensures old(w.active) == 0 ==> anfds[w.fd].head == [w] + Head(old(anfds), w.fd)
      ensures forall fd: nat :: fd != w.fd ==> Head(anfds, fd) == Head(old(anfds), fd)
    {
      if w.active != 0 { return; }
      ClearedMeans(w.events);
      Grow(w.fd + 1, ws);
      Enlist(w, ws);
    }

    /** wlist_add at the front of the list of fd, then fd_change. */
    method LinkFront(fd: nat, w: IoWatcher, flags: bv8)
      requires fd < |anfds| && flags != 0 && ChangesOk(anfds, fdchanges) && BackendOk(anfds, polls, pollidxs)
      modifies this`anfds, this`fdchanges
      ensures ChangesOk(anfds, fdchanges) && BackendOk(anfds, polls, pollidxs)
      ensures |anfds| == |old(anfds)| && forall f :: 0 <= f < |anfds| && f != fd ==> anfds[f] == old(anfds)[f]
      ensures anfds[fd].reify != 0 && anfds[fd].events == old(anfds)[fd].events && anfds[fd].head == [w] + old(anfds)[fd].head
    {
      hide BackendOk, ChangesOk, Or;
      ghost var before := anfds;
      anfds := anfds[fd := anfds[fd].(head := [w] + anfds[fd].head)];
      ChangesKept(before, anfds, fdchanges);
      FdChange(fd, flags);
      BackendKept(before, anfds, polls, pollidxs);
    }

    /** Linking an inactive watcher whose fd has a slot. */
    method Enlist(w: IoWatcher, ghost ws: set<IoWatcher>)
      requires Valid(ws) && w in ws && w.active == 0 && w.fd < |anfds|
      requires Legal(w.events)
      modifies this`anfds, this`fdchanges, w`active, w`events
      ensures Valid(ws) && w.active == 1 && w.events == Cleared(old(w.events))
      ensures |anfds| == |old(anfds)| && anfds[w.fd].reify != 0 && anfds[w.fd].head == [w] + old(anfds)[w.fd].head
      ensures forall fd :: 0 <= fd < |anfds| && fd != w.fd ==> anfds[fd] == old(anfds)[fd]
    {
      var fd := w.fd;
      InactiveUnlisted(anfds, w);
      OthersAreOk(anfds, fd);
      ghost var before := anfds;
      ListedSome(before, ws - {w}, ws);
      hide Combined, HeadOk, Plain, PollMask, Or, AnfdOk, BackendOk, Members, Listed, ChangesOk, AllOk, OthersOk, Legal, Cleared, StartFlags;
      w.active := 1;
      LinkFront(fd, w, StartFlags(w.events));
      w.events := Cleared(w.events);
      LinkedOk(before, anfds, w);
      LinkedLists(before, anfds, w, ws);
    }

    /** ev_io_stop, after its clear_pending. */
    method IoStop(w: IoWatcher, ghost ws: set<IoWatcher>)
      requires Valid(ws) && w in ws
      modifies this`anfds, this`fdchanges, w`active
      ensures Valid(ws) && w.active == 0
      ensures old(w.active) == 0 ==> anfds == old(anfds) && fdchanges == old(fdchanges)
      ensures old(w.active) != 0 ==>
        (w.fd < |anfds| == |old(anfds)| && anfds[w.fd].reify != 0 && Without(old(anfds)[w.fd].head, anfds[w.fd].head, w))
      ensures forall fd :: 0 <= fd < |anfds| && fd != w.fd ==> anfds[fd] == old(anfds)[fd]
    {
      if w.active == 0 { return; }
      Delist(w, ws);
    }

    method Delist(w: IoWatcher, ghost ws: set<IoWatcher>)
      requires Valid(ws) && w in ws && w.active != 0
      modifies this`anfds, this`fdchanges, w`active
      ensures Valid(ws) && w.active == 0
      ensures w.fd < |anfds| == |old(anfds)| && anfds[w.fd].reify != 0 && Without(old(anfds)[w.fd].head, anfds[w.fd].head, w)
      ensures forall fd :: 0 <= fd < |anfds| && fd != w.fd ==> anfds[fd] == old(anfds)[fd]
    {
      var fd := w.fd;
      OthersAreOk(anfds, fd);
      ListedElsewhere(anfds, w);
      ListedSome(anfds, ws - {w}, ws);
      ghost var before := anfds;
      hide Combined, HeadOk, Plain, PollMask, Or, AnfdOk, BackendOk, Members, Listed, ChangesOk, AllOk, OthersOk, Without;
      UnlinkFrom(fd, w);
      w.active := 0;
      FdChange(fd, EV_ANFD_REIFY);
      MarkedAllOk(before, anfds, fd);
      UnlinkedLists(before, anfds, w, ws);
      BackendKept(before, anfds, polls, pollidxs);
    }

    /** Taking w out of the list of fd. */
    method UnlinkFrom(fd: nat, w: IoWatcher)
      requires fd < |anfds| && ChangesOk(anfds, fdchanges) && w in anfds[fd].head && HeadOk(anfds[fd].head, fd)
      modifies this`anfds
      ensures ChangesOk(anfds, fdchanges) && |anfds| == |old(anfds)|
      ensures forall f :: 0 <= f < |anfds| && f != fd ==> anfds[f] == old(anfds)[f]
      ensures anfds[fd] == old(anfds)[fd].(head := anfds[fd].head)
      ensures w !in anfds[fd].head && Without(old(anfds)[fd].head, anfds[fd].head, w) && HeadOk(anfds[fd].head, fd)
    {
      ghost var before := anfds;
      var head := Unlink(anfds[fd].head, w);
      UnlinkedOk(anfds[fd].head, head, w, fd);
      hide HeadOk, ChangesOk, Without;
      anfds := anfds[fd := anfds[fd].(head := head)];
      ChangesKept(before, anfds, fdchanges);
    }

    /** wlist_del: the list without its first occurrence of elem. */
    method Unlink(head: seq<IoWatcher>, elem: IoWatcher) returns (rest: seq<IoWatcher>)
      requires elem in head && NoDup(head)
      ensures NoDup(rest) && Without(head, rest, elem)
      ensures exists k :: 0 <= k < |head| && head[k] == elem && rest == head[..k] + head[k + 1..]
    {
      var k := 0;
      while k < |head|
        invariant 0 <= k <= |head| && elem !in head[..k]
      {
        if head[k] == elem { return head[..k] + head[k + 1..]; }
        k := k + 1;
      }
      assert false;
    }

    /** fd_reify's inner loop. */
    method CombineMasks(head: seq<IoWatcher>) returns (events: bv8)
      ensures events == Combined(head)
    {
      hide Or;
      events := 0;
      var k := 0;
      while k < |head|
        invariant 0 <= k <= |head| && events == Combined(head[..k])
      {
        assert head[..k + 1][..k] == head[..k];
        events := Or(events, head[k].events);
        k := k + 1;
      }
      assert head[..k] == head;
    }

    /** One turn of fd_reify's loop. */
    method ReifyOne(fd: nat)
      requires fd < |anfds| && anfds[fd].reify != 0 && AllOk(anfds) && BackendOk(anfds, polls, pollidxs)
      modifies this`anfds, this`polls, this`pollidxs
      ensures anfds == old(anfds)[fd := Anfd(old(anfds)[fd].head, Combined(old(anfds)[fd].head), 0)]
      ensures AllOk(anfds) && BackendOk(anfds, polls, pollidxs)
    {
      HeadsAreOk(anfds);
      ghost var before := anfds;
      var oEvents, oReify := anfds[fd].events, anfds[fd].reify;
      var events := CombineMasks(anfds[fd].head);
      hide PollMask, Combined, Inverse, Lookup, HeadOk;
      assert Lookup(polls, pollidxs, fd) == Polled(oEvents);
      anfds := anfds[fd := Anfd(anfds[fd].head, events, 0)];
      if oEvents != events {
        oReify := EV__IOFDSET;
      }
      if oReify & EV__IOFDSET != 0 {
        PollModify(fd, oEvents, events);
      }
    }

    /** fd_reify. */
    method FdReify(ghost ws: set<IoWatcher>)
      requires Valid(ws)
      modifies this
      ensures Valid(ws) && fdchanges == []
      ensures |anfds| == |old(anfds)| && forall fd :: 0 <= fd < |anfds| ==>
        anfds[fd].head == old(anfds)[fd].head && anfds[fd].reify == 0 && anfds[fd].events == Combined(anfds[fd].head)
    {
      hide AllOk, BackendOk, Members, Listed, Combined;
      ghost var was := anfds;
      var i := 0;
      while i < |fdchanges|
        invariant 0 <= i <= |fdchanges| && fdchanges == old(fdchanges) && |anfds| == |was|
        invariant forall fd :: 0 <= fd < |anfds| ==> anfds[fd].head == was[fd].head
        invariant forall j :: i <= j < |fdchanges| ==> anfds[fdchanges[j]].reify != 0
        invariant forall fd :: 0 <= fd < |anfds| && anfds[fd].reify != 0 ==> fd in fdchanges[i..]
        invariant AllOk(anfds) && BackendOk(anfds, polls, pollidxs)
      {
        ReifyOne(fdchanges[i]);
        i := i + 1;
      }
      fdchanges := [];
      HeadsSame(was, anfds, ws);
      AllUpToDate(anfds);
    }
  }

  /** fd asks for bit: some active watcher of fd has it in its mask. */
  ghost predicate Asked(ws: set<IoWatcher>, fd: nat, bit: bv8)
    reads ws`active, ws`events
  {
    exists w :: w in ws && w.active != 0 && w.fd == fd && w.events & bit != 0
  }

  lemma AskedIsCombined(anfds: seq<Anfd>, ws: set<IoWatcher>, fd: nat, bit: bv8)
    requires AllOk(anfds) && Members(anfds, ws) && Listed(anfds, ws)
    requires forall f :: 0 <= f < |anfds| ==> anfds[f].events == Combined(anfds[f].head)
    ensures Recorded(anfds, fd) & bit != 0 <==> Asked(ws, fd, bit)
  {
    if fd < |anfds| {
      var head := anfds[fd].head;
      HeadsAreOk(anfds);
      CombinedMeans(head, bit);
      hide Combined;
      if i :| 0 <= i < |head| && head[i].events & bit != 0 { assert head[i] in ws; }
      if w :| w in ws && w.active != 0 && w.fd == fd && w.events & bit != 0 { assert w in head; }
    }
  }

  lemma RecordedPlain(anfds: seq<Anfd>, fd: nat)
    requires AllOk(anfds) && forall f :: 0 <= f < |anfds| ==> anfds[f].events == Combined(anfds[f].head)
    ensures Plain(Recorded(anfds, fd))
  {
    if fd < |anfds| {
      HeadsAreOk(anfds);
      CombinedPlain(anfds[fd].head);
    }
  }

  lemma MaskBits(e: bv8)
    requires Plain(e)
    ensures PollMask(e) & POLLIN != 0 <==> e & EV_READ != 0
    ensures PollMask(e) & POLLOUT != 0 <==> e & EV_WRITE != 0
    ensures PollMask(e) & !(POLLIN | POLLOUT) == 0
    ensures e != 0 <==> e & EV_READ != 0 || e & EV_WRITE != 0
  {
  }

  /** With no fd left to reify, fd is polled exactly when an active watcher of it asks for reading or
      writing, and then for exactly what its active watchers ask for together. */
  lemma PollsMatchWatchers(fds: Fds, ws: set<IoWatcher>, fd: nat)
    requires fds.Valid(ws) && fds.fdchanges == []
    ensures var r := Lookup(fds.polls, fds.pollidxs, fd);
      && (r.Some? <==> Asked(ws, fd, EV_READ) || Asked(ws, fd, EV_WRITE))
      && (r.Some? ==> (r.value & POLLIN != 0 <==> Asked(ws, fd, EV_READ)))
      && (r.Some? ==> (r.value & POLLOUT != 0 <==> Asked(ws, fd, EV_WRITE)))
      && (r.Some? ==> r.value & !(POLLIN | POLLOUT) == 0)
  {
    AllUpToDate(fds.anfds);
    AskedIsCombined(fds.anfds, ws, fd, EV_READ);
    AskedIsCombined(fds.anfds, ws, fd, EV_WRITE);
    RecordedPlain(fds.anfds, fd);
    MaskBits(Recorded(fds.anfds, fd));
    hide Lookup, Combined, PollMask, Asked;
  }

  /** fd is polled for a poll event. */
  predicate PolledFor(fds: Fds, fd: nat, bit: bv8)
    reads fds`polls, fds`pollidxs
  {
    var r := Lookup(fds.polls, fds.pollidxs, fd);
    r.Some? && r.value & bit != 0
  }

  lemma PolledForAsked(fds: Fds, ws: set<IoWatcher>, fd: nat)
    requires fds.Valid(ws) && fds.fdchanges == []
    ensures PolledFor(fds, fd, POLLIN) <==> Asked(ws, fd, EV_READ)
    ensures PolledFor(fds, fd, POLLOUT) <==> Asked(ws, fd, EV_WRITE)
  {
    hide Lookup, Asked;
    PollsMatchWatchers(fds, ws, fd);
  }

  lemma AskedWith(ws: set<IoWatcher>, w: IoWatcher, bit: bv8)
    requires w in ws && w.active != 0
    ensures Asked(ws, w.fd, bit) <==> w.events & bit != 0 || Asked(ws - {w}, w.fd, bit)
  {
  }

  /** A watcher started and the changes reified: its fd is polled for what it was made to ask for, and for what
      the other active watchers of the fd ask for, and for nothing else. */
  method StartAndReify(fds: Fds, w: IoWatcher, ghost ws: set<IoWatcher>)
    requires fds.Valid(ws) && w in ws && w.active == 0 && Legal(w.events)
    modifies fds, w`active, w`events
    ensures fds.Valid(ws) && fds.fdchanges == []
    ensures PolledFor(fds, w.fd, POLLIN) <==> old(w.events) & EV_READ != 0 || old(Asked(ws - {w}, w.fd, EV_READ))
    ensures PolledFor(fds, w.fd, POLLOUT) <==> old(w.events) & EV_WRITE != 0 || old(Asked(ws - {w}, w.fd, EV_WRITE))
  {
    hide Asked, Fds.Valid, Cleared;
    fds.IoStart(w, ws);
    fds.FdReify(ws);
    PolledForAsked(fds, ws, w.fd);
    AskedWith(ws, w, EV_READ);
    AskedWith(ws, w, EV_WRITE);
  }

  /** A watcher stopped and the changes reified: its fd is polled for what the others ask for. */
  method StopAndReify(fds: Fds, w: IoWatcher, ghost ws: set<IoWatcher>)
    requires fds.Valid(ws) && w in ws
    modifies fds, w`active
    ensures fds.Valid(ws) && fds.fdchanges == []
    ensures PolledFor(fds, w.fd, POLLIN) <==> old(Asked(ws - {w}, w.fd, EV_READ))
    ensures PolledFor(fds, w.fd, POLLOUT) <==> old(Asked(ws - {w}, w.fd, EV_WRITE))
  {
    hide Asked, Fds.Valid;
    fds.IoStop(w, ws);
    fds.FdReify(ws);
    PolledForAsked(fds, ws, w.fd);
    AskedWithout(ws, w, EV_READ);
    AskedWithout(ws, w, EV_WRITE);
  }

  lemma AskedWithout(ws: set<IoWatcher>, w: IoWatcher, bit: bv8)
    requires w in ws && w.active == 0
    ensures Asked(ws, w.fd, bit) <==> Asked(ws - {w}, w.fd, bit)
  {
  }
}
