/** The poller's mirror of the kernel interest set: net/Pollerff.cpp and the interest bits of net/Channelff.h.

    `Mirror` is the joint state of the channels, of `Pollerff::channels_` and of the epoll instance in the
    kernel.  `C` is whatever identifies a channel.  An operation may fail an assert of the code or get an
    error from `epoll_ctl`; both are possible outcomes, so that their absence is a statement. */
module Poller {
  import opened Common

  datatype Events = Events(read: bool, write: bool)

  const NONE := Events(false, false)

  datatype Chan = Chan(fd: nat, events: Events, index: Index)

  /** What the kernel keeps for a descriptor. */
  datatype Registration<C> = Registration(events: Events, ptr: C)

  datatype Mirror<C> = Mirror(
    chans: map<C, Chan>,                    // every channel object
    channels: map<nat, C>,                  // Pollerff::channels_
    kernel: map<nat, Registration<C>>)

  datatype CtlOp = Add | Mod | Del

  datatype Ctl<C> = Done(kernel: map<nat, Registration<C>>) | Eexist | Enoent

  datatype Outcome<C> = Ok(mirror: Mirror<C>) | AssertFails | CtlFails

  /** `epoll_ctl`, by its manual page. */
  function EpollCtl<C>(kernel: map<nat, Registration<C>>, op: CtlOp, fd: nat, r: Registration<C>): Ctl<C> {
    match op
    case Add => if fd in kernel then Eexist else Done(kernel[fd := r])
    case Mod => if fd !in kernel then Enoent else Done(kernel[fd := r])
    case Del => if fd !in kernel then Enoent else Done(kernel - {fd})
  }

  /** `Pollerff::update` for channel `c`, with the index the code sets around it. */
  function Update<C>(m: Mirror<C>, op: CtlOp, c: C, index: Index): Outcome<C>
    requires c in m.chans
  {
    var k := m.chans[c];
    var r := EpollCtl(m.kernel, op, k.fd, Registration(k.events, c));
    if r.Done? then Ok(m.(kernel := r.kernel, chans := m.chans[c := k.(index := index)])) else CtlFails
  }

  predicate Listed<C>(m: Mirror<C>, c: C)
    requires c in m.chans
  {
    m.chans[c].fd in m.channels && m.channels[m.chans[c].fd] == c
  }

  /** `updateChannel`. */
  function UpdateChannel<C>(m: Mirror<C>, c: C): Outcome<C>
    requires c in m.chans
  {
    var k := m.chans[c];
    match k.index
    case New =>
      if k.fd in m.channels then AssertFails
      else Update(m.(channels := m.channels[k.fd := c]), Add, c, Added)
    case Deleted =>
      if !Listed(m, c) then AssertFails else Update(m, Add, c, Added)
    case Added =>
      if !Listed(m, c) then AssertFails
      else if k.events == NONE then Update(m, Del, c, Deleted)
      else Update(m, Mod, c, Added)
  }

  /** `removeChannel`. */
  function RemoveChannel<C>(m: Mirror<C>, c: C): Outcome<C>
    requires c in m.chans
  {
    var k := m.chans[c];
    if !Listed(m, c) || k.events != NONE || k.index.New? then AssertFails
    else
      var n := m.(channels := m.channels - {k.fd});
      if k.index.Added? then Update(n, Del, c, New) else Ok(n.(chans := n.chans[c := k.(index := New)]))
  }

  /** The calls a channel's owner makes. */
  datatype Call = EnableReading | EnableWriting | DisableReading | DisableWriting | DisableAll | Remove

  function NewEvents(e: Events, call: Call): Events {
    match call
    case EnableReading => e.(read := true)
    case EnableWriting => e.(write := true)
    case DisableReading => e.(read := false)
    case DisableWriting => e.(write := false)
    case DisableAll => NONE
    case Remove => e
  }

  function SetEvents<C>(m: Mirror<C>, c: C, e: Events): Mirror<C>
    requires c in m.chans
  {
    m.(chans := m.chans[c := m.chans[c].(events := e)])
  }

  function Perform<C>(m: Mirror<C>, c: C, call: Call): Outcome<C>
    requires c in m.chans
  {
    if call.Remove? then RemoveChannel(m, c)
    else UpdateChannel(SetEvents(m, c, NewEvents(m.chans[c].events, call)), c)
  }

  // ---------------------------------------------------------------- agreement

  /** `channels_` lists exactly the channels whose index says so, under their descriptors, and the kernel
      knows exactly those marked added, with their present interest and pointer. */
  ghost predicate Agrees<C>(m: Mirror<C>) {
    && (forall fd :: fd in m.channels ==>
      && m.channels[fd] in m.chans && m.chans[m.channels[fd]].fd == fd && !m.chans[m.channels[fd]].index.New?)
    && (forall c :: c in m.chans && !m.chans[c].index.New? ==> Listed(m, c))
    && (forall fd :: fd in m.kernel <==> fd in m.channels && m.chans[m.channels[fd]].index.Added?)
    && (forall fd :: fd in m.kernel ==> m.kernel[fd] == Registration(m.chans[m.channels[fd]].events, m.channels[fd]))
  }

  /** What the code asks of its callers: one channel per descriptor at a time, and no interest left at removal. */
  predicate Legal<C>(m: Mirror<C>, c: C, call: Call)
    requires c in m.chans
  {
    if call.Remove? then !m.chans[c].index.New? && m.chans[c].events == NONE
    else m.chans[c].index.New? ==> m.chans[c].fd !in m.channels
  }

  /** In agreement, a call goes through without a failed assert or an error from the kernel exactly if it is
      legal, and then the mirror agrees again. */
  lemma CallSucceedsExactly<C>(m: Mirror<C>, c: C, call: Call)
    requires Agrees(m) && c in m.chans
    ensures Perform(m, c, call).Ok? <==> Legal(m, c, call)
    ensures Legal(m, c, call) ==> Agrees(Perform(m, c, call).mirror)
    ensures !Perform(m, c, call).CtlFails?
  {
    if call.Remove? {
      RemoveSucceedsExactly(m, c);
    } else {
      UpdateSucceedsExactly(m, c, NewEvents(m.chans[c].events, call));
    }
  }

  lemma RemoveSucceedsExactly<C>(m: Mirror<C>, c: C)
    requires Agrees(m) && c in m.chans
    ensures RemoveChannel(m, c).Ok? <==> Legal(m, c, Remove)
    ensures Legal(m, c, Remove) ==> Agrees(RemoveChannel(m, c).mirror)
    ensures !RemoveChannel(m, c).CtlFails?
  {
    if Legal(m, c, Remove) {
      assert Listed(m, c);
      var n := RemoveChannel(m, c).mirror;
      forall d | d in n.chans && !n.chans[d].index.New? ensures Listed(n, d) {
        assert Listed(m, d);
      }
    }
  }

  lemma UpdateSucceedsExactly<C>(m: Mirror<C>, c: C, e: Events)
    requires Agrees(m) && c in m.chans
    ensures UpdateChannel(SetEvents(m, c, e), c).Ok? <==> (m.chans[c].index.New? ==> m.chans[c].fd !in m.channels)
    ensures (m.chans[c].index.New? ==> m.chans[c].fd !in m.channels) ==>
      Agrees(UpdateChannel(SetEvents(m, c, e), c).mirror)
    ensures !UpdateChannel(SetEvents(m, c, e), c).CtlFails?
  {
    if !m.chans[c].index.New? {
      KnownUpdates(m, c, e);
    } else if m.chans[c].fd !in m.channels {
      NewUpdates(m, c, e);
    }
  }

  lemma NewUpdates<C>(m: Mirror<C>, c: C, e: Events)
    requires Agrees(m) && c in m.chans && m.chans[c].index.New? && m.chans[c].fd !in m.channels
    ensures UpdateChannel(SetEvents(m, c, e), c).Ok? && Agrees(UpdateChannel(SetEvents(m, c, e), c).mirror)
  {
    var n := UpdateChannel(SetEvents(m, c, e), c).mirror;
    forall d | d in n.chans && !n.chans[d].index.New? ensures Listed(n, d) {
      assert d == c || Listed(m, d);
    }
  }

  lemma KnownUpdates<C>(m: Mirror<C>, c: C, e: Events)
    requires Agrees(m) && c in m.chans && !m.chans[c].index.New?
    ensures UpdateChannel(SetEvents(m, c, e), c).Ok? && Agrees(UpdateChannel(SetEvents(m, c, e), c).mirror)
  {
    assert Listed(m, c);
    var n := UpdateChannel(SetEvents(m, c, e), c).mirror;
    forall d | d in n.chans && !n.chans[d].index.New? ensures Listed(n, d) {
      assert Listed(m, d);
    }
  }

  // ---------------------------------------------------------------- runs

  /** A program that makes the given calls; it stops at the first failure. */
  function Run<C>(m: Mirror<C>, calls: seq<(C, Call)>): Outcome<C>
    requires forall p :: p in calls ==> p.0 in m.chans
    decreases |calls|
  {
    if calls == [] then Ok(m)
    else
      var r := Perform(m, calls[0].0, calls[0].1);
      if r.Ok? then Run(r.mirror, calls[1..]) else r
  }

  /** The callers keep their side at every call of the run. */
  predicate LegalRun<C>(m: Mirror<C>, calls: seq<(C, Call)>)
    requires forall p :: p in calls ==> p.0 in m.chans
    decreases |calls|
  {
    calls == [] ||
    (Legal(m, calls[0].0, calls[0].1) &&
      (Perform(m, calls[0].0, calls[0].1).Ok? ==> LegalRun(Perform(m, calls[0].0, calls[0].1).mirror, calls[1..])))
  }

  /** After every run of enables, disables and removals that the callers keep legal, the kernel interest set
      is exactly what the poller believes, and no assert failed and every `epoll_ctl` was accepted on the way;
      an illegal run stops at a failed assert, never at a kernel error. */
  lemma {:induction false} KernelMirrored<C>(m: Mirror<C>, calls: seq<(C, Call)>)
    requires Agrees(m)
    requires forall p :: p in calls ==> p.0 in m.chans
    ensures Run(m, calls).Ok? <==> LegalRun(m, calls)
    ensures Run(m, calls).Ok? ==> Agrees(Run(m, calls).mirror)
    ensures !Run(m, calls).CtlFails?
    decreases |calls|
  {
    if calls != [] {
      assert calls[0] in calls;
      CallSucceedsExactly(m, calls[0].0, calls[0].1);
      if Legal(m, calls[0].0, calls[0].1) {
        var n := Perform(m, calls[0].0, calls[0].1).mirror;
        assert forall p :: p in calls[1..] ==> p in calls;
        KernelMirrored(n, calls[1..]);
      }
    }
  }

  /** Everything `epoll_wait` can report is a listed channel under its own descriptor: the asserts of
      `fillActiveChannels`. */
  lemma ReportedIsListed<C>(m: Mirror<C>, fd: nat)
    requires Agrees(m) && fd in m.kernel
    ensures var c := m.kernel[fd].ptr;
            c in m.chans && m.chans[c].fd in m.channels && m.channels[m.chans[c].fd] == c && m.chans[c].fd == fd
  {
  }

  // ---------------------------------------------------------------- what the owner asked for is what the kernel has

  /** Whether the calls leave `c` wanting input: the last of them that says anything about it. */
  function WantsInput<C(==)>(calls: seq<(C, Call)>, c: C, before: bool): bool {
    if calls == [] then before
    else
      var (d, call) := calls[0];
      WantsInput(calls[1..], c,
        if d != c then before
        else if call == EnableReading then true
        else if call == DisableReading || call == DisableAll then false
        else before)
  }

  /** The same for output. */
  function WantsOutput<C(==)>(calls: seq<(C, Call)>, c: C, before: bool): bool {
    if calls == [] then before
    else
      var (d, call) := calls[0];
      WantsOutput(calls[1..], c,
        if d != c then before
        else if call == EnableWriting then true
        else if call == DisableWriting || call == DisableAll then false
        else before)
  }

  /** What one call does to its channel's interest and to the kernel's set: each enable and disable changes
      its own bit only; the descriptor is in the set afterwards unless it was removed or a channel in the set
      lost its last interest. */
  lemma CallEffect<C>(m: Mirror<C>, c: C, call: Call)
    requires Agrees(m) && c in m.chans && Legal(m, c, call)
    ensures Perform(m, c, call).Ok?
    ensures var n := Perform(m, c, call).mirror;
            && n.chans.Keys == m.chans.Keys && (forall d :: d in m.chans && d != c ==> n.chans[d] == m.chans[d])
            && n.chans[c].fd == m.chans[c].fd
            && (call == EnableReading ==> n.chans[c].events == Events(true, m.chans[c].events.write))
            && (call == EnableWriting ==> n.chans[c].events == Events(m.chans[c].events.read, true))
            && (call == DisableReading ==> n.chans[c].events == Events(false, m.chans[c].events.write))
            && (call == DisableWriting ==> n.chans[c].events == Events(m.chans[c].events.read, false))
            && (call == DisableAll ==> n.chans[c].events == Events(false, false))
            && (call == Remove ==> n.chans[c].events == m.chans[c].events == Events(false, false))
            && (m.chans[c].fd in n.kernel <==>
                 call != Remove && (m.chans[c].fd in m.kernel ==> n.chans[c].events != Events(false, false)))
            && (m.chans[c].fd in n.kernel ==> n.kernel[m.chans[c].fd] == Registration(n.chans[c].events, c))
            && (call == Remove ==> m.chans[c].fd !in n.channels)
            && KernelSameBut(m, n, m.chans[c].fd)
  {
    CallSucceedsExactly(m, c, call);
    if call.Remove? {
      RemoveEffect(m, c);
    } else {
      UpdateEffect(m, c, NewEvents(m.chans[c].events, call));
    }
    hide UpdateChannel, RemoveChannel, Agrees;
  }

  /** Only the kernel's entry for `fd` may change. */
  ghost predicate KernelSameBut<C>(m: Mirror<C>, n: Mirror<C>, fd: nat) {
    m.kernel - {fd} == n.kernel - {fd}
  }

  lemma RemoveEffect<C>(m: Mirror<C>, c: C)
    requires Agrees(m) && c in m.chans && Legal(m, c, Remove)
    ensures RemoveChannel(m, c).Ok?
    ensures var n := RemoveChannel(m, c).mirror;
            && n.chans == m.chans[c := m.chans[c].(index := New)] && KernelSameBut(m, n, m.chans[c].fd)
            && m.chans[c].fd !in n.kernel && m.chans[c].fd !in n.channels
  {
    assert Listed(m, c);
  }

  lemma UpdateEffect<C>(m: Mirror<C>, c: C, e: Events)
    requires Agrees(m) && c in m.chans && (m.chans[c].index.New? ==> m.chans[c].fd !in m.channels)
    ensures UpdateChannel(SetEvents(m, c, e), c).Ok?
    ensures var n := UpdateChannel(SetEvents(m, c, e), c).mirror;
            && c in n.chans && n.chans == m.chans[c := m.chans[c].(events := e, index := n.chans[c].index)]
            && KernelSameBut(m, n, m.chans[c].fd)
            && (m.chans[c].fd in n.kernel <==> (m.chans[c].fd in m.kernel ==> e != NONE))
            && (m.chans[c].fd in n.kernel ==> n.kernel[m.chans[c].fd] == Registration(e, c))
  {
    if !m.chans[c].index.New? {
      assert Listed(m, c);
    }
  }

  /** After a legal run every channel's interest is what its owner's calls left, and the kernel has exactly
      that interest for each descriptor it watches. */
  lemma {:induction false} InterestFollowsCalls<C>(m: Mirror<C>, calls: seq<(C, Call)>, c: C)
    requires Agrees(m) && c in m.chans
    requires forall p :: p in calls ==> p.0 in m.chans
    requires LegalRun(m, calls)
    ensures Run(m, calls).Ok? && c in Run(m, calls).mirror.chans
    ensures var n := Run(m, calls).mirror;
            && n.chans[c].fd == m.chans[c].fd
            && n.chans[c].events.read == WantsInput(calls, c, m.chans[c].events.read)
            && n.chans[c].events.write == WantsOutput(calls, c, m.chans[c].events.write)
            && (n.chans[c].fd in n.kernel && n.kernel[n.chans[c].fd].ptr == c ==>
                 n.kernel[n.chans[c].fd].events == n.chans[c].events)
    decreases |calls|
  {
    KernelMirrored(m, calls);
    if calls != [] {
      assert calls[0] in calls;
      CallEffect(m, calls[0].0, calls[0].1);
      CallSucceedsExactly(m, calls[0].0, calls[0].1);
      var n := Perform(m, calls[0].0, calls[0].1).mirror;
      assert forall p :: p in calls[1..] ==> p in calls;
      hide Perform, Agrees, Legal;
      InterestFollowsCalls(n, calls[1..], c);
    }
  }
}
