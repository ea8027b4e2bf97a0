/** `Channelff` and `Pollerff` as objects: the channels live on the heap and are updated in place.  Each
    method is proved to do to the heap what its operation in module Poller does to the mirror of any set of
    channels. */
module PollerObject {
  import opened Common
  import P = Poller

  class Channelff {
    const fd: nat
    var events: P.Events
    var revents: nat
    var index: Index

    constructor (fd: nat)
      ensures this.fd == fd && events == P.NONE && index == New
    {
      this.fd := fd;
      events, revents, index := P.NONE, 0, New;
    }

    function Value(): P.Chan
      reads this
    {
      P.Chan(fd, events, index)
    }

    predicate IsNoneEvent()
      reads this
    {
      events == P.NONE
    }
  }

  /** An event `epoll_wait` returns: the registered pointer and the ready bits. */
  datatype Ready = Ready(ptr: Channelff, bits: nat)

  class Pollerff {
    var channels: map<nat, Channelff>
    var kernel: map<nat, P.Registration<Channelff>>     // the epoll instance

    ghost function View(all: set<Channelff>): P.Mirror<Channelff>
      reads this, all
    {
      P.Mirror(map c | c in all :: c.Value(), channels, kernel)
    }

    constructor ()
      ensures channels == map[] && kernel == map[]
    {
      channels, kernel := map[], map[];
    }

    /** An empty poller agrees with new channels. */
    lemma FreshAgrees(all: set<Channelff>)
      requires channels == map[] && kernel == map[]
      requires forall c :: c in all ==> c.index.New?
      ensures P.Agrees(View(all))
    {
    }

    /** `update`: one `epoll_ctl`. */
    method Update(op: P.CtlOp, channel: Channelff)
      requires P.EpollCtl(kernel, op, channel.fd, P.Registration(channel.events, channel)).Done?
      modifies this`kernel
      ensures P.EpollCtl(old(kernel), op, channel.fd, P.Registration(channel.events, channel)) == P.Done(kernel)
    {
      match op
      case Add =>
        assert channel.fd !in kernel;
        kernel := kernel[channel.fd := P.Registration(channel.events, channel)];
      case Mod =>
        assert channel.fd in kernel;
        kernel := kernel[channel.fd := P.Registration(channel.events, channel)];
      case Del =>
        assert channel.fd in kernel;
        kernel := kernel - {channel.fd};
    }

    method UpdateChannel(channel: Channelff, ghost all: set<Channelff>)
      requires channel in all && P.UpdateChannel(View(all), channel).Ok?
      modifies this, channel`index
      ensures P.UpdateChannel(old(View(all)), channel) == P.Ok(View(all))
    {
      var idx := channel.index;
      if idx == New || idx == Deleted {
        if idx == New {
          assert channel.fd !in channels;
          channels := channels[channel.fd := channel];
        } else {
          assert channel.fd in channels && channels[channel.fd] == channel;
        }
        channel.index := Added;
        Update(P.Add, channel);
      } else {
        assert channel.fd in channels && channels[channel.fd] == channel;
        if channel.IsNoneEvent() {
          Update(P.Del, channel);
          channel.index := Deleted;
        } else {
          Update(P.Mod, channel);
        }
      }
    }

    method RemoveChannel(channel: Channelff, ghost all: set<Channelff>)
      requires channel in all && P.RemoveChannel(View(all), channel).Ok?
      modifies this, channel`index
      ensures P.RemoveChannel(old(View(all)), channel) == P.Ok(View(all))
    {
      assert channel.fd in channels && channels[channel.fd] == channel;
      assert channel.IsNoneEvent();
      var idx := channel.index;
      assert idx == Added || idx == Deleted;
      channels := channels - {channel.fd};
      if idx == Added {
        Update(P.Del, channel);
      }
      channel.index := New;
    }

    /** A call of a channel's owner.  Whenever it is legal it goes through, and poller and kernel agree
        afterwards. */
    method Perform(channel: Channelff, call: P.Call, ghost all: set<Channelff>)
      requires P.Agrees(View(all)) && channel in all && P.Legal(View(all), channel, call)
      modifies this, channel
      ensures P.Agrees(View(all)) && P.Perform(old(View(all)), channel, call) == P.Ok(View(all))
      ensures call == P.EnableReading ==> channel.events == P.Events(true, old(channel.events.write))
      ensures call == P.EnableWriting ==> channel.events == P.Events(old(channel.events.read), true)
      ensures call == P.DisableReading ==> channel.events == P.Events(false, old(channel.events.write))
      ensures call == P.DisableWriting ==> channel.events == P.Events(old(channel.events.read), false)
      ensures call == P.DisableAll ==> channel.events == P.Events(false, false)
      ensures call != P.Remove && channel.events != P.NONE ==>
                channel.fd in kernel && kernel[channel.fd] == P.Registration(channel.events, channel)
      ensures call == P.Remove ==> channel.fd !in kernel && channel.fd !in channels
    {
      hide P.Agrees, P.UpdateChannel, P.RemoveChannel, P.KernelSameBut;
      P.CallSucceedsExactly(View(all), channel, call);
      P.CallEffect(View(all), channel, call);
      if call.Remove? {
        RemoveChannel(channel, all);
      } else {
        SetInterest(channel, call, all);
        UpdateChannel(channel, all);
      }
    }

    /** `events_|=...` or `events_&=~...`. */
    method SetInterest(channel: Channelff, call: P.Call, ghost all: set<Channelff>)
      requires channel in all
      modifies channel`events
      ensures View(all) == P.SetEvents(old(View(all)), channel, P.NewEvents(old(channel.events), call))
    {
      ghost var before := View(all);
      channel.events := P.NewEvents(channel.events, call);
      assert View(all) == P.SetEvents(before, channel, P.NewEvents(before.chans[channel].events, call));
    }

    /** `fillActiveChannels`: its two asserts hold for whatever the kernel reports, once for each ready channel. */
    method FillActiveChannels(events: seq<Ready>, ghost all: set<Channelff>) returns (active: seq<Channelff>)
      requires P.Agrees(View(all))
      requires forall e :: e in events ==> exists fd :: fd in kernel && kernel[fd].ptr == e.ptr
      requires forall i, j :: 0 <= i < j < |events| ==> events[i].ptr != events[j].ptr
      modifies (set e | e in events :: e.ptr)`revents
      ensures |active| == |events|
      ensures forall i :: 0 <= i < |events| ==> active[i] == events[i].ptr && active[i].revents == events[i].bits
      ensures forall c :: c in active ==> c.fd in channels && channels[c.fd] == c
      ensures View(all) == old(View(all))
    {
      active := [];
      var i := 0;
      while i < |events|
        invariant 0 <= i <= |events| && |active| == i
        invariant forall k :: 0 <= k < i ==> active[k] == events[k].ptr && active[k].revents == events[k].bits
        invariant forall c :: c in active ==> c.fd in channels && channels[c.fd] == c
        invariant View(all) == old(View(all))
      {
        var channel := events[i].ptr;
        assert events[i] in events;
        ghost var fd :| fd in kernel && kernel[fd].ptr == channel;
        P.ReportedIsListed(View(all), fd);
        assert channel.fd in channels;
        assert channels[channel.fd] == channel;
        channel.revents := events[i].bits;
        active := active + [channel];
        i := i + 1;
      }
    }
  }
}
