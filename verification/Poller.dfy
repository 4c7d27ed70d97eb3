/** Channels, the poller that indexes them, and the kernel's interest set.

Event masks are sets of flags. `pushed` records the mask a channel had when it last called
`update`; between calls it equals the channel's mask.
*/
module Polling {
  datatype Flag = In | Pri | Out | Err | Hup | RdHup

  const READ: set<Flag> := {In, Pri}
  const WRITE: set<Flag> := {Out}

  const NEW: int := -1
  const ADDED: int := 1
  const DELETED: int := 2

  datatype Interest = Interest(channel: Channel, events: set<Flag>)

  datatype Ctl = CtlAdd | CtlMod | CtlDel

  class Poller {
    var channels: map<int, Channel>
    var kernel: map<int, Interest>

    constructor ()
      ensures Valid() && channels == map[] && kernel == map[]
    {
      channels, kernel := map[], map[];
    }

    // A mapped channel is either in the kernel set with its mask, or out of it with none.
    ghost predicate Agrees(fd: int)
      requires fd in channels
      reads this, channels[fd]
    {
      var c := channels[fd];
      && c.fd == fd
      && (c.index == ADDED || c.index == DELETED)
      && (c.index == ADDED <==> fd in kernel)
      && (c.index == ADDED <==> c.pushed != {})
      && (c.index == ADDED ==> kernel[fd] == Interest(c, c.pushed))
    }

    ghost predicate Valid()
      reads this, channels.Values
    {
      && kernel.Keys <= channels.Keys
      && (forall fd :: fd in channels ==> channels[fd] in channels.Values && Agrees(fd))
    }

    // epoll_ctl: adding needs an absent descriptor, changing and deleting a present one.
    predicate Legal(op: Ctl, fd: int)
      reads this
    {
      if op.CtlAdd? then fd !in kernel else fd in kernel
    }

    method Control(op: Ctl, channel: Channel)
      requires Legal(op, channel.fd)
      modifies this`kernel, channel`pushed
      ensures channel.pushed == channel.events
      ensures kernel == if op.CtlDel? then old(kernel) - {channel.fd}
                        else old(kernel)[channel.fd := Interest(channel, channel.events)]
    {
      if op.CtlDel? {
        kernel := kernel - {channel.fd};
      } else {
        kernel := kernel[channel.fd := Interest(channel, channel.events)];
      }
      channel.pushed := channel.events;
    }

    // The channel and the poller agree on whether it is mapped.
    ghost predicate Knows(channel: Channel)
      reads this, channel
    {
      if channel.index == NEW then channel.pushed == {} && forall d :: d in channels ==> channels[d] != channel
      else channel.fd in channels && channels[channel.fd] == channel
    }

    /** `updateChannel`: whatever the channel's mask is now becomes the kernel's. */
    method UpdateChannel(channel: Channel)
      requires Valid() && Knows(channel)
      requires channel.index == NEW && channel.events != {} ==> channel.fd !in channels
      modifies this, channel`index, channel`pushed
      ensures Valid() && Knows(channel) && channel.pushed == channel.events
      ensures old(channel.index) == NEW && channel.events == {} ==>
        channels == old(channels) && kernel == old(kernel) && channel.index == NEW
      ensures !(old(channel.index) == NEW && channel.events == {}) ==>
        && channels == old(channels)[channel.fd := channel]
        && channel.index == (if channel.events == {} then DELETED else ADDED)
        && kernel == (if channel.events == {} then old(kernel) - {channel.fd}
                      else old(kernel)[channel.fd := Interest(channel, channel.events)])
    {
      assert channel.index != NEW ==> Agrees(channel.fd);
      var index := channel.index;
      if index == NEW || index == DELETED {
        if channel.events == {} {
          assert channels == old(channels)[channel.fd := channel] || index == NEW;
          return;
        }
        Control(CtlAdd, channel);
        channel.index := ADDED;
        channels := channels[channel.fd := channel];
      } else {
        if channel.events == {} {
          Control(CtlDel, channel);
          channel.index := DELETED;
        } else {
          Control(CtlMod, channel);
        }
        assert channels == old(channels)[channel.fd := channel];
      }
      assert forall fd :: fd in channels && fd != channel.fd ==> old(fd in channels && Agrees(fd));
    }

    /** `removeChannel`. Its own deletion from the kernel set never happens: a channel without
        events has left the set already. */
    method RemoveChannel(channel: Channel)
      requires Valid() && channel.index != NEW && Knows(channel)
      requires channel.events == {} && channel.pushed == {}
      modifies this, channel`index
      ensures Valid() && Knows(channel) && channel.index == NEW
      ensures channels == old(channels) - {channel.fd} && kernel == old(kernel)
      ensures channel.fd !in kernel
    {
      assert Agrees(channel.fd);
      var index := channel.index;
      assert index == ADDED || index == DELETED;
      channels := channels - {channel.fd};
      if index == ADDED {
        assert false;
      }
      channel.index := NEW;
      forall d | d in channels
        ensures channels[d] != channel && Agrees(d)
      {
        assert old(Agrees(d));
      }
    }
  }

  class Channel {
    const fd: int
    const poller: Poller
    var events: set<Flag>
    var index: int
    var addedToLoop: bool
    ghost var pushed: set<Flag>

    constructor (poller: Poller, fd: int)
      requires poller.Valid()
      ensures Valid() && this.poller == poller && this.fd == fd
      ensures events == {} && index == NEW
    {
      this.fd, this.poller := fd, poller;
      events, index, addedToLoop := {}, NEW, false;
      pushed := {};
    }

    ghost predicate Valid()
      reads this, poller, poller.channels.Values
    {
      && poller.Valid()
      && poller.Knows(this)
      && pushed == events
      && (addedToLoop <==> index != NEW)
    }

    predicate IsNoneEvent()
      reads this
    {
      events == {}
    }

    predicate IsWriting()
      reads this
    {
      events * WRITE != {}
    }

    predicate IsReading()
      reads this
    {
      events * READ != {}
    }

    // No other channel is mapped under this descriptor.
    ghost predicate Free()
      reads this, poller
    {
      index == NEW ==> fd !in poller.channels
    }

    // The frame of a mask change: this channel, and this descriptor in the poller.
    twostate predicate OnlyThis()
      reads this, poller
    {
      && (forall d :: d != fd ==>
            (d in poller.channels <==> d in old(poller.channels)) && (d in poller.kernel <==> d in old(poller.kernel)))
      && (forall d :: d != fd && d in poller.channels ==> poller.channels[d] == old(poller.channels)[d])
      && (forall d :: d != fd && d in poller.kernel ==> poller.kernel[d] == old(poller.kernel)[d])
    }

    method Update()
      requires poller.Valid() && poller.Knows(this) && Free()
      requires addedToLoop <==> index != NEW
      modifies this`index, this`pushed, this`addedToLoop, poller
      ensures Valid() && Free() && OnlyThis()
      ensures addedToLoop == (old(addedToLoop) || events != {})
    {
      if !addedToLoop && IsNoneEvent() {
        return;
      }
      addedToLoop := true;
      poller.UpdateChannel(this);
    }

    method EnableReading()
      requires Valid() && Free()
      modifies this, poller
      ensures Valid() && Free() && OnlyThis() && events == old(events) + READ && addedToLoop
    {
      events := events + READ;
      assert In in events;
      Update();
    }

    method DisableReading()
      requires Valid() && Free()
      modifies this, poller
      ensures Valid() && Free() && OnlyThis() && events == old(events) - READ && addedToLoop == old(addedToLoop)
    {
      events := events - READ;
      Update();
    }

    method EnableWriting()
      requires Valid() && Free()
      modifies this, poller
      ensures Valid() && Free() && OnlyThis() && events == old(events) + WRITE && addedToLoop
    {
      events := events + WRITE;
      assert Out in events;
      Update();
    }

    method DisableWriting()
      requires Valid() && Free()
      modifies this, poller
      ensures Valid() && Free() && OnlyThis() && events == old(events) - WRITE && addedToLoop == old(addedToLoop)
    {
      events := events - WRITE;
      Update();
    }

    method DisableAll()
      requires Valid() && Free()
      modifies this, poller
      ensures Valid() && Free() && OnlyThis() && events == {} && addedToLoop == old(addedToLoop)
    {
      events := {};
      Update();
    }

    /** `remove`; the source asserts that the mask is empty. */
    method Remove()
      requires Valid() && Free() && events == {}
      modifies this, poller
      ensures Valid() && Free() && OnlyThis() && events == {} && !addedToLoop && fd !in poller.kernel
      ensures fd !in poller.channels
    {
      if !addedToLoop {
        return;
      }
      addedToLoop := false;
      poller.RemoveChannel(this);
    }
  }

  /** What the channel's index means, in every state its methods leave behind. */
  lemma IndexMeaning(c: Channel)
    requires c.Valid() && c.Free()
    ensures c.index == ADDED <==>
      c.fd in c.poller.kernel && c.poller.kernel[c.fd] == Interest(c, c.events) && c.events != {}
    ensures c.index == DELETED <==> c.fd in c.poller.channels && c.fd !in c.poller.kernel && c.events == {}
    ensures c.index == NEW <==> c.fd !in c.poller.channels
    ensures c.addedToLoop <==> c.index != NEW
  {
    if c.index != NEW {
      assert c.poller.Agrees(c.fd);
    }
  }

  datatype Change = EnableR | DisableR | EnableW | DisableW | DisableEvery | RemoveIt

  function Next(events: set<Flag>, change: Change): set<Flag>
  {
    match change
    case EnableR => events + READ
    case DisableR => events - READ
    case EnableW => events + WRITE
    case DisableW => events - WRITE
    case DisableEvery => {}
    case RemoveIt => events
  }

  function Mask(events: set<Flag>, changes: seq<Change>): set<Flag>
    decreases |changes|
  {
    if changes == [] then events else Mask(Next(events, changes[0]), changes[1..])
  }

  // The caller removes a channel only with an empty mask.
  predicate Orderly(events: set<Flag>, changes: seq<Change>)
    decreases |changes|
  {
    changes == [] ||
    ((changes[0].RemoveIt? ==> events == {}) && Orderly(Next(events, changes[0]), changes[1..]))
  }

  method Perform(c: Channel, change: Change)
    requires c.Valid() && c.Free() && (change.RemoveIt? ==> c.events == {})
    modifies c, c.poller
    ensures c.Valid() && c.Free() && c.OnlyThis() && c.events == Next(old(c.events), change)
  {
    match change
    case EnableR => c.EnableReading();
    case DisableR => c.DisableReading();
    case EnableW => c.EnableWriting();
    case DisableW => c.DisableWriting();
    case DisableEvery => c.DisableAll();
    case RemoveIt => c.Remove();
  }

  // A call on one of several channels.
  datatype Act = Act(channel: Channel, change: Change)

  // The calls of a script that are made on one channel.
  function Share(script: seq<Act>, c: Channel): seq<Change>
  {
    if script == [] then []
    else (if script[0].channel == c then [script[0].change] else []) + Share(script[1..], c)
  }

  // Channels of one poller under different descriptors.
  ghost predicate Together(poller: Poller, cs: set<Channel>)
    reads poller, poller.channels.Values, cs
  {
    && (forall c :: c in cs ==> c.poller == poller && c.Valid() && c.Free())
    && (forall c, d :: c in cs && d in cs && c.fd == d.fd ==> c == d)
  }

  function Fds(cs: set<Channel>): set<int>
  {
    set c | c in cs :: c.fd
  }

  // What the poller and the kernel hold under other descriptors.
  ghost function Elsewhere(poller: Poller, fds: set<int>): (map<int, Channel>, map<int, Interest>)
    reads poller
  {
    (poller.channels - fds, poller.kernel - fds)
  }

  lemma SameWithout<V>(m: map<int, V>, m': map<int, V>, fd: int, fds: set<int>)
    requires fd in fds
    requires forall d :: d != fd ==> (d in m' <==> d in m)
    requires forall d :: d != fd && d in m' ==> m'[d] == m[d]
    ensures m' - fds == m - fds
  {
    forall d
      ensures d in m' - fds <==> d in m - fds
      ensures d in m' - fds ==> (m' - fds)[d] == (m - fds)[d]
    {
      assert d in m' - fds <==> d in m' && d !in fds;
    }
  }

  // A change on one channel leaves the others as they were.
  method PerformOne(poller: Poller, cs: set<Channel>, c: Channel, change: Change)
    requires Together(poller, cs) && c in cs && (change.RemoveIt? ==> c.events == {})
    modifies c, poller
    ensures Together(poller, cs) && c.events == Next(old(c.events), change)
    ensures Elsewhere(poller, Fds(cs)) == old(Elsewhere(poller, Fds(cs)))
  {
    Perform(c, change);
    assert c.fd in Fds(cs);
    SameWithout(old(poller.channels), poller.channels, c.fd, Fds(cs));
    SameWithout(old(poller.kernel), poller.kernel, c.fd, Fds(cs));
    assert c.fd in poller.channels ==> poller.Agrees(c.fd);
    forall d | d in cs && d != c
      ensures d.Valid() && d.Free()
    {
      assert old(d.Valid() && d.Free()) && d.fd != c.fd;
    }
  }

  // The rest of a channel's share is orderly and ends at the mask scripted for it.
  predicate OnTrack(events: set<Flag>, share: seq<Change>, goal: set<Flag>)
  {
    Orderly(events, share) && Mask(events, share) == goal
  }

  lemma NextOnTrack(events: set<Flag>, script: seq<Act>, c: Channel, goal: set<Flag>)
    requires script != [] && OnTrack(events, Share(script, c), goal)
    ensures script[0].channel == c ==>
      && (script[0].change.RemoveIt? ==> events == {})
      && OnTrack(Next(events, script[0].change), Share(script[1..], c), goal)
    ensures script[0].channel != c ==> OnTrack(events, Share(script[1..], c), goal)
  {
    if script[0].channel == c {
      assert Share(script, c)[1..] == Share(script[1..], c);
    } else {
      assert Share(script, c) == Share(script[1..], c);
    }
  }

  // Every channel has come as far as the first calls of a script take it.
  ghost predicate AllOnTrack(cs: set<Channel>, script: seq<Act>, goals: map<Channel, set<Flag>>)
    reads cs
  {
    goals.Keys == cs && forall c :: c in cs ==> OnTrack(c.events, Share(script, c), goals[c])
  }

  method TakeStep(poller: Poller, cs: set<Channel>, script: seq<Act>, ghost goals: map<Channel, set<Flag>>)
    requires Together(poller, cs) && AllOnTrack(cs, script, goals)
    requires script != [] && script[0].channel in cs
    modifies cs, poller
    ensures Together(poller, cs) && AllOnTrack(cs, script[1..], goals)
    ensures Elsewhere(poller, Fds(cs)) == old(Elsewhere(poller, Fds(cs)))
  {
    var c := script[0].channel;
    forall d | d in cs
      ensures d != c ==> OnTrack(d.events, Share(script[1..], d), goals[d])
    {
      NextOnTrack(d.events, script, d, goals[d]);
    }
    NextOnTrack(c.events, script, c, goals[c]);
    PerformOne(poller, cs, c, script[0].change);
  }

  /** Any script of calls on any channels of a poller, removing a channel only with an empty mask,
      leaves every channel, the poller and the kernel in agreement on the mask scripted for it, and
      touches no other descriptor. */
  method Drive(poller: Poller, cs: set<Channel>, script: seq<Act>)
    requires Together(poller, cs) && forall i :: 0 <= i < |script| ==> script[i].channel in cs
    requires forall c :: c in cs ==> Orderly(c.events, Share(script, c))
    modifies cs, poller
    ensures Together(poller, cs) && Elsewhere(poller, Fds(cs)) == old(Elsewhere(poller, Fds(cs)))
    ensures forall c :: c in cs ==> c.events == Mask(old(c.events), Share(script, c))
  {
    ghost var goals := map c | c in cs :: Mask(c.events, Share(script, c));
    assert script[0..] == script;
    var i := 0;
    while i < |script|
      invariant 0 <= i <= |script|
      invariant Together(poller, cs) && AllOnTrack(cs, script[i..], goals)
      invariant Elsewhere(poller, Fds(cs)) == old(Elsewhere(poller, Fds(cs)))
    {
      assert script[i..][1..] == script[i + 1..];
      TakeStep(poller, cs, script[i..], goals);
      i := i + 1;
    }
    assert forall c :: c in cs ==> OnTrack(c.events, Share(script[i..], c), goals[c]);
  }
}
