/**
 * The replayable broadcast bus of runtime/internal/event_bus.go, as the interleaved steps of its publisher, its
 * subscribers and its readers, and as the object whose locked methods take those steps.
 */
module Broadcast {
  import opened Prelude

  datatype Event = Event(id: int)

  /** runtime/internal/event_bus.go:9-11. */
  const CHANNEL_CAPACITY: nat := 256

  /**
   * A subscriber's channel. `from` is the index of the first published event it is owed and `received` what its reader
   * has taken so far (for a replaying reader, the snapshot included); both only record history.
   */
  datatype Channel = Channel(from: nat, received: seq<Event>, queue: seq<Event>, closed: bool)

  /** A publisher that holds the lock and has yet to send its event to the pending subscribers. */
  datatype Sending = Idle | Sending(event: Event, pending: set<int>)

  datatype Bus = Bus(
    buffer: seq<Event>,
    subscribers: set<int>,
    nextId: int,
    closed: bool,
    finalErr: Option<string>,
    channels: map<int, Channel>,
    sending: Sending)

  const EMPTY_BUS := Bus([], {}, 0, false, None, map[], Idle)

  datatype Step =
    | BeginPublish(event: Event)
    | Send(id: int)
    | EndPublish
    | Subscribe
    | Unsubscribe(id: int)
    | Close(err: Option<string>)
    | Replay
    | Receive(id: int)

  function Queued(c: Channel, e: Event): Channel { c.(queue := c.queue + [e]) }

  function WithChannel(b: Bus, c: Channel): Bus {
    b.(nextId := b.nextId + 1, channels := b.channels[b.nextId := c],
       subscribers := b.subscribers + {b.nextId})
  }

  function CloseAll(b: Bus): map<int, Channel> {
    map id | id in b.channels :: if id in b.subscribers then b.channels[id].(closed := true) else b.channels[id]
  }

  /** Whether a step can happen now: everything but receiving and sending needs the lock, sending needs room. */
  predicate Enabled(b: Bus, step: Step) {
    match step
    case Send(id) =>
      && b.sending.Sending? && id in b.sending.pending
      && id in b.channels && |b.channels[id].queue| < CHANNEL_CAPACITY
    case EndPublish => b.sending.Sending? && b.sending.pending == {}
    case Receive(id) => id in b.channels && b.channels[id].queue != []
    case _ => b.sending.Idle?
  }

  function Next(b: Bus, step: Step): Bus
    requires Enabled(b, step)
  {
    match step
    case BeginPublish(e) => if b.closed then b else b.(buffer := b.buffer + [e], sending := Sending(e, b.subscribers))
    case Send(id) =>
      b.(channels := b.channels[id := Queued(b.channels[id], b.sending.event)],
         sending := Sending(b.sending.event, b.sending.pending - {id}))
    case EndPublish => b.(sending := Idle)
    case Subscribe => WithChannel(b, Channel(|b.buffer|, [], [], false))
    case Unsubscribe(id) => b.(subscribers := b.subscribers - {id})
    case Close(err) => if b.closed then b
      else b.(closed := true, finalErr := err, subscribers := {}, channels := CloseAll(b))
    case Replay => if b.closed then b else WithChannel(b, Channel(0, b.buffer, [], false))
    case Receive(id) =>
      var c := b.channels[id];
      b.(channels := b.channels[id := c.(received := c.received + [c.queue[0]], queue := c.queue[1..])])
  }

  /** All a reader has taken or will find in its queue. */
  function Stream(c: Channel): seq<Event> { c.received + c.queue }

  // ---------- The invariant ----------

  /** What a live subscriber is still owed of the events in the buffer: the one being sent, when its turn is to come. */
  function Owed(b: Bus, id: int): seq<Event> {
    if b.sending.Sending? && id in b.sending.pending then [b.sending.event] else []
  }

  ghost predicate ChannelOk(b: Bus, id: int)
    requires id in b.channels
  {
    var c := b.channels[id];
    && c.from <= |b.buffer|
    && Stream(c) <= b.buffer[c.from..]
    && (id in b.subscribers ==> Stream(c) + Owed(b, id) == b.buffer[c.from..])
    && (c.closed ==> b.closed && Stream(c) == b.buffer[c.from..])
  }

  ghost predicate Inv(b: Bus) {
    && b.subscribers <= b.channels.Keys
    && (forall id | id in b.channels :: id < b.nextId && ChannelOk(b, id))
    && (b.sending.Sending? ==> !b.closed && b.sending.pending <= b.subscribers)
  }

  lemma BeginPublishKeeps(b: Bus, e: Event)
    requires Inv(b) && b.sending.Idle? && !b.closed
    ensures Inv(Next(b, BeginPublish(e)))
  {
    var n := Next(b, BeginPublish(e));
    forall id | id in n.channels ensures ChannelOk(n, id) {
      var c := b.channels[id];
      assert ChannelOk(b, id);
      assert n.buffer[c.from..] == b.buffer[c.from..] + [e];
      if id in b.subscribers {
        assert Stream(c) + [] == Stream(c);
      }
    }
  }

  lemma SendKeeps(b: Bus, id: int)
    requires Inv(b) && Enabled(b, Send(id))
    ensures Inv(Next(b, Send(id)))
  {
    var n := Next(b, Send(id));
    forall k | k in n.channels ensures ChannelOk(n, k) {
      assert ChannelOk(b, k);
      if k == id {
        assert Stream(n.channels[id]) == Stream(b.channels[id]) + Owed(b, id);
        assert Stream(n.channels[id]) + [] == Stream(n.channels[id]);
      } else {
        assert Owed(n, k) == Owed(b, k);
      }
    }
  }

  lemma ReceiveKeeps(b: Bus, id: int)
    requires Inv(b) && Enabled(b, Receive(id))
    ensures Inv(Next(b, Receive(id)))
    ensures Stream(Next(b, Receive(id)).channels[id]) == Stream(b.channels[id])
  {
    var n := Next(b, Receive(id));
    var c := b.channels[id];
    assert c.queue == [c.queue[0]] + c.queue[1..];
    assert Stream(n.channels[id]) == Stream(c);
    forall k | k in n.channels ensures ChannelOk(n, k) {
      assert ChannelOk(b, k);
    }
  }

  lemma RegisterKeeps(b: Bus, c: Channel)
    requires Inv(b) && b.sending.Idle?
    requires c.from <= |b.buffer| && Stream(c) == b.buffer[c.from..] && !c.closed
    ensures Inv(WithChannel(b, c))
  {
    var n := WithChannel(b, c);
    forall k | k in n.channels ensures k < n.nextId && ChannelOk(n, k) {
      if k in b.channels {
        assert ChannelOk(b, k);
      } else {
        assert Stream(c) + [] == Stream(c);
      }
    }
  }

  lemma CloseKeeps(b: Bus, err: Option<string>)
    requires Inv(b) && b.sending.Idle?
    ensures Inv(Next(b, Close(err)))
  {
    var n := Next(b, Close(err));
    forall k | k in n.channels ensures k < n.nextId && ChannelOk(n, k) {
      assert ChannelOk(b, k);
      assert Stream(b.channels[k]) + [] == Stream(b.channels[k]);
    }
  }

  lemma StepKeeps(b: Bus, step: Step)
    requires Inv(b) && Enabled(b, step)
    ensures Inv(Next(b, step))
  {
    match step
    case BeginPublish(e) => if !b.closed { BeginPublishKeeps(b, e); }
    case Send(id) => SendKeeps(b, id);
    case EndPublish => EndKeeps(b);
    case Subscribe => RegisterKeeps(b, Channel(|b.buffer|, [], [], false));
    case Unsubscribe(id) => UnsubscribeKeeps(b, id);
    case Close(err) => CloseKeeps(b, err);
    case Replay => if !b.closed { RegisterKeeps(b, Channel(0, b.buffer, [], false)); }
    case Receive(id) => ReceiveKeeps(b, id);
  }

  lemma EndKeeps(b: Bus)
    requires Inv(b) && Enabled(b, EndPublish)
    ensures Inv(Next(b, EndPublish))
  {
    var n := Next(b, EndPublish);
    forall k | k in n.channels ensures ChannelOk(n, k) {
      assert ChannelOk(b, k);
      assert Owed(n, k) == Owed(b, k);
    }
  }

  lemma UnsubscribeKeeps(b: Bus, id: int)
    requires Inv(b) && b.sending.Idle?
    ensures Inv(Next(b, Unsubscribe(id)))
  {
    var n := Next(b, Unsubscribe(id));
    forall k | k in n.channels ensures ChannelOk(n, k) {
      assert ChannelOk(b, k);
    }
  }

  // ---------- Every interleaving ----------

  /** A sequence of enabled steps. */
  predicate Possible(b: Bus, steps: seq<Step>)
    decreases |steps|
  {
    steps == [] || (Enabled(b, steps[0]) && Possible(Next(b, steps[0]), steps[1..]))
  }

  function Run(b: Bus, steps: seq<Step>): Bus
    requires Possible(b, steps)
    decreases |steps|
  {
    if steps == [] then b else Run(Next(b, steps[0]), steps[1..])
  }

  lemma {:induction false} RunKeeps(b: Bus, steps: seq<Step>)
    requires Inv(b) && Possible(b, steps)
    ensures Inv(Run(b, steps))
    decreases |steps|
  {
    if steps != [] {
      StepKeeps(b, steps[0]);
      RunKeeps(Next(b, steps[0]), steps[1..]);
    }
  }

  /** The events that get published: those whose publication began before the bus was closed. */
  function Published(b: Bus, steps: seq<Step>): seq<Event>
    requires Possible(b, steps)
    decreases |steps|
  {
    if steps == [] then []
    else
      (if steps[0].BeginPublish? && !b.closed then [steps[0].event] else []) + Published(Next(b, steps[0]), steps[1..])
  }

  lemma {:induction false} BufferIsPublished(b: Bus, steps: seq<Step>)
    requires Possible(b, steps)
    ensures Run(b, steps).buffer == b.buffer + Published(b, steps)
    decreases |steps|
  {
    if steps != [] {
      BufferIsPublished(Next(b, steps[0]), steps[1..]);
    }
  }

  /**
   * For every interleaving from an empty bus: whatever a reader has received is a prefix of what was published from its
   * join point on; while it is subscribed and no send is under way, received and queued together are all of it; and a
   * channel that was closed and drained has delivered all of it.
   */
  lemma DeliveredExactly(steps: seq<Step>, id: int)
    requires Possible(EMPTY_BUS, steps)
    requires id in Run(EMPTY_BUS, steps).channels
    ensures var b := Run(EMPTY_BUS, steps);
      var published, c := Published(EMPTY_BUS, steps), b.channels[id];
      && c.from <= |published|
      && c.received <= published[c.from..]
      && (id in b.subscribers && b.sending.Idle? ==> c.received + c.queue == published[c.from..])
      && (c.closed && c.queue == [] ==> b.closed && c.received == published[c.from..])
  {
    var b := Run(EMPTY_BUS, steps);
    RunKeeps(EMPTY_BUS, steps);
    BufferIsPublished(EMPTY_BUS, steps);
    assert b.buffer == Published(EMPTY_BUS, steps);
    assert ChannelOk(b, id);
    var c := b.channels[id];
    assert c.received <= Stream(c);
    assert c.received + c.queue + [] == c.received + c.queue;
    if c.queue == [] {
      assert Stream(c) == c.received;
    }
  }

  // ---------- The final error ----------

  /** The first close of a run. */
  predicate FirstClose(steps: seq<Step>, i: nat) {
    i < |steps| && steps[i].Close? && forall j | 0 <= j < i :: !steps[j].Close?
  }

  /** A bus ends with the error of its first close, and is open without one. */
  lemma {:induction false} FinalErrorIsFirst(b: Bus, steps: seq<Step>)
    requires Possible(b, steps)
    ensures b.closed ==> Run(b, steps).closed && Run(b, steps).finalErr == b.finalErr
    ensures !b.closed && (forall i | 0 <= i < |steps| :: !steps[i].Close?) ==>
      !Run(b, steps).closed && Run(b, steps).finalErr == b.finalErr
    ensures !b.closed ==> forall i: nat | FirstClose(steps, i) ::
      Run(b, steps).closed && Run(b, steps).finalErr == steps[i].err
    decreases |steps|
  {
    if steps != [] {
      var rest := steps[1..];
      FinalErrorIsFirst(Next(b, steps[0]), rest);
      assert forall i | 0 <= i < |rest| :: rest[i] == steps[i + 1];
      forall i: nat | !b.closed && FirstClose(steps, i)
        ensures Run(b, steps).closed && Run(b, steps).finalErr == steps[i].err
      {
        assert i > 0 ==> FirstClose(rest, i - 1);
      }
    }
  }

  /** Over every interleaving from an empty bus. */
  lemma FinalError(steps: seq<Step>)
    requires Possible(EMPTY_BUS, steps)
    ensures var b := Run(EMPTY_BUS, steps);
      && (b.closed <==> exists i :: 0 <= i < |steps| && steps[i].Close?)
      && (forall i | 0 <= i < |steps| && steps[i].Close? && (forall j | 0 <= j < i :: !steps[j].Close?) ::
            b.finalErr == steps[i].err)
  {
    FinalErrorIsFirst(EMPTY_BUS, steps);
    if i :| 0 <= i < |steps| && steps[i].Close? {
      var first := EarliestClose(steps, i);
    }
    forall i: nat | i < |steps| && steps[i].Close? && (forall j | 0 <= j < i :: !steps[j].Close?)
      ensures Run(EMPTY_BUS, steps).finalErr == steps[i].err
    {
      assert FirstClose(steps, i);
    }
  }

  lemma {:induction false} EarliestClose(steps: seq<Step>, i: nat) returns (first: nat)
    requires i < |steps| && steps[i].Close?
    ensures first <= i && FirstClose(steps, first)
    decreases i
  {
    if j: nat :| j < i && steps[j].Close? {
      first := EarliestClose(steps, j);
    } else {
      first := i;
    }
  }

  /** A run of some steps and then some more is two runs. */
  lemma {:induction false} RunSplits(b: Bus, a: seq<Step>, c: seq<Step>)
    requires Possible(b, a + c)
    ensures Possible(b, a) && Possible(Run(b, a), c) && Run(b, a + c) == Run(Run(b, a), c)
    decreases |a|
  {
    if a == [] {
      assert a + c == c;
    } else {
      assert (a + c)[1..] == a[1..] + c;
      RunSplits(Next(b, a[0]), a[1..], c);
    }
  }

  /** Once a bus is closed, its channels stay closed or open as they are, and new ones stay open. */
  lemma {:induction false} ClosedChannelsStay(b: Bus, steps: seq<Step>, id: int)
    requires Possible(b, steps) && b.closed && b.subscribers <= b.channels.Keys
    requires b.nextId !in b.channels && forall k | k in b.channels :: k < b.nextId
    ensures var n := Run(b, steps);
      && (id in b.channels ==> id in n.channels && n.channels[id].closed == b.channels[id].closed)
      && (id !in b.channels && id in n.channels ==> !n.channels[id].closed)
    decreases |steps|
  {
    if steps != [] {
      ClosedChannelsStay(Next(b, steps[0]), steps[1..], id);
    }
  }

  /** Closing closes the channels of exactly the subscribers of that moment, for good. */
  lemma ClosedIffSubscribed(steps: seq<Step>, i: nat, id: int)
    requires Possible(EMPTY_BUS, steps) && FirstClose(steps, i) && id in Run(EMPTY_BUS, steps).channels
    ensures Possible(EMPTY_BUS, steps[..i])
    ensures Run(EMPTY_BUS, steps).channels[id].closed <==> id in Run(EMPTY_BUS, steps[..i]).subscribers
  {
    assert steps == steps[..i] + ([steps[i]] + steps[i + 1..]);
    RunSplits(EMPTY_BUS, steps[..i], [steps[i]] + steps[i + 1..]);
    var before := Run(EMPTY_BUS, steps[..i]);
    assert ([steps[i]] + steps[i + 1..])[1..] == steps[i + 1..];
    RunKeeps(EMPTY_BUS, steps[..i]);
    FinalErrorIsFirst(EMPTY_BUS, steps[..i]);
    assert forall k | k in before.channels :: ChannelOk(before, k);
    ClosedChannelsStay(Next(before, steps[i]), steps[i + 1..], id);
  }

  /** A channel without a subscriber is sent nothing more, whatever happens. */
  lemma {:induction false} OnlySubscribersAreSent(b: Bus, steps: seq<Step>, id: int)
    requires Possible(b, steps) && Inv(b) && id in b.channels && id !in b.subscribers
    ensures id in Run(b, steps).channels && id !in Run(b, steps).subscribers
    ensures Stream(Run(b, steps).channels[id]) == Stream(b.channels[id])
    decreases |steps|
  {
    if steps != [] {
      StepKeeps(b, steps[0]);
      if steps[0].Receive? {
        ReceiveKeeps(b, steps[0].id);
      }
      OnlySubscribersAreSent(Next(b, steps[0]), steps[1..], id);
    }
  }

  /** Once unsubscribed, a reader gets no more than its channel already holds. */
  lemma UnsubscribedGetsNoMore(b: Bus, id: int, steps: seq<Step>)
    requires Inv(b) && b.sending.Idle? && id in b.channels && Possible(Next(b, Unsubscribe(id)), steps)
    ensures id in Run(Next(b, Unsubscribe(id)), steps).channels
    ensures Stream(Run(Next(b, Unsubscribe(id)), steps).channels[id]) == Stream(b.channels[id])
  {
    StepKeeps(b, Unsubscribe(id));
    OnlySubscribersAreSent(Next(b, Unsubscribe(id)), steps, id);
  }

  /** No subscriber's channel ever holds more than 256 events. */
  lemma {:induction false} QueuesAreBounded(b: Bus, steps: seq<Step>, id: int)
    requires Possible(b, steps) && forall k | k in b.channels :: |b.channels[k].queue| <= 256
    ensures id in Run(b, steps).channels ==> |Run(b, steps).channels[id].queue| <= 256
    decreases |steps|
  {
    if steps != [] {
      QueuesAreBounded(Next(b, steps[0]), steps[1..], id);
    }
  }

  // ---------- The locked methods ----------

  /** What Publish leaves when nobody receives in between: every subscriber's queue gets the event. */
  function PublishAll(b: Bus, e: Event): Bus {
    if b.closed then b
    else
      b.(buffer := b.buffer + [e],
         channels := map id | id in b.channels ::
           if id in b.subscribers then Queued(b.channels[id], e) else b.channels[id])
  }

  /** The bus once every pending subscriber has been served. */
  function Served(b: Bus): Bus
    requires b.sending.Sending?
  {
    b.(sending := Sending(b.sending.event, {}),
       channels := map id | id in b.channels ::
         if id in b.sending.pending then Queued(b.channels[id], b.sending.event) else b.channels[id])
  }

  lemma ServeOne(b: Bus, id: int)
    requires Enabled(b, Send(id))
    ensures Served(Next(b, Send(id))) == Served(b)
  {
    var n := Next(b, Send(id));
    assert Served(n).channels.Keys == Served(b).channels.Keys;
    forall k | k in b.channels ensures Served(n).channels[k] == Served(b).channels[k] {
    }
  }

  /** Sending in any order serves every pending subscriber once. */
  lemma {:induction false} SendsInAnyOrder(b: Bus, order: seq<int>)
    requires b.sending.Sending? && b.sending.pending <= b.channels.Keys
    requires (set id | id in order) == b.sending.pending
    requires forall i, j | 0 <= i < j < |order| :: order[i] != order[j]
    requires forall id | id in b.sending.pending :: |b.channels[id].queue| < CHANNEL_CAPACITY
    ensures Possible(b, Sends(order)) && Run(b, Sends(order)) == Served(b)
    decreases |order|
  {
    if order == [] {
      assert Served(b).channels == b.channels;
    } else {
      assert order[0] in order;
      var n := Next(b, Send(order[0]));
      ServeOne(b, order[0]);
      assert (set id | id in order[1..]) == n.sending.pending by {
        assert order == [order[0]] + order[1..];
      }
      assert Sends(order)[1..] == Sends(order[1..]);
      SendsInAnyOrder(n, order[1..]);
    }
  }

  /** An uninterrupted publication, in whatever order it visits the subscribers, is one broadcast. */
  lemma PublishIsBroadcast(b: Bus, e: Event, order: seq<int>)
    requires Inv(b) && b.sending.Idle? && !b.closed
    requires (set id | id in order) == b.subscribers
    requires forall i, j | 0 <= i < j < |order| :: order[i] != order[j]
    requires forall id | id in b.subscribers :: |b.channels[id].queue| < CHANNEL_CAPACITY
    ensures Possible(Next(b, BeginPublish(e)), Sends(order))
    ensures var sent := Run(Next(b, BeginPublish(e)), Sends(order));
      Enabled(sent, EndPublish) && Next(sent, EndPublish) == PublishAll(b, e)
  {
    SendsInAnyOrder(Next(b, BeginPublish(e)), order);
  }

  /** On a closed bus a publication does nothing, locked or in steps. */
  lemma ClosedBusPublishesNothing(b: Bus, e: Event)
    requires b.closed && b.sending.Idle?
    ensures PublishAll(b, e) == b && Next(b, BeginPublish(e)) == b
  {
  }

  function Sends(order: seq<int>): seq<Step> { seq(|order|, i requires 0 <= i < |order| => Send(order[i])) }

  class EventBus {
    var buffer: seq<Event>
    var subscribers: set<int>
    var nextId: int
    var closed: bool
    var finalErr: Option<string>
    var channels: map<int, Channel>

    constructor ()
      ensures State() == EMPTY_BUS
    {
      buffer, subscribers, nextId, closed, finalErr, channels := [], {}, 0, false, None, map[];
    }

    /** The state between two locked sections. */
    function State(): Bus
      reads this
    {
      Bus(buffer, subscribers, nextId, closed, finalErr, channels, Idle)
    }

    /** The lock is held throughout; a full channel would block here, which is no state of this method. */
    method Publish(e: Event)
      requires subscribers <= channels.Keys
      modifies this
      ensures State() == PublishAll(old(State()), e)
      ensures old(closed) ==> State() == old(State())
      ensures !old(closed) ==> buffer == old(buffer) + [e]
    {
      if closed {
        return;
      }
      buffer := buffer + [e];
      var pending := subscribers;
      while pending != {}
        invariant pending <= subscribers && subscribers == old(subscribers) && subscribers <= channels.Keys
        invariant buffer == old(buffer) + [e] && nextId == old(nextId) && closed == old(closed)
          && finalErr == old(finalErr)
        invariant channels == map id | id in old(channels) ::
          if id in subscribers - pending then Queued(old(channels)[id], e) else old(channels)[id]
        decreases pending
      {
        var id := AnyMember(pending);
        channels := channels[id := Queued(channels[id], e)];
        pending := pending - {id};
      }
    }

    method SubscribeLive() returns (id: int)
      modifies this
      ensures id == old(nextId)
      ensures State() == Next(old(State()), Subscribe)
    {
      id := nextId;
      nextId := nextId + 1;
      channels := channels[id := Channel(|buffer|, [], [], false)];
      subscribers := subscribers + {id};
    }

    method UnsubscribeLive(id: int)
      modifies this
      ensures State() == Next(old(State()), Unsubscribe(id))
    {
      subscribers := subscribers - {id};
    }

    method CloseBus(err: Option<string>)
      requires subscribers <= channels.Keys
      modifies this
      ensures State() == Next(old(State()), Close(err))
      ensures closed && finalErr == if old(closed) then old(finalErr) else err
      ensures !old(closed) ==> forall id | id in old(subscribers) :: channels[id].closed
    {
      if closed {
        return;
      }
      closed := true;
      finalErr := err;
      var pending := subscribers;
      while pending != {}
        invariant pending <= subscribers && subscribers == old(subscribers) && subscribers <= channels.Keys
        invariant buffer == old(buffer) && nextId == old(nextId) && closed && finalErr == err
        invariant channels == map id | id in old(channels) ::
          if id in subscribers - pending then old(channels)[id].(closed := true) else old(channels)[id]
        decreases pending
      {
        var id := AnyMember(pending);
        channels := channels[id := channels[id].(closed := true)];
        pending := pending - {id};
      }
      subscribers := {};
    }

    /** The snapshot and the registration under one lock; no live channel when the bus is closed. */
    method ReplaySnapshot() returns (snapshot: seq<Event>, live: Option<int>, err: Option<string>)
      modifies this
      ensures snapshot == old(buffer)
      ensures live == if old(closed) then None else Some(old(nextId))
      ensures err == if old(closed) then old(finalErr) else None
      ensures State() == Next(old(State()), Replay)
    {
      snapshot := buffer;
      if closed {
        return snapshot, None, finalErr;
      }
      var id := nextId;
      nextId := nextId + 1;
      channels := channels[id := Channel(0, snapshot, [], false)];
      subscribers := subscribers + {id};
      return snapshot, Some(id), None;
    }

    /** One turn of the live loop: the next event, or the final error once the channel is closed and drained. */
    method ReceiveLive(id: int) returns (event: Option<Event>, done: bool, err: Option<string>)
      requires id in channels && (channels[id].queue != [] || channels[id].closed)
      modifies this
      ensures done <==> old(channels)[id].queue == []
      ensures !done ==>
        event == Some(old(channels)[id].queue[0]) && err == None && State() == Next(old(State()), Receive(id))
      ensures done ==> event == None && err == finalErr && State() == old(State())
    {
      var c := channels[id];
      if c.queue == [] {
        return None, true, finalErr;
      }
      event, done, err := Some(c.queue[0]), false, None;
      channels := channels[id := c.(received := c.received + [c.queue[0]], queue := c.queue[1..])];
    }
  }
}
