/** The runtime event broker: slow subscribers lose events only behind a resync marker. */
module EventBroker {
  import opened Bytes

  datatype Event = Event(sequence: nat, kind: string, venue: string, intentId: string, at: int)

  /** A subscriber's buffered channel, with what its consumer has received so far and where it started. */
  datatype Channel = Channel(capacity: nat, cursor: nat, consumed: seq<Event>, queue: seq<Event>)

  /** The broker, with the log of all events published; the current sequence number is the log's length. */
  datatype State = State(subscribers: map<nat, Channel>, nextId: nat, log: seq<Event>)

  function Stream(c: Channel): seq<Event> { c.consumed + c.queue }

  function Marker(e: Event): Event { Event(e.sequence, "resync.required", "", "", e.at) }

  predicate IsResync(e: Event) { e.kind == "resync.required" }

  // ------------------------------------------------------------------- step relations

  /** A consumer receives some of its queue, in front-to-back order. */
  ghost predicate Received(c: Channel, c': Channel)
  {
    SameOwner(c, c') && Stream(c') == Stream(c)
  }

  /** `part` is what `whole` holds at the positions `picks`, in the same order. */
  ghost predicate Picks(part: seq<Event>, whole: seq<Event>, picks: seq<nat>)
  {
    && |picks| == |part|
    && (forall i :: 0 <= i < |picks| ==> picks[i] < |whole| && part[i] == whole[picks[i]])
    && (forall i, j :: 0 <= i < j < |picks| ==> picks[i] < picks[j])
  }

  /** Some of the entries, in their order. */
  ghost predicate Selected(part: seq<Event>, whole: seq<Event>) { exists picks :: Picks(part, whole, picks) }

  ghost predicate SameOwner(c: Channel, c': Channel)
  {
    c'.capacity == c.capacity && c'.cursor == c.cursor && c.consumed <= c'.consumed
  }

  /** Unreceived entries may be gone, the rest is as it was. */
  ghost predicate Thinned(c: Channel, c': Channel) { SameOwner(c, c') && Selected(Stream(c'), Stream(c)) }

  lemma DropPick(part: seq<Event>, whole: seq<Event>, picks: seq<nat>, k: nat)
    requires Picks(part, whole, picks) && k < |part|
    ensures Picks(part[..k] + part[k + 1..], whole, picks[..k] + picks[k + 1..])
  {
    var rest := picks[..k] + picks[k + 1..];
    forall i | 0 <= i < |rest| ensures rest[i] == picks[if i < k then i else i + 1] { }
  }

  /** What a publication does to one channel, with its consumer receiving all the while: the event is queued behind the
      whole stream; or, only when the queue was full, some unreceived events give way to a marker at the event's number. */
  ghost predicate Delivered(c: Channel, c': Channel, e: Event)
  {
    && SameOwner(c, c') && |c'.queue| <= c.capacity
    && (|| Stream(c') == Stream(c) + [e]
        || (&& |c.queue| == c.capacity && |Stream(c')| > 0 && Stream(c')[|Stream(c')| - 1] == Marker(e)
            && Selected(Stream(c')[..|Stream(c')| - 1], Stream(c))))
  }

  datatype Action = Publish(event: Event) | Subscribe(buffer: int) | Unsubscribe(id: nat) | Receive(id: nat)

  ghost predicate Next(s: State, action: Action, s': State)
  {
    match action
    case Publish(e) =>
      && e.sequence == |s.log| + 1 && e.kind != ""
      && s'.log == s.log + [e] && s'.nextId == s.nextId && s'.subscribers.Keys == s.subscribers.Keys
      && forall id :: id in s.subscribers ==> Delivered(s.subscribers[id], s'.subscribers[id], e)
    case Subscribe(buffer) =>
      var id := s.nextId + 1;
      s' == State(s.subscribers[id := Channel(if buffer < 1 then 1 else buffer, |s.log|, [], [])], id, s.log)
    case Unsubscribe(id) => s' == s.(subscribers := s.subscribers - {id})
    case Receive(id) =>
      && id in s.subscribers && id in s'.subscribers && Received(s.subscribers[id], s'.subscribers[id])
      && s' == s.(subscribers := s.subscribers[id := s'.subscribers[id]])
  }

  // ------------------------------------------------------------------------ soundness

  /** Event number `n` is in the stream, or a marker there stands for it. */
  ghost predicate Covered(log: seq<Event>, stream: seq<Event>, n: nat)
    requires 0 < n <= |log|
  {
    exists i :: 0 <= i < |stream| && (stream[i] == log[n - 1] || (IsResync(stream[i]) && stream[i].sequence >= n))
  }

  ghost predicate Increasing(stream: seq<Event>)
  {
    forall i, j :: 0 <= i < j < |stream| ==> stream[i].sequence < stream[j].sequence
  }

  /** Every entry is an event published after the cursor, or a marker numbered like one. */
  ghost predicate Authentic(log: seq<Event>, stream: seq<Event>, cursor: nat)
  {
    forall i :: 0 <= i < |stream| ==>
      cursor < stream[i].sequence <= |log| && (stream[i] == log[stream[i].sequence - 1] || IsResync(stream[i]))
  }

  /** The stream is up to date: it ends at the last event published since the cursor. */
  ghost predicate Current(log: seq<Event>, stream: seq<Event>, cursor: nat)
  {
    cursor < |log| ==> |stream| > 0 && stream[|stream| - 1].sequence == |log|
  }

  ghost predicate ChannelSound(log: seq<Event>, c: Channel)
  {
    && c.capacity >= 1 && |c.queue| <= c.capacity && c.cursor <= |log|
    && Increasing(Stream(c)) && Authentic(log, Stream(c), c.cursor) && Current(log, Stream(c), c.cursor)
    && forall n {:trigger Covered(log, Stream(c), n)} :: c.cursor < n <= |log| ==> Covered(log, Stream(c), n)
  }

  ghost predicate Numbered(log: seq<Event>) { forall i :: 0 <= i < |log| ==> log[i].sequence == i + 1 }

  ghost predicate Sound(s: State)
  {
    && Numbered(s.log)
    && (forall id :: id in s.subscribers ==> 0 < id <= s.nextId && ChannelSound(s.log, s.subscribers[id]))
  }

  lemma CoveredGrows(log: seq<Event>, e: Event, stream: seq<Event>, added: Event, n: nat)
    requires 0 < n <= |log| && Covered(log, stream, n)
    ensures Covered(log + [e], stream + [added], n)
  {
    var i :| 0 <= i < |stream| && (stream[i] == log[n - 1] || (IsResync(stream[i]) && stream[i].sequence >= n));
    assert (stream + [added])[i] == stream[i];
  }

  /** The event queued behind the stream. */
  lemma AppendSound(log: seq<Event>, e: Event, c: Channel, c': Channel)
    requires ChannelSound(log, c) && e.sequence == |log| + 1 && c'.cursor == c.cursor && c'.capacity == c.capacity
    requires Stream(c') == Stream(c) + [e] && |c'.queue| <= c.capacity
    ensures ChannelSound(log + [e], c')
  {
    forall n | c'.cursor < n <= |log + [e]| ensures Covered(log + [e], Stream(c'), n) {
      if n <= |log| {
        CoveredGrows(log, e, Stream(c), e, n);
      } else {
        assert Stream(c')[|Stream(c)|] == (log + [e])[n - 1];
      }
    }
  }

  /** Unreceived events replaced by a marker. */
  lemma ResyncSound(log: seq<Event>, e: Event, c: Channel, c': Channel, kept: seq<Event>)
    requires ChannelSound(log, c) && e.sequence == |log| + 1 && c'.cursor == c.cursor && c'.capacity == c.capacity
    requires Selected(kept, Stream(c)) && Stream(c') == kept + [Marker(e)] && |c'.queue| <= c.capacity
    ensures ChannelSound(log + [e], c')
  {
    var picks :| Picks(kept, Stream(c), picks);
    var stream := Stream(c');
    forall i | 0 <= i < |kept| ensures stream[i] == Stream(c)[picks[i]] { }
    assert stream[|kept|] == Marker(e);
    forall n | c'.cursor < n <= |log + [e]| ensures Covered(log + [e], stream, n) {
      assert IsResync(stream[|kept|]);
    }
  }

  lemma DeliveredSound(log: seq<Event>, e: Event, c: Channel, c': Channel)
    requires ChannelSound(log, c) && Delivered(c, c', e) && e.sequence == |log| + 1
    ensures ChannelSound(log + [e], c')
  {
    if Stream(c') == Stream(c) + [e] {
      AppendSound(log, e, c, c');
    } else {
      ResyncSound(log, e, c, c', Stream(c')[..|Stream(c')| - 1]);
    }
  }

  lemma PublishSound(s: State, e: Event, s': State)
    requires Sound(s) && Next(s, Publish(e), s')
    ensures Sound(s')
  {
    forall id | id in s'.subscribers ensures ChannelSound(s'.log, s'.subscribers[id]) {
      assert ChannelSound(s.log, s.subscribers[id]);
      DeliveredSound(s.log, e, s.subscribers[id], s'.subscribers[id]);
    }
  }

  lemma FreshSound(log: seq<Event>, capacity: nat)
    requires capacity >= 1
    ensures ChannelSound(log, Channel(capacity, |log|, [], []))
  {
    assert Stream(Channel(capacity, |log|, [], [])) == [];
  }

  lemma ReceivedSound(log: seq<Event>, c: Channel, c': Channel)
    requires ChannelSound(log, c) && Received(c, c')
    ensures ChannelSound(log, c')
  {
    assert |c'.consumed| + |c'.queue| == |Stream(c)|;
  }

  lemma NextSound(s: State, action: Action, s': State)
    requires Sound(s) && Next(s, action, s')
    ensures Sound(s')
  {
    match action
    case Publish(e) => PublishSound(s, e, s');
    case Subscribe(buffer) => FreshSound(s.log, if buffer < 1 then 1 else buffer);
    case Unsubscribe(_) =>
    case Receive(id) =>
      assert ChannelSound(s.log, s.subscribers[id]);
      ReceivedSound(s.log, s.subscribers[id], s'.subscribers[id]);
  }

  /** A history of the broker from its creation: each state follows from the one before by its action. */
  ghost predicate History(states: seq<State>, actions: seq<Action>)
  {
    && |states| == |actions| + 1 && states[0] == State(map[], 0, [])
    && forall i :: 0 <= i < |actions| ==> Next(states[i], actions[i], states[i + 1])
  }

  /** No silent loss: at every point of every history, each live subscriber's stream strictly increases, ends at the
      last published event, holds nothing but published events and markers, and covers every event since its cursor. */
  lemma {:induction false} NoSilentLoss(states: seq<State>, actions: seq<Action>)
    requires History(states, actions)
    ensures Sound(states[|actions|])
  {
    if |actions| > 0 {
      var n := |actions| - 1;
      NoSilentLoss(states[..n + 1], actions[..n]);
      NextSound(states[n], actions[n], states[n + 1]);
    }
  }

  /** In plain terms: at every point of every history, an event since a live subscriber's cursor that is not in its
      stream has behind it, with its own number or a higher one, an entry of type resync.required. */
  lemma LossIsAnnounced(states: seq<State>, actions: seq<Action>, id: nat, n: nat)
    requires History(states, actions) && id in states[|actions|].subscribers
    requires states[|actions|].subscribers[id].cursor < n <= |states[|actions|].log|
    ensures var s := states[|actions|];
            var stream := s.subscribers[id].consumed + s.subscribers[id].queue;
            s.log[n - 1] !in stream ==> exists i :: 0 <= i < |stream| && stream[i].kind == "resync.required" && stream[i].sequence >= n
  {
    NoSilentLoss(states, actions);
    var s := states[|actions|];
    assert ChannelSound(s.log, s.subscribers[id]);
    assert Covered(s.log, Stream(s.subscribers[id]), n);
  }

  /** And a stream without an entry of that type is exactly the events published since the cursor. */
  lemma UnannouncedIsComplete(states: seq<State>, actions: seq<Action>, id: nat)
    requires History(states, actions) && id in states[|actions|].subscribers
    requires var c := states[|actions|].subscribers[id]; forall i :: 0 <= i < |c.consumed + c.queue| ==> (c.consumed + c.queue)[i].kind != "resync.required"
    ensures var s := states[|actions|];
            var c := s.subscribers[id];
            c.cursor <= |s.log| && c.consumed + c.queue == s.log[c.cursor..]
  {
    NoSilentLoss(states, actions);
    var s := states[|actions|];
    assert ChannelSound(s.log, s.subscribers[id]);
    LosslessWithoutMarkers(s.log, s.subscribers[id]);
  }

  /** A consumer that has never been overrun, and reads its queue out, has received exactly the events since its cursor. */
  lemma LosslessWithoutMarkers(log: seq<Event>, c: Channel)
    requires ChannelSound(log, c) && NoMarkers(Stream(c)) && Numbered(log)
    ensures Stream(c) == log[c.cursor..]
  {
    var stream := Stream(c);
    AllGenuine(log, stream, c.cursor);
    forall k | c.cursor <= k < |log| ensures log[k] in stream {
      CoveredIsPresent(log, stream, k + 1);
    }
    InOrder(log, stream, c.cursor);
  }

  ghost predicate NoMarkers(stream: seq<Event>) { forall i :: 0 <= i < |stream| ==> !IsResync(stream[i]) }

  /** The published events from the cursor on. */
  ghost predicate Genuine(log: seq<Event>, stream: seq<Event>, cursor: nat)
  {
    forall i :: 0 <= i < |stream| ==> cursor < stream[i].sequence <= |log| && stream[i] == log[stream[i].sequence - 1]
  }

  lemma AllGenuine(log: seq<Event>, stream: seq<Event>, cursor: nat)
    requires Authentic(log, stream, cursor) && NoMarkers(stream)
    ensures Genuine(log, stream, cursor)
  {
  }

  lemma CoveredIsPresent(log: seq<Event>, stream: seq<Event>, n: nat)
    requires 0 < n <= |log| && Covered(log, stream, n) && NoMarkers(stream)
    ensures log[n - 1] in stream
  {
  }

  ghost predicate Complete(log: seq<Event>, stream: seq<Event>, cursor: nat)
  {
    forall k :: cursor <= k < |log| ==> log[k] in stream
  }

  /** A strictly increasing stream of genuine events that misses none is the log itself. */
  lemma InOrder(log: seq<Event>, stream: seq<Event>, cursor: nat)
    requires cursor <= |log| && Numbered(log) && Increasing(stream) && Genuine(log, stream, cursor) && Complete(log, stream, cursor)
    ensures stream == log[cursor..]
  {
    if |stream| > 0 { AtLeastOffset(stream, cursor, |stream| - 1); }
    if cursor < |log| { Position(log, stream, cursor, |log| - 1); }
    forall i | 0 <= i < |stream| ensures stream[i] == log[cursor..][i] {
      Position(log, stream, cursor, cursor + i);
    }
  }

  lemma {:induction false} AtLeastOffset(stream: seq<Event>, cursor: nat, i: nat)
    requires Increasing(stream) && i < |stream| && stream[0].sequence > cursor
    ensures stream[i].sequence >= cursor + 1 + i
  {
    if i > 0 { AtLeastOffset(stream, cursor, i - 1); }
  }

  lemma {:induction false} Position(log: seq<Event>, stream: seq<Event>, cursor: nat, k: nat)
    requires cursor <= k < |log| && Numbered(log) && Increasing(stream) && Complete(log, stream, cursor)
    requires |stream| > 0 ==> stream[0].sequence > cursor
    ensures k - cursor < |stream| && stream[k - cursor] == log[k]
  {
    assert log[k] in stream;
    var i :| 0 <= i < |stream| && stream[i] == log[k];
    AtLeastOffset(stream, cursor, i);
    if k > cursor {
      Position(log, stream, cursor, k - 1);
      assert stream[k - 1 - cursor].sequence == k < stream[i].sequence;
      assert i > k - 1 - cursor;
    }
  }

  // ---------------------------------------------------------------------- the broker

  /** A publication under way: the subscribers in `rest` are yet to get the event. */
  ghost predicate Offered(before: map<nat, Channel>, after: map<nat, Channel>, rest: set<nat>, e: Event)
  {
    && after.Keys == before.Keys
    && (forall id :: id in rest && id in before ==> after[id] == before[id])
    && (forall id :: id in before && id !in rest ==> Delivered(before[id], after[id], e))
  }

  lemma OfferedMore(before: map<nat, Channel>, after: map<nat, Channel>, after': map<nat, Channel>, rest: set<nat>, id: nat, e: Event)
    requires Offered(before, after, rest, e) && id in rest && id in after && id in after'
    requires after' == after[id := after'[id]] && Delivered(after[id], after'[id], e)
    ensures Offered(before, after', rest - {id}, e)
  {
  }

  lemma OfferedAll(s: State, s': State, e: Event)
    requires Offered(s.subscribers, s'.subscribers, {}, e) && e.sequence == |s.log| + 1 && e.kind != ""
    requires s'.log == s.log + [e] && s'.nextId == s.nextId
    ensures Next(s, Publish(e), s')
  {
  }

  class Broker {
    var subscribers: map<nat, Channel>
    var nextId: nat
    var sequence: nat
    ghost var log: seq<Event>

    ghost function Contents(): State
      reads this
    {
      State(subscribers, nextId, log)
    }

    ghost predicate Valid()
      reads this
    {
      sequence == |log| && Sound(Contents())
    }

    constructor ()
      ensures Valid() && Contents() == State(map[], 0, [])
    {
      subscribers, nextId, sequence, log := map[], 0, 0, [];
    }

    /** The consumer of `id` receives as much of its queue as it pleases. */
    method Interfere(id: nat)
      requires id in subscribers
      modifies this`subscribers
      ensures id in subscribers && subscribers == old(subscribers)[id := subscribers[id]]
      ensures Received(old(subscribers)[id], subscribers[id])
    {
      var c := subscribers[id];
      var n: int := *;
      if 0 <= n <= |c.queue| {
        subscribers := subscribers[id := c.(consumed := c.consumed + c.queue[..n], queue := c.queue[n..])];
        assert Stream(subscribers[id]) == Stream(c);
      }
    }

    /** The drain loop: the broker and the consumer take from the front of the queue until the broker finds it empty.
        Nothing is added meanwhile, so it ends. */
    method Drain(id: nat)
      requires id in subscribers
      modifies this`subscribers
      ensures id in subscribers && subscribers == old(subscribers)[id := subscribers[id]]
      ensures Thinned(old(subscribers)[id], subscribers[id]) && subscribers[id].queue == []
    {
      ghost var before := subscribers[id];
      ghost var picks: seq<nat> := seq(|Stream(before)|, i => i);
      var drained := false;
      while !drained
        invariant id in subscribers && subscribers == old(subscribers)[id := subscribers[id]]
        invariant SameOwner(before, subscribers[id]) && Picks(Stream(subscribers[id]), Stream(before), picks)
        invariant drained ==> subscribers[id].queue == []
        decreases !drained, |subscribers[id].queue|
      {
        Interfere(id);
        var c := subscribers[id];
        if c.queue == [] {
          drained := true;
        } else {
          ghost var k := |c.consumed|;
          DropPick(Stream(c), Stream(before), picks, k);
          subscribers := subscribers[id := c.(queue := c.queue[1..])];
          assert Stream(subscribers[id]) == Stream(c)[..k] + Stream(c)[k + 1..];
          picks := picks[..k] + picks[k + 1..];
        }
      }
    }

    /** One subscriber's share of a publication: a send that does not block, or else draining the queue and leaving a
        marker. The consumer may receive before each channel operation. */
    method Offer(id: nat, e: Event)
      requires id in subscribers && subscribers[id].capacity >= 1 && |subscribers[id].queue| <= subscribers[id].capacity
      modifies this`subscribers
      ensures id in subscribers && subscribers == old(subscribers)[id := subscribers[id]]
      ensures Delivered(old(subscribers)[id], subscribers[id], e)
    {
      Interfere(id);
      var c := subscribers[id];
      if |c.queue| < c.capacity {
        subscribers := subscribers[id := c.(queue := c.queue + [e])];
        assert Stream(subscribers[id]) == Stream(c) + [e];
      } else {
        Drain(id);
        Interfere(id);
        c := subscribers[id];
        if |c.queue| < c.capacity {
          subscribers := subscribers[id := c.(queue := c.queue + [Event(e.sequence, "resync.required", "", "", e.at)])];
          ghost var stream := Stream(subscribers[id]);
          assert stream == Stream(c) + [Marker(e)];
          assert stream[..|stream| - 1] == Stream(c);
        }
      }
    }

    /** `Publish`: an event without a type is ignored; `clock` stands in for a missing time. */
    method PublishEvent(kind: string, venue: string, intentId: string, at: int, clock: int)
      requires Valid()
      modifies this
      ensures Valid()
      ensures if kind == "" then Contents() == old(Contents())
              else var e := Event(old(sequence) + 1, kind, venue, intentId, if at == 0 then clock else at);
                   Next(old(Contents()), Publish(e), Contents())
    {
      if kind == "" { return; }
      ghost var before := Contents();
      sequence := sequence + 1;
      var e := Event(sequence, kind, venue, intentId, if at == 0 then clock else at);
      var rest := subscribers.Keys;
      while rest != {}
        invariant rest <= subscribers.Keys
        invariant nextId == before.nextId && log == before.log && sequence == |log| + 1 == e.sequence
        invariant Offered(before.subscribers, subscribers, rest, e)
      {
        var id :| id in rest;
        assert ChannelSound(before.log, before.subscribers[id]);
        ghost var offered := subscribers;
        Offer(id, e);
        OfferedMore(before.subscribers, offered, subscribers, rest, id, e);
        rest := rest - {id};
      }
      log := log + [e];
      OfferedAll(before, Contents(), e);
      PublishSound(before, e, Contents());
    }

    method SubscribeFrom(buffer: int) returns (id: nat, cursor: nat)
      requires Valid()
      modifies this
      ensures Valid() && Next(old(Contents()), Subscribe(buffer), Contents())
      ensures id !in old(subscribers) && id in subscribers && subscribers[id].cursor == cursor == sequence == old(sequence)
    {
      ghost var before := Contents();
      nextId := nextId + 1;
      id := nextId;
      subscribers := subscribers[id := Channel(if buffer < 1 then 1 else buffer, sequence, [], [])];
      cursor := sequence;
      NextSound(before, Subscribe(buffer), Contents());
    }

    method Cancel(id: nat)
      requires Valid()
      modifies this
      ensures Valid() && Next(old(Contents()), Unsubscribe(id), Contents()) && id !in subscribers
    {
      ghost var before := Contents();
      subscribers := subscribers - {id};
      NextSound(before, Unsubscribe(id), Contents());
    }
  }
}
