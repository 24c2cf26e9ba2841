/** `EventHolder`: the buffer that receives timeline events, drops the ones
    it has seen before and either shows them at once (sorted into the
    visible list) or holds them back in an arrival-ordered queue until it is
    flushed. Every operation is a transition from one immutable `Holder` to
    the next. */
module EventHolder {
  import opened Events
  import opened SortedInsert

  /** What an observer outside the holder can see happen, in order.
      `OnQueue` is a call of the `on_queue` callback together with what the
      holder looked like when the callback ran: whether the event's id was
      already recorded as seen, and how many events were queued.
      `WillChange` is the explicit `objectWillChange.send()` of `flush`. */
  datatype Notice =
    | OnQueue(ev: Event, idSeenAtCall: bool, queuedAtCall: nat)
    | WillChange

  /** The holder's state. `seen` is the private `has_event` set, `events`
      the visible list, `incoming` the pending queue, `shouldQueue` the mode
      flag, `onQueue` whether an `on_queue` callback is installed, and
      `notices` everything observers have been told so far. */
  datatype Holder = Holder(
    seen: set<string>,
    events: seq<Event>,
    incoming: seq<Event>,
    shouldQueue: bool,
    onQueue: bool,
    notices: seq<Notice>)

  /** The result of `insert`: the next state and the returned `Bool`. */
  datatype Inserted = Inserted(holder: Holder, ok: bool)

  /** `init()`: empty, immediate mode, no callback. */
  function Init(): (h: Holder)
    ensures h.seen == {} && h.events == [] && h.incoming == []
    ensures !h.shouldQueue && !h.onQueue && h.notices == []
  {
    Holder({}, [], [], false, false, [])
  }

  /** `init(on_queue:)`: empty, immediate mode, callback installed. */
  function InitWithOnQueue(): (h: Holder)
    ensures h.seen == {} && h.events == [] && h.incoming == []
    ensures !h.shouldQueue && h.onQueue && h.notices == []
  {
    Holder({}, [], [], false, true, [])
  }

  /** `init(events:incoming:)`: seeded lists, immediate mode, no callback,
      and an EMPTY seen-set, so the seeded ids are not deduplicated against. */
  function InitSeeded(events: seq<Event>, incoming: seq<Event>): (h: Holder)
    ensures h.seen == {}
    ensures h.events == events && h.incoming == incoming
    ensures !h.shouldQueue && !h.onQueue && h.notices == []
  {
    Holder({}, events, incoming, false, false, [])
  }

  /** `set_should_queue`: changes the mode flag and nothing else. */
  function SetShouldQueue(h: Holder, val: bool): (r: Holder)
    ensures r.shouldQueue == val
    ensures r.seen == h.seen && r.events == h.events && r.incoming == h.incoming
    ensures r.onQueue == h.onQueue && r.notices == h.notices
  {
    h.(shouldQueue := val)
  }

  /** `queued`: how many events are held back. */
  function Queued(h: Holder): (n: nat)
    ensures n == |h.incoming|
  {
    |h.incoming|
  }

  /** `all_events`: the visible events followed by the held-back ones. */
  function AllEvents(h: Holder): (all: seq<Event>)
    ensures |all| == |h.events| + |h.incoming|
    ensures all[..|h.events|] == h.events && all[|h.events|..] == h.incoming
  {
    h.events + h.incoming
  }

  /** `filter`: prunes both lists with the same predicate, keeping order,
      and leaves the seen-set, the mode and the callback alone. */
  function Filter(h: Holder, isIncluded: Event -> bool): (r: Holder)
    ensures r.seen == h.seen && r.shouldQueue == h.shouldQueue
    ensures r.onQueue == h.onQueue && r.notices == h.notices
    ensures forall e :: multiset(r.events)[e] == if isIncluded(e) then multiset(h.events)[e] else 0
    ensures forall e :: multiset(r.incoming)[e] == if isIncluded(e) then multiset(h.incoming)[e] else 0
  {
    KeepCounts(h.events, isIncluded);
    KeepCounts(h.incoming, isIncluded);
    h.(events := Keep(h.events, isIncluded), incoming := Keep(h.incoming, isIncluded))
  }

  /** `insert_immediate`: a seen id is refused with no effect; otherwise the
      id is recorded, then the helper sorts the event into the visible list
      and its answer is the result. The queue and the notices never change. */
  function InsertImmediate(h: Holder, ev: Event, ins: Inserter): (r: Inserted)
    requires Honours(ins)
    ensures ev.id in h.seen ==> r == Inserted(h, false)
    ensures ev.id !in h.seen ==> r.holder.seen == h.seen + {ev.id}
    ensures r.holder.incoming == h.incoming && r.holder.notices == h.notices
    ensures r.holder.shouldQueue == h.shouldQueue && r.holder.onQueue == h.onQueue
    ensures ev.id !in h.seen ==> r.ok == ins(h.events, ev).ok && r.holder.events == ins(h.events, ev).events
    ensures r.ok ==> InsertedAt(h.events, ev, r.holder.events)
    ensures r.ok ==> multiset(r.holder.events) == multiset(h.events) + multiset{ev}
    ensures !r.ok ==> r.holder.events == h.events
  {
    if ev.id in h.seen then Inserted(h, false)
    else
      var placed := ins(h.events, ev);
      LawfulCounts(h.events, ev, placed);
      Inserted(h.(seen := h.seen + {ev.id}, events := placed.events), placed.ok)
  }

  /** `insert_queued`: a seen id is refused with no effect; otherwise the
      callback (when installed) is called with the event before anything is
      recorded, then the id is recorded and the event appended to the queue,
      and the result is `true`. The visible list never changes. */
  function InsertQueued(h: Holder, ev: Event): (r: Inserted)
    ensures ev.id in h.seen ==> r == Inserted(h, false)
    ensures ev.id !in h.seen ==>
      && r.ok
      && r.holder.seen == h.seen + {ev.id}
      && r.holder.incoming == h.incoming + [ev]
      && r.holder.notices == h.notices + (if h.onQueue then [OnQueue(ev, false, |h.incoming|)] else [])
    ensures r.holder.events == h.events
    ensures r.holder.shouldQueue == h.shouldQueue && r.holder.onQueue == h.onQueue
  {
    if ev.id in h.seen then Inserted(h, false)
    else
      var called := if h.onQueue then [OnQueue(ev, ev.id in h.seen, |h.incoming|)] else [];
      var h1 := h.(notices := h.notices + called);
      var h2 := h1.(seen := h1.seen + {ev.id});
      Inserted(h2.(incoming := h2.incoming + [ev]), true)
  }

  /** `insert`: the mode flag decides which list may change. In both modes
      a seen id is refused with no effect at all, and afterwards the id is
      always seen. */
  function Insert(h: Holder, ev: Event, ins: Inserter): (r: Inserted)
    requires Honours(ins)
    ensures ev.id in h.seen ==> r == Inserted(h, false)
    ensures r.holder.seen == h.seen + {ev.id}
    ensures r.holder.shouldQueue == h.shouldQueue && r.holder.onQueue == h.onQueue
    ensures h.shouldQueue ==> r.holder.events == h.events
    ensures !h.shouldQueue ==> r.holder.incoming == h.incoming && r.holder.notices == h.notices
    ensures h.shouldQueue && ev.id !in h.seen ==> r.ok && r.holder.incoming == h.incoming + [ev]
    ensures !h.shouldQueue && ev.id !in h.seen ==> r.ok == ins(h.events, ev).ok && r.holder.events == ins(h.events, ev).events
    ensures r.ok ==> ev.id !in h.seen && multiset(AllEvents(r.holder)) == multiset(AllEvents(h)) + multiset{ev}
    ensures !r.ok ==> AllEvents(r.holder) == AllEvents(h)
  {
    if h.shouldQueue then InsertQueued(h, ev) else InsertImmediate(h, ev, ins)
  }

  /** The outcome of the loop in `flush`: the visible list after every
      helper call, and whether any call answered `true`. */
  datatype Merged = Merged(events: seq<Event>, changed: bool)

  /** The loop of `flush`: the helper is called on each pending event in
      arrival order, and `changed` records whether any call said `true`.
      Every call either leaves the list alone or adds its event, so the
      list only grows, and grows exactly when `changed` is set. */
  function MergeIncoming(events: seq<Event>, pending: seq<Event>, ins: Inserter): (r: Merged)
    requires Honours(ins)
    ensures r.changed <==> |r.events| > |events|
    ensures |events| <= |r.events| <= |events| + |pending|
    ensures multiset(events) <= multiset(r.events) <= multiset(events) + multiset(pending)
    decreases |pending|
  {
    if |pending| == 0 then Merged(events, false)
    else
      var ev, later := pending[0], pending[1..];
      var placed := ins(events, ev);
      LawfulCounts(events, ev, placed);
      var rest := MergeIncoming(placed.events, later, ins);
      assert multiset(pending) == multiset{ev} + multiset(later) by {
        assert pending == [ev] + later;
      }
      BagsBetween(multiset(events), multiset(placed.events), multiset(rest.events), multiset{ev}, multiset(later));
      Merged(rest.events, placed.ok || rest.changed)
  }

  /** Two steps that each keep everything and add at most a given bag keep
      everything and add at most both bags. */
  lemma BagsBetween<T>(a: multiset<T>, b: multiset<T>, c: multiset<T>, x: multiset<T>, y: multiset<T>)
    requires a <= b <= a + x
    requires b <= c <= b + y
    ensures a <= c <= a + (x + y)
  {
    forall t
      ensures a[t] <= c[t] <= (a + (x + y))[t]
    {
      assert a[t] <= b[t] <= a[t] + x[t];
      assert b[t] <= c[t] <= b[t] + y[t];
    }
  }

  /** `flush`: an empty queue is a no-op. Otherwise the queue is merged into
      the visible list and emptied, and observers are told once, exactly
      when the visible list gained something. The seen-set is untouched. */
  function Flush(h: Holder, ins: Inserter): (r: Holder)
    requires Honours(ins)
    ensures h.incoming == [] ==> r == h
    ensures r.incoming == []
    ensures h.incoming != [] ==> r.events == MergeIncoming(h.events, h.incoming, ins).events
    ensures r.seen == h.seen && r.shouldQueue == h.shouldQueue && r.onQueue == h.onQueue
    ensures multiset(h.events) <= multiset(r.events) <= multiset(h.events) + multiset(h.incoming)
    ensures r.notices == h.notices || r.notices == h.notices + [WillChange]
    ensures r.notices == h.notices + [WillChange] <==> |r.events| > |h.events|
  {
    if |h.incoming| == 0 then h
    else
      var merged := MergeIncoming(h.events, h.incoming, ins);
      var sent := if merged.changed then [WillChange] else [];
      h.(events := merged.events, notices := h.notices + sent, incoming := [])
  }
}
