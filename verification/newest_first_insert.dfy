/** A reference sorted-insert helper that meets every assumption the holder's
    lemmas make: it refuses an id already in the list and otherwise puts the
    event in front of the first strictly older one, so the list reads
    newest-first and events with equal creation times keep their arrival
    order. It is a witness that the assumptions can be met together, and it
    drives the end-to-end timeline scenario below; it is not the body of
    `insert_uniq_sorted_event_created`, which is not part of this model. */
module NewestFirstInsert {
  import opened Events
  import opened SortedInsert
  import opened EventHolder

  /** The position of the first event strictly older than `t`, or the
      length when there is none. */
  function FirstOlder(s: seq<Event>, t: int): (i: nat)
    ensures i <= |s|
    ensures forall j :: 0 <= j < i ==> s[j].createdAt >= t
    ensures i < |s| ==> s[i].createdAt < t
  {
    if |s| == 0 || s[0].createdAt < t then 0 else 1 + FirstOlder(s[1..], t)
  }

  /** Putting `ev` at the position `FirstOlder` finds keeps a newest-first
      list newest-first. */
  lemma PlaceKeepsOrder(s: seq<Event>, ev: Event)
    ensures var i := FirstOlder(s, ev.createdAt);
      NewestFirst(s) ==> NewestFirst(s[..i] + [ev] + s[i..])
  {
    if !NewestFirst(s) {
      return;
    }
    var i := FirstOlder(s, ev.createdAt);
    var r := s[..i] + [ev] + s[i..];
    forall j, k | 0 <= j < k < |r|
      ensures r[j].createdAt >= r[k].createdAt
    {
      if k < i {
        assert r[j] == s[j] && r[k] == s[k];
      } else if k == i {
        assert r[k] == ev;
      } else if j < i {
        assert r[j] == s[j] && r[k] == s[k - 1];
        assert s[i].createdAt >= s[k - 1].createdAt;
      } else if j == i {
        assert r[j] == ev && r[k] == s[k - 1];
        assert s[i].createdAt >= s[k - 1].createdAt;
      } else {
        assert r[j] == s[j - 1] && r[k] == s[k - 1];
      }
    }
  }

  function PlaceNewestFirst(before: seq<Event>, ev: Event): (p: Placed)
    ensures Lawful(before, ev, p)
    ensures !p.ok <==> ev.id in IdBag(before)
    ensures NewestFirst(before) ==> NewestFirst(p.events)
  {
    if ev.id in Ids(before) then Placed(false, before)
    else
      var i := FirstOlder(before, ev.createdAt);
      PlaceKeepsOrder(before, ev);
      Placed(true, before[..i] + [ev] + before[i..])
  }

  /** The reference helper meets the call-site contract and both optional
      assumptions at once. */
  lemma PlaceNewestFirstMeetsAssumptions()
    ensures Honours(PlaceNewestFirst)
    ensures KeepsNewestFirst(PlaceNewestFirst)
    ensures AcceptsFresh(PlaceNewestFirst)
  {
  }

  /** The four events of the timeline scenario: any events with distinct
      ids created at 100, 50, 150 and 200. */
  ghost predicate ScenarioEvents(a: Event, b: Event, c: Event, d: Event)
  {
    && a.createdAt == 100 && b.createdAt == 50 && c.createdAt == 150 && d.createdAt == 200
    && a.id != b.id && a.id != c.id && a.id != d.id
    && b.id != c.id && b.id != d.id && c.id != d.id
  }

  /** Scenario, first part: a(100), b(50), c(150) inserted at once read
      c, a, b, and all three ids are seen. */
  lemma ScenarioImmediate(a: Event, b: Event, c: Event, d: Event)
    requires ScenarioEvents(a, b, c, d)
    ensures var h1 := Insert(InitWithOnQueue(), a, PlaceNewestFirst).holder;
      var h2 := Insert(h1, b, PlaceNewestFirst).holder;
      var h3 := Insert(h2, c, PlaceNewestFirst).holder;
      h3 == Holder({a.id, b.id, c.id}, [c, a, b], [], false, true, [])
  {
    FirstImmediate(a);
    SecondImmediate(Holder({a.id}, [a], [], false, true, []), a, b);
    ThirdImmediate(Holder({a.id, b.id}, [a, b], [], false, true, []), a, b, c);
  }

  lemma FirstImmediate(a: Event)
    ensures Insert(InitWithOnQueue(), a, PlaceNewestFirst).holder == Holder({a.id}, [a], [], false, true, [])
  {
    PlaceIntoEmpty(a);
    ImmediateStep(InitWithOnQueue(), a, [a]);
  }

  lemma SecondImmediate(h: Holder, a: Event, b: Event)
    requires h == Holder({a.id}, [a], [], false, true, [])
    requires a.id != b.id && a.createdAt >= b.createdAt
    ensures Insert(h, b, PlaceNewestFirst).holder == Holder({a.id, b.id}, [a, b], [], false, true, [])
  {
    PlaceAfter(a, b);
    ImmediateStep(h, b, [a, b]);
  }

  lemma ThirdImmediate(h: Holder, a: Event, b: Event, c: Event)
    requires h == Holder({a.id, b.id}, [a, b], [], false, true, [])
    requires c.id != a.id && c.id != b.id && c.createdAt > a.createdAt
    ensures Insert(h, c, PlaceNewestFirst).holder == Holder({a.id, b.id, c.id}, [c, a, b], [], false, true, [])
  {
    PlaceNewer(a, b, c);
    ImmediateStep(h, c, [c, a, b]);
  }

  lemma PlaceNewer(a: Event, b: Event, c: Event)
    requires c.id != a.id && c.id != b.id && c.createdAt > a.createdAt
    ensures PlaceNewestFirst([a, b], c) == Placed(true, [c, a, b])
  {
    assert Ids([a, b]) == [a.id, b.id];
    PlaceBefore([a, b], c);
  }

  /** Scenario, second part: a again is refused with no effect; in queued
      mode d(200) is held back, fires the callback once with d and leaves
      the visible list alone. */
  lemma ScenarioQueued(a: Event, b: Event, c: Event, d: Event)
    requires ScenarioEvents(a, b, c, d)
    ensures var h := Holder({a.id, b.id, c.id}, [c, a, b], [], false, true, []);
      Insert(h, a, PlaceNewestFirst) == Inserted(h, false)
    ensures var h := Holder({a.id, b.id, c.id}, [c, a, b], [], true, true, []);
      var r := Insert(h, d, PlaceNewestFirst);
      && r.ok && r.holder.events == [c, a, b] && r.holder.incoming == [d]
      && Queued(r.holder) == 1 && r.holder.notices == [OnQueue(d, false, 0)]
  {
  }

  /** Scenario, third part: the flush shows d first and notifies once; a
      second flush does nothing. */
  lemma ScenarioFlush(h: Holder, a: Event, b: Event, c: Event, d: Event)
    requires ScenarioEvents(a, b, c, d)
    requires h.events == [c, a, b] && h.incoming == [d] && h.notices == [OnQueue(d, false, 0)]
    ensures Flush(h, PlaceNewestFirst) == h.(events := [d, c, a, b], notices := h.notices + [WillChange], incoming := [])
    ensures Flush(Flush(h, PlaceNewestFirst), PlaceNewestFirst) == Flush(h, PlaceNewestFirst)
  {
    PlaceNewest(a, b, c, d);
    FlushOne(h, PlaceNewestFirst);
  }

  /** Flushing a queue of one event is one helper call. */
  lemma FlushOne(h: Holder, ins: Inserter)
    requires Honours(ins)
    requires |h.incoming| == 1
    ensures var placed := ins(h.events, h.incoming[0]);
      Flush(h, ins) == h.(events := placed.events, incoming := [],
                          notices := h.notices + if placed.ok then [WillChange] else [])
  {
    var placed := ins(h.events, h.incoming[0]);
    assert h.incoming[1..] == [];
    assert MergeIncoming(placed.events, [], ins) == Merged(placed.events, false);
    assert MergeIncoming(h.events, h.incoming, ins) == Merged(placed.events, placed.ok);
  }

  lemma PlaceNewest(a: Event, b: Event, c: Event, d: Event)
    requires ScenarioEvents(a, b, c, d)
    ensures PlaceNewestFirst([c, a, b], d) == Placed(true, [d, c, a, b])
  {
    assert Ids([c, a, b]) == [c.id, a.id, b.id];
    PlaceBefore([c, a, b], d);
  }

  lemma PlaceIntoEmpty(e: Event)
    ensures PlaceNewestFirst([], e) == Placed(true, [e])
  {
  }

  lemma PlaceAfter(x: Event, e: Event)
    requires x.id != e.id && x.createdAt >= e.createdAt
    ensures PlaceNewestFirst([x], e) == Placed(true, [x, e])
  {
    assert Ids([x]) == [x.id];
    assert FirstOlder([x], e.createdAt) == 1;
  }

  lemma PlaceBefore(s: seq<Event>, e: Event)
    requires |s| > 0 && s[0].createdAt < e.createdAt
    requires e.id !in Ids(s)
    ensures PlaceNewestFirst(s, e) == Placed(true, [e] + s)
  {
  }

  /** One immediate insert of a fresh id that the reference helper accepts. */
  lemma ImmediateStep(h: Holder, e: Event, after: seq<Event>)
    requires !h.shouldQueue && e.id !in h.seen
    requires PlaceNewestFirst(h.events, e) == Placed(true, after)
    ensures Insert(h, e, PlaceNewestFirst) == Inserted(h.(seen := h.seen + {e.id}, events := after), true)
  {
  }
}
