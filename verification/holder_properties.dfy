/** Properties of the event holder that relate several calls: refusing a
    seen id is permanent, the lists never hold an id twice, the accessors
    track the operations, and — under the optional assumptions on the
    sorted-insert helper — the visible list stays newest-first and a flush
    moves every held-back event into view. */
module HolderProperties {
  import opened Events
  import opened SortedInsert
  import opened EventHolder

  /** One call a consumer or producer can make on the holder. */
  datatype Op =
    | Add(ev: Event)
    | Release
    | Prune(isIncluded: Event -> bool)
    | Mode(queue: bool)

  function Step(h: Holder, op: Op, ins: Inserter): (r: Holder)
    requires Honours(ins)
    ensures h.seen <= r.seen
  {
    match op
    case Add(ev) => Insert(h, ev, ins).holder
    case Release => Flush(h, ins)
    case Prune(isIncluded) => Filter(h, isIncluded)
    case Mode(queue) => SetShouldQueue(h, queue)
  }

  /** The holder after a whole sequence of calls. The seen-set only grows
      along the way, whatever the calls are. */
  function Run(h: Holder, ops: seq<Op>, ins: Inserter): (r: Holder)
    requires Honours(ins)
    ensures h.seen <= r.seen
    decreases |ops|
  {
    if |ops| == 0 then h else Run(Step(h, ops[0], ins), ops[1..], ins)
  }

  /** Inserting a second event with an already-seen id, in either mode,
      returns `false` and changes nothing, callback trace included. */
  lemma SecondInsertRefused(h: Holder, a: Event, b: Event, ins: Inserter)
    requires Honours(ins)
    requires a.id == b.id
    ensures var first := Insert(h, a, ins).holder;
      Insert(first, b, ins) == Inserted(first, false)
  {
    var first := Insert(h, a, ins).holder;
    assert a.id in first.seen;
  }

  /** Dedup is permanent: once an id is seen, no sequence of calls — filters
      and flushes included — makes the holder accept it again. */
  lemma DedupIsPermanent(h: Holder, ops: seq<Op>, ev: Event, ins: Inserter)
    requires Honours(ins)
    requires ev.id in h.seen
    ensures var later := Run(h, ops, ins);
      Insert(later, ev, ins) == Inserted(later, false)
  {
    var later := Run(h, ops, ins);
    assert ev.id in later.seen;
  }

  /** The holder's bookkeeping agrees with its lists: every id in either
      list has been seen, and no id is held twice across both lists. */
  ghost predicate Coherent(h: Holder)
  {
    && (forall id :: id in IdBag(AllEvents(h)) ==> id in h.seen)
    && UniqueIds(AllEvents(h))
  }

  /** Both empty constructors start coherent. */
  lemma InitCoherent()
    ensures Coherent(Init())
    ensures Coherent(InitWithOnQueue())
  {
    assert AllEvents(Init()) == [];
    assert AllEvents(InitWithOnQueue()) == [];
  }

  /** The seeded constructor does not record the seeded ids: an event that
      is already visible is accepted again in queued mode, and the holder
      then holds its id twice. */
  lemma SeededIdsNotDeduplicated(e: Event, ins: Inserter)
    requires Honours(ins)
    ensures var h := SetShouldQueue(InitSeeded([e], []), true);
      var r := Insert(h, e, ins);
      && r.ok
      && AllEvents(r.holder) == [e, e]
      && !Coherent(r.holder)
  {
    var h := SetShouldQueue(InitSeeded([e], []), true);
    var r := Insert(h, e, ins);
    assert AllEvents(r.holder) == [e, e];
    assert Ids([e, e]) == [e.id, e.id];
    assert IdBag(AllEvents(r.holder))[e.id] == 2;
  }

  /** An accepted event carries an id that was not held, so it keeps the
      bookkeeping coherent; a refused one changes nothing. */
  lemma {:induction false} InsertCoherent(h: Holder, ev: Event, ins: Inserter)
    requires Honours(ins)
    requires Coherent(h)
    ensures Coherent(Insert(h, ev, ins).holder)
  {
    var g := Insert(h, ev, ins).holder;
    if ev.id !in h.seen {
      var grown := AllEvents(h) + [ev];
      assert multiset(grown) == multiset(AllEvents(h)) + multiset{ev};
      IdBagMono(AllEvents(g), grown);
      IdsConcat(AllEvents(h), [ev]);
      assert Ids([ev]) == [ev.id];
      AddFreshId(IdBag(AllEvents(h)), IdBag(AllEvents(g)), h.seen, ev.id);
    }
  }

  /** Adding at most one occurrence of an unseen id to a bag of distinct seen
      ids, and then recording it as seen, keeps the ids distinct and seen. */
  lemma AddFreshId(before: multiset<string>, after: multiset<string>, seen: set<string>, id: string)
    requires forall x :: x in before ==> x in seen
    requires forall x :: before[x] <= 1
    requires id !in seen
    requires after <= before + multiset{id}
    ensures forall x :: x in after ==> x in seen + {id}
    ensures forall x :: after[x] <= 1
  {
    forall x
      ensures after[x] <= 1
    {
      assert after[x] <= before[x] + multiset{id}[x];
      assert before[x] <= 1;
    }
  }

  /** Filtering keeps the bookkeeping coherent: it only drops events. */
  lemma FilterCoherent(h: Holder, isIncluded: Event -> bool)
    requires Coherent(h)
    ensures Coherent(Filter(h, isIncluded))
  {
    var g := Filter(h, isIncluded);
    KeepIdBag(h.events, isIncluded);
    KeepIdBag(h.incoming, isIncluded);
    IdsConcat(h.events, h.incoming);
    IdsConcat(g.events, g.incoming);
    UniqueIdsOfSubBag(AllEvents(g), AllEvents(h));
  }

  /** Flushing moves ids from the queue into view without adding any, so it
      keeps the bookkeeping coherent. */
  lemma FlushCoherent(h: Holder, ins: Inserter)
    requires Honours(ins)
    requires Coherent(h)
    ensures Coherent(Flush(h, ins))
  {
    if |h.incoming| > 0 {
      var g := Flush(h, ins);
      assert AllEvents(g) == g.events;
      IdBagMono(g.events, AllEvents(h));
      UniqueIdsOfSubBag(AllEvents(g), AllEvents(h));
    }
  }

  /** Every sequence of calls from a coherent holder — in particular from
      either empty constructor — keeps it coherent. */
  lemma {:induction false} RunCoherent(h: Holder, ops: seq<Op>, ins: Inserter)
    requires Honours(ins)
    requires Coherent(h)
    ensures Coherent(Run(h, ops, ins))
    decreases |ops|
  {
    if |ops| > 0 {
      match ops[0] {
        case Add(ev) => InsertCoherent(h, ev, ins);
        case Release => FlushCoherent(h, ins);
        case Prune(isIncluded) => FilterCoherent(h, isIncluded);
        case Mode(queue) =>
      }
      RunCoherent(Step(h, ops[0], ins), ops[1..], ins);
    }
  }

  /** Filtering never resurrects: an event the holder has held — even one
      the filter removes — is still refused by a later insert. */
  lemma FilteredOutStaysRefused(h: Holder, isIncluded: Event -> bool, e: Event, ev: Event, ins: Inserter)
    requires Honours(ins)
    requires Coherent(h)
    requires e in AllEvents(h) && ev.id == e.id
    ensures var g := Filter(h, isIncluded);
      Insert(g, ev, ins) == Inserted(g, false)
  {
    InIdBag(AllEvents(h), e.id);
  }

  /** `queued` counts the held-back events: a queued insert adds one exactly
      when it returns `true`, an immediate insert adds none, and a flush
      leaves none. */
  lemma QueuedTracksQueue(h: Holder, ev: Event, ins: Inserter)
    requires Honours(ins)
    ensures var r := Insert(h, ev, ins);
      Queued(r.holder) == Queued(h) + (if h.shouldQueue && r.ok then 1 else 0)
    ensures Queued(Flush(h, ins)) == 0
  {
  }

  /** `all_events` is the visible list followed by the queue, so filtering
      the holder is filtering `all_events`. */
  lemma AllEventsFilter(h: Holder, isIncluded: Event -> bool)
    ensures AllEvents(Filter(h, isIncluded)) == Keep(AllEvents(h), isIncluded)
  {
    KeepConcat(h.events, h.incoming, isIncluded);
  }

  /** The flush loop calls the helper on the pending events in arrival
      order, handing the list from one call to the next: merging `a + b`
      is merging `a` and then merging `b` into the result. */
  lemma {:induction false} MergeConcat(events: seq<Event>, a: seq<Event>, b: seq<Event>, ins: Inserter)
    requires Honours(ins)
    ensures MergeIncoming(events, a + b, ins) ==
      var m := MergeIncoming(events, a, ins);
      var n := MergeIncoming(m.events, b, ins);
      Merged(n.events, m.changed || n.changed)
    decreases |a|
  {
    if |a| == 0 {
      assert a + b == b;
    } else {
      var placed := ins(events, a[0]);
      assert (a + b)[0] == a[0];
      assert (a + b)[1..] == a[1..] + b;
      MergeConcat(placed.events, a[1..], b, ins);
    }
  }

  /** ASSUMING the helper keeps newest-first order: an insert keeps the
      visible list newest-first. */
  lemma InsertNewestFirst(h: Holder, ev: Event, ins: Inserter)
    requires Honours(ins) && KeepsNewestFirst(ins)
    requires NewestFirst(h.events)
    ensures NewestFirst(Insert(h, ev, ins).holder.events)
  {
    if !h.shouldQueue && ev.id !in h.seen {
      assert NewestFirst(ins(h.events, ev).events);
    }
  }

  /** ASSUMING the helper keeps newest-first order: so does the flush loop. */
  lemma {:induction false} MergeNewestFirst(events: seq<Event>, pending: seq<Event>, ins: Inserter)
    requires Honours(ins) && KeepsNewestFirst(ins)
    requires NewestFirst(events)
    ensures NewestFirst(MergeIncoming(events, pending, ins).events)
    decreases |pending|
  {
    if |pending| > 0 {
      var placed := ins(events, pending[0]);
      assert NewestFirst(placed.events);
      MergeNewestFirst(placed.events, pending[1..], ins);
    }
  }

  /** ASSUMING the helper keeps newest-first order: every sequence of calls
      keeps the visible list newest-first. */
  lemma {:induction false} RunNewestFirst(h: Holder, ops: seq<Op>, ins: Inserter)
    requires Honours(ins) && KeepsNewestFirst(ins)
    requires NewestFirst(h.events)
    ensures NewestFirst(Run(h, ops, ins).events)
    decreases |ops|
  {
    if |ops| > 0 {
      match ops[0] {
        case Add(ev) => InsertNewestFirst(h, ev, ins);
        case Release => MergeNewestFirst(h.events, h.incoming, ins);
        case Prune(isIncluded) => KeepNewestFirst(h.events, isIncluded);
        case Mode(queue) =>
      }
      RunNewestFirst(Step(h, ops[0], ins), ops[1..], ins);
    }
  }

  /** ASSUMING the helper refuses only ids already in the list: when no id
      is held twice, the flush loop inserts every pending event. */
  lemma {:induction false} MergeTakesAll(events: seq<Event>, pending: seq<Event>, ins: Inserter)
    requires Honours(ins) && AcceptsFresh(ins)
    requires UniqueIds(events + pending)
    ensures var r := MergeIncoming(events, pending, ins);
      && multiset(r.events) == multiset(events) + multiset(pending)
      && (r.changed <==> |pending| > 0)
    decreases |pending|
  {
    if |pending| > 0 {
      var ev, later := pending[0], pending[1..];
      assert pending == [ev] + later;
      IdsConcat(events, pending);
      IdsConcat([ev], later);
      assert Ids([ev]) == [ev.id];
      assert IdBag(events + pending) == IdBag(events) + multiset{ev.id} + IdBag(later);
      assert IdBag(events + pending)[ev.id] <= 1;
      assert ev.id !in IdBag(events);
      var placed := ins(events, ev);
      assert placed.ok;
      LawfulCounts(events, ev, placed);
      IdsConcat(placed.events, later);
      assert IdBag(placed.events + later) == IdBag(events + pending);
      MergeTakesAll(placed.events, later, ins);
      assert multiset(pending) == multiset{ev} + multiset(later);
    }
  }

  /** ASSUMING the helper refuses only ids already in the list: flushing a
      coherent holder shows every held-back event exactly once more than
      before, and tells observers once exactly when something was queued. */
  lemma FlushShowsAll(h: Holder, ins: Inserter)
    requires Honours(ins) && AcceptsFresh(ins)
    requires Coherent(h)
    ensures var r := Flush(h, ins);
      && multiset(r.events) == multiset(h.events) + multiset(h.incoming)
      && r.incoming == []
      && (r.notices == h.notices + [WillChange] <==> |h.incoming| > 0)
  {
    if |h.incoming| > 0 {
      MergeTakesAll(h.events, h.incoming, ins);
    }
  }
}
