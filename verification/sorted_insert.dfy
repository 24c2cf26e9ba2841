/** The sorted-insert helper `insert_uniq_sorted_event_created`, which the
    event holder calls on its visible list. Its body is not part of this
    model, so the helper is a parameter of every operation that calls it,
    constrained by `Honours`: a refusal leaves the list alone and an
    acceptance puts the event in at one position. The call sites rely only
    on the list gaining exactly the event; that the old events keep their
    relative order is an extra assumption of positional insertion. Anything
    more (newest-first order, never refusing a fresh id) is a separate,
    explicitly named assumption that only the lemmas needing it take as a
    precondition. */
module SortedInsert {
  import opened Events

  /** What the helper reports back: whether it changed the list, and the
      list after the call (Swift passes it `inout`). */
  datatype Placed = Placed(ok: bool, events: seq<Event>)

  /** A helper of the shape `insert_uniq_sorted_event_created(events:new_ev:)`. */
  type Inserter = (seq<Event>, Event) -> Placed

  /** `after` is `before` with `ev` put in at one position, nothing else moved. */
  ghost predicate InsertedAt(before: seq<Event>, ev: Event, after: seq<Event>)
  {
    exists i :: 0 <= i <= |before| && after == before[..i] + [ev] + before[i..]
  }

  /** One call's outcome is lawful: `false` leaves the list alone, `true`
      means `ev` was put in at one position, so the list gained exactly `ev`
      and (an extra assumption the call sites do not need) the old events
      kept their relative order. */
  ghost predicate Lawful(before: seq<Event>, ev: Event, p: Placed)
  {
    if p.ok then InsertedAt(before, ev, p.events) else p.events == before
  }

  /** ASSUMED, since the helper's body is outside this model: every call
      of the helper is lawful. */
  ghost predicate Honours(ins: Inserter)
  {
    forall before, ev :: Lawful(before, ev, ins(before, ev))
  }

  /** ASSUMED (optional), since the helper's body is outside this model:
      the helper keeps a newest-first list newest-first. */
  ghost predicate KeepsNewestFirst(ins: Inserter)
  {
    forall before, ev :: NewestFirst(before) ==> NewestFirst(ins(before, ev).events)
  }

  /** ASSUMED (optional), since the helper's body is outside this model:
      the helper refuses only an event whose id is already in the list. */
  ghost predicate AcceptsFresh(ins: Inserter)
  {
    forall before, ev: Event :: ev.id !in IdBag(before) ==> ins(before, ev).ok
  }

  /** A positional insert adds exactly one event, and exactly one id. */
  lemma InsertedAtCounts(before: seq<Event>, ev: Event, after: seq<Event>)
    requires InsertedAt(before, ev, after)
    ensures |after| == |before| + 1
    ensures multiset(after) == multiset(before) + multiset{ev}
    ensures IdBag(after) == IdBag(before) + multiset{ev.id}
  {
    var i :| 0 <= i <= |before| && after == before[..i] + [ev] + before[i..];
    var a, b := before[..i], before[i..];
    assert before == a + b;
    assert multiset(after) == multiset(a) + multiset{ev} + multiset(b);
    IdsConcat(a + [ev], b);
    IdsConcat(a, [ev]);
    IdsConcat(a, b);
    assert IdBag([ev]) == multiset{ev.id} by {
      assert Ids([ev]) == [ev.id];
    }
  }

  /** The consequences of one lawful call that the holder's proofs use: the
      list grows by one exactly when the helper says `true`, and gains at
      most `ev`. */
  lemma LawfulCounts(before: seq<Event>, ev: Event, p: Placed)
    requires Lawful(before, ev, p)
    ensures p.ok <==> |p.events| > |before|
    ensures p.ok ==> multiset(p.events) == multiset(before) + multiset{ev}
    ensures p.ok ==> IdBag(p.events) == IdBag(before) + multiset{ev.id}
    ensures !p.ok ==> p.events == before
  {
    if p.ok {
      InsertedAtCounts(before, ev, p.events);
    }
  }
}
