/** The slice of a Nostr event that the event holder inspects, and the
    sequence vocabulary (ids, id bags, newest-first order, order-preserving
    filter) that the holder's contracts are written in. */
module Events {

  /** A timeline event. Only `id` (deduplication) and `createdAt` (sort
      position) are load-bearing; `rest` stands for everything else a
      NostrEvent carries (kind, content, tags, signature) and is never
      inspected. */
  datatype Event = Event(id: string, createdAt: int, rest: string)

  /** The ids of a sequence of events, position by position. */
  function Ids(s: seq<Event>): seq<string>
  {
    seq(|s|, i requires 0 <= i < |s| => s[i].id)
  }

  /** How many times each id occurs in a sequence of events. */
  function IdBag(s: seq<Event>): multiset<string>
  {
    multiset(Ids(s))
  }

  /** No id occurs twice. */
  ghost predicate UniqueIds(s: seq<Event>)
  {
    forall id :: IdBag(s)[id] <= 1
  }

  /** Scanned from the front, creation times never increase: the most recent
      event comes first. */
  ghost predicate NewestFirst(s: seq<Event>)
  {
    forall i, j :: 0 <= i < j < |s| ==> s[i].createdAt >= s[j].createdAt
  }

  /** Swift's order-preserving `Array.filter`. */
  function Keep(s: seq<Event>, p: Event -> bool): (r: seq<Event>)
    ensures |r| <= |s|
    ensures forall i :: 0 <= i < |r| ==> p(r[i]) && r[i] in s
  {
    if |s| == 0 then []
    else
      assert s == [s[0]] + s[1..];
      (if p(s[0]) then [s[0]] else []) + Keep(s[1..], p)
  }

  lemma IdsConcat(a: seq<Event>, b: seq<Event>)
    ensures Ids(a + b) == Ids(a) + Ids(b)
    ensures IdBag(a + b) == IdBag(a) + IdBag(b)
  {
    assert Ids(a + b) == Ids(a) + Ids(b);
  }

  /** The id bag of a sequence is its head's id plus the rest's bag. */
  lemma IdBagCons(e: Event, s: seq<Event>)
    ensures IdBag([e] + s) == multiset{e.id} + IdBag(s)
  {
    IdsConcat([e], s);
    assert Ids([e]) == [e.id];
  }

  /** An id occurs in the id bag exactly when some event carries it. */
  lemma InIdBag(s: seq<Event>, id: string)
    ensures id in IdBag(s) <==> exists e :: e in s && e.id == id
  {
    if id in IdBag(s) {
      var i :| 0 <= i < |Ids(s)| && Ids(s)[i] == id;
      assert s[i] in s;
    } else {
      forall e | e in s
        ensures e.id != id
      {
        var i :| 0 <= i < |s| && s[i] == e;
        assert Ids(s)[i] in multiset(Ids(s));
      }
    }
  }

  /** Filtering distributes over concatenation, so it keeps the relative
      order of the events it retains. */
  lemma {:induction false} KeepConcat(a: seq<Event>, b: seq<Event>, p: Event -> bool)
    ensures Keep(a + b, p) == Keep(a, p) + Keep(b, p)
  {
    if |a| == 0 {
      assert a + b == b;
    } else {
      assert (a + b)[1..] == a[1..] + b;
      KeepConcat(a[1..], b, p);
    }
  }

  /** Filtering twice with the same predicate is filtering once. */
  lemma {:induction false} KeepIdempotent(s: seq<Event>, p: Event -> bool)
    ensures Keep(Keep(s, p), p) == Keep(s, p)
  {
    if |s| > 0 {
      var head := if p(s[0]) then [s[0]] else [];
      KeepConcat(head, Keep(s[1..], p), p);
      KeepIdempotent(s[1..], p);
    }
  }

  /** Filtering keeps every occurrence of an event that passes and drops
      every occurrence of one that does not. */
  lemma {:induction false} KeepCounts(s: seq<Event>, p: Event -> bool)
    ensures forall e :: multiset(Keep(s, p))[e] == if p(e) then multiset(s)[e] else 0
  {
    if |s| > 0 {
      var t := Keep(s[1..], p);
      KeepCounts(s[1..], p);
      assert s == [s[0]] + s[1..];
      if p(s[0]) {
        assert Keep(s, p) == [s[0]] + t;
      } else {
        assert Keep(s, p) == t;
      }
    }
  }

  /** Filtering never adds an id occurrence. */
  lemma {:induction false} KeepIdBag(s: seq<Event>, p: Event -> bool)
    ensures IdBag(Keep(s, p)) <= IdBag(s)
  {
    if |s| > 0 {
      var t := Keep(s[1..], p);
      KeepIdBag(s[1..], p);
      assert s == [s[0]] + s[1..];
      IdBagCons(s[0], s[1..]);
      if p(s[0]) {
        assert Keep(s, p) == [s[0]] + t;
        IdBagCons(s[0], t);
        assert IdBag(Keep(s, p)) == multiset{s[0].id} + IdBag(t);
      } else {
        assert Keep(s, p) == t;
        assert IdBag(Keep(s, p)) == IdBag(t);
      }
      assert IdBag(s) == multiset{s[0].id} + IdBag(s[1..]);
    }
  }

  /** Filtering a newest-first sequence leaves it newest-first. */
  lemma {:induction false} KeepNewestFirst(s: seq<Event>, p: Event -> bool)
    requires NewestFirst(s)
    ensures NewestFirst(Keep(s, p))
  {
    if |s| > 0 {
      var t := Keep(s[1..], p);
      KeepNewestFirst(s[1..], p);
      if p(s[0]) {
        var r := [s[0]] + t;
        forall j | 0 < j < |r|
          ensures r[0].createdAt >= r[j].createdAt
        {
          assert t[j - 1] in s[1..];
        }
      }
    }
  }

  /** A sub-multiset of events carries a sub-bag of ids. */
  lemma {:induction false} IdBagMono(t: seq<Event>, s: seq<Event>)
    requires multiset(t) <= multiset(s)
    ensures IdBag(t) <= IdBag(s)
    decreases |t|
  {
    if |t| > 0 {
      var x, t' := t[0], t[1..];
      assert t == [x] + t';
      assert x in multiset(s);
      var k :| 0 <= k < |s| && s[k] == x;
      var a, b := s[..k], s[k + 1..];
      assert s == a + ([x] + b);
      assert multiset(s) == multiset(a + b) + multiset{x};
      CancelOne(multiset(t'), multiset(a + b), x);
      IdBagMono(t', a + b);
      IdBagCons(x, t');
      IdBagCons(x, b);
      IdsConcat(a, [x] + b);
      IdsConcat(a, b);
      AddOne(IdBag(t'), IdBag(a + b), x.id);
    }
  }

  lemma CancelOne<T>(p: multiset<T>, q: multiset<T>, x: T)
    requires multiset{x} + p <= q + multiset{x}
    ensures p <= q
  {
    forall y
      ensures p[y] <= q[y]
    {
      assert (multiset{x} + p)[y] <= (q + multiset{x})[y];
    }
  }

  lemma AddOne<T>(p: multiset<T>, q: multiset<T>, x: T)
    requires p <= q
    ensures multiset{x} + p <= q + multiset{x}
  {
  }

  /** Every id in a sub-bag of a unique-id sequence is unique. */
  lemma UniqueIdsOfSubBag(t: seq<Event>, s: seq<Event>)
    requires IdBag(t) <= IdBag(s)
    requires UniqueIds(s)
    ensures UniqueIds(t)
  {
    forall id
      ensures IdBag(t)[id] <= 1
    {
      assert IdBag(s)[id] <= 1;
    }
  }
}
