# EventHolder, modelled in Dafny

damus is a Nostr client. Its `EventHolder` sits between relay subscriptions and
a timeline view. It receives events one at a time and drops any event whose id
it has seen before. It then routes each fresh event one of two ways:

- In immediate mode the event is sorted straight into the visible list,
  `events`.
- In queued mode the event is appended to an arrival-ordered pending list,
  `incoming`, and the optional `on_queue` callback is told about it.

`flush` merges the pending list into the visible list and empties it. It sends
one `objectWillChange` notification when the merge changed anything. `filter`
prunes both lists and never forgets a seen id.

The model is purely functional. A `Holder` value holds:

- the seen-set (`has_event`)
- both lists
- the mode flag
- whether a callback is installed
- a log of everything observers were told, as `Notice`s: each callback call,
  with the event, whether its id was already seen and how many events were
  queued when the callback ran, and each explicit `objectWillChange.send()`

Every operation maps one `Holder` to the next.

The sorted-insert helper `insert_uniq_sorted_event_created` is called by
`insert_immediate` and by `flush`. Its body is not part of this model. It is a
parameter `ins: Inserter` of every operation that calls it. The precondition
`Honours(ins)` assumes:

- when the helper returns `false`, the list is unchanged;
- when it returns `true`, the list is the old list with the new event put in at
  one position.

The call sites rely only on the second point's consequence that the list
gained exactly the new event. That the events already there keep their
relative order is an extra assumption of positional insertion; no proof here
uses it beyond those counts.

Two further properties are NOT taken from code in this model. Each is a
separately named assumption, and only the lemmas that need it take it as a
precondition:

- `KeepsNewestFirst`: the helper keeps a newest-first list newest-first.
- `AcceptsFresh`: the helper refuses only ids already in the list.

`NewestFirstInsert.PlaceNewestFirst` is a reference helper that meets all three
assumptions at once, so they are consistent. It also drives an end-to-end
timeline scenario.

Files:

- `events.dfy`: the event record, id bags, newest-first order, and
  order-preserving filtering.
- `sorted_insert.dfy`: the helper's assumed contract.
- `event_holder.dfy`: the holder and its operations.
- `holder_properties.dfy`: properties that relate several calls, including the
  invariant that every held id is seen and no id is held twice.
- `newest_first_insert.dfy`: the reference helper and the scenario.

Two details of the code are kept as written:

- An immediate-mode `insert` returns the helper's answer, so it can return
  `false` for a fresh id.
- The seeded initialiser leaves the seen-set empty.

## Model

| member | source | states |
|---|---|---|
| EventHolder.Init | damus/Util/EventHolder.swift:30-36 | `init()` starts with no seen ids, both lists empty, immediate mode, no callback and no notices |
| EventHolder.InitWithOnQueue | damus/Util/EventHolder.swift:38-44 | `init(on_queue:)` starts like `init()` but with the callback installed |
| EventHolder.InitSeeded | damus/Util/EventHolder.swift:46-52 | `init(events:incoming:)` keeps both supplied lists in immediate mode with no callback, and its seen-set is empty |
| EventHolder.SetShouldQueue | damus/Util/EventHolder.swift:18-20 | only the mode flag changes, to the given value |
| EventHolder.Queued | damus/Util/EventHolder.swift:22-24 | `queued` is the number of held-back events |
| EventHolder.AllEvents | damus/Util/EventHolder.swift:26-28 | `all_events` is the visible list followed by the queue |
| EventHolder.Filter | damus/Util/EventHolder.swift:54-57 | each list keeps exactly the occurrences that pass the predicate; seen-set, mode, callback and notices are untouched |
| EventHolder.InsertImmediate | damus/Util/EventHolder.swift:67-79 | a seen id is refused with no change at all; otherwise the id becomes seen, the queue and notices stay put, the result is the helper's answer, and the visible list becomes exactly the list the helper produced: it gains exactly the event when that answer is `true` and is unchanged when it is `false` |
| EventHolder.InsertQueued | damus/Util/EventHolder.swift:81-92 | a seen id is refused with no change at all; otherwise the result is `true`, the event is appended to the queue, the visible list is unchanged, and an installed callback is called once with the event while its id was not yet seen and the queue was as before |
| EventHolder.Insert | damus/Util/EventHolder.swift:59-65 | in both modes a seen id is refused with no change, and afterwards the id is always seen; queued mode never touches the visible list, immediate mode never touches the queue or notices and leaves the visible list exactly as the helper produced it; `true` means `all_events` gained exactly the event |
| EventHolder.MergeIncoming | damus/Util/EventHolder.swift:99-104 | the flush loop only adds pending events to the visible list, and `changed` is set exactly when the list grew |
| EventHolder.Flush | damus/Util/EventHolder.swift:94-111 | an empty queue is a no-op; otherwise the visible list is exactly what the flush loop produces from the queue in arrival order, the queue ends empty, the seen-set is unchanged, the visible list keeps everything and gains at most the queued events, and at most one `WillChange` notice is sent, exactly when the visible list grew |
| HolderProperties.Run | damus/Util/EventHolder.swift:12 | the seen-set only grows across any sequence of inserts, flushes, filters and mode changes |
| HolderProperties.SecondInsertRefused | damus/Util/EventHolder.swift:67-70 | in either mode, inserting an event whose id matches one just inserted returns `false` and changes nothing, callback trace included |
| HolderProperties.DedupIsPermanent | damus/Util/EventHolder.swift:81-84 | once an id is seen, no later sequence of calls makes `insert` accept it again |
| HolderProperties.InitCoherent | damus/Util/EventHolder.swift:30-44 | both empty initialisers start with every held id seen and no id held twice |
| HolderProperties.SeededIdsNotDeduplicated | damus/Util/EventHolder.swift:46-52 | a holder seeded with an event accepts that event again in queued mode, so it then holds the same id twice |
| HolderProperties.InsertCoherent | damus/Util/EventHolder.swift:72-90 | insert keeps every held id seen and no id held twice |
| HolderProperties.FilterCoherent | damus/Util/EventHolder.swift:54-57 | filter keeps every held id seen and no id held twice |
| HolderProperties.FlushCoherent | damus/Util/EventHolder.swift:94-111 | flush keeps every held id seen and no id held twice |
| HolderProperties.RunCoherent | damus/Util/EventHolder.swift:54-111 | every sequence of calls keeps every held id seen and no id held twice |
| HolderProperties.FilteredOutStaysRefused | damus/Util/EventHolder.swift:55-56 | in a coherent holder, an event that was held, even one the filter removes, is refused by a later insert of the same id |
| HolderProperties.QueuedTracksQueue | damus/Util/EventHolder.swift:22-24 | `queued` goes up by one exactly on a queued-mode insert that returns `true`, and is zero after a flush |
| HolderProperties.AllEventsFilter | damus/Util/EventHolder.swift:26-28 | `all_events` of the filtered holder is `all_events` filtered, in order |
| HolderProperties.InsertNewestFirst | damus/Util/EventHolder.swift:74 | assuming the helper keeps newest-first order, insert keeps the visible list newest-first |
| HolderProperties.MergeConcat | damus/Util/EventHolder.swift:99-104 | the loop calls the helper on the pending events in arrival order, passing the list from call to call: merging `a + b` is merging `a`, then merging `b` into the result, with `changed` set when either part changed the list |
| HolderProperties.MergeNewestFirst | damus/Util/EventHolder.swift:100-104 | assuming the helper keeps newest-first order, so does the flush loop |
| HolderProperties.RunNewestFirst | damus/Util/EventHolder.swift:54-111 | assuming the helper keeps newest-first order, every sequence of calls keeps the visible list newest-first |
| HolderProperties.MergeTakesAll | damus/Util/EventHolder.swift:100-104 | assuming the helper refuses only ids already present, the flush loop over unique ids inserts every pending event and sets `changed` exactly when something was pending |
| HolderProperties.FlushShowsAll | damus/Util/EventHolder.swift:94-111 | with the same assumption, flushing a coherent holder puts every queued event into view exactly once, empties the queue, and notifies exactly when something was queued |
| Events.Keep | damus/Util/EventHolder.swift:55 | the filter result is no longer than its input, and every element in it passes and comes from the input |
| Events.KeepCounts | damus/Util/EventHolder.swift:55-56 | each event occurs in the filter result as often as in the input if it passes, and not at all otherwise |
| Events.KeepConcat | damus/Util/EventHolder.swift:56 | filtering distributes over concatenation, so relative order is kept |
| Events.KeepIdempotent | damus/Util/EventHolder.swift:54 | filtering twice with the same predicate equals filtering once |
| Events.IdBagMono | damus/Util/EventHolder.swift:94-111 | a list whose events all come from another, counted with multiplicity, carries no id occurrence the other lacks, so a flush adds no id that was not already held |
| Events.KeepIdBag | damus/Util/EventHolder.swift:54-57 | filtering never adds an id occurrence |
| Events.KeepNewestFirst | damus/Util/EventHolder.swift:54-57 | filtering a newest-first list leaves it newest-first |
| SortedInsert.LawfulCounts | damus/Util/EventHolder.swift:101 | a helper call that obeys the call-site contract grows the list exactly when it answers `true`, and then adds exactly the event and its id |
| SortedInsert.InsertedAtCounts | damus/Util/EventHolder.swift:74 | putting an event in at one position adds exactly one element and one id occurrence |
| NewestFirstInsert.PlaceNewestFirst | damus/Util/EventHolder.swift:74 | the reference helper obeys the call-site contract, refuses exactly the ids already present, and keeps a newest-first list newest-first |
| NewestFirstInsert.PlaceNewestFirstMeetsAssumptions | damus/Util/EventHolder.swift:101 | the call-site contract and both optional assumptions can all hold at once |
| NewestFirstInsert.ScenarioImmediate | damus/Util/EventHolder.swift:67-79 | inserting events created at 100, 50 and 150 in immediate mode gives the visible order 150, 100, 50 |
| NewestFirstInsert.ScenarioQueued | damus/Util/EventHolder.swift:81-92 | re-inserting a seen id changes nothing; a queued insert of a newer event leaves the visible list alone, queues it, and calls the callback once |
| NewestFirstInsert.ScenarioFlush | damus/Util/EventHolder.swift:94-111 | the flush shows the queued event first, empties the queue and notifies once; a second flush changes nothing |
| NewestFirstInsert.FlushOne | damus/Util/EventHolder.swift:100-110 | flushing a one-event queue is a single helper call, with a notice exactly when it answers `true` |

## Left out

- The body of `insert_uniq_sorted_event_created` is not part of this model. It is a parameter with an assumed contract. Newest-first order and "refuses only ids already present" are extra assumptions, stated apart from that contract.
- The implicit change notifications that `@Published` sends whenever `events` or `incoming` is assigned are not modelled. Neither is the Combine / `ObservableObject` machinery. Only the explicit `objectWillChange.send()` in `flush` is recorded.
- The `on_queue` callback is recorded only as a `Notice`. Its side effects, and any re-entry into the holder from it, are left out because they run code outside this component.
- Ids are compared character by character as Dafny strings, not by Swift's canonical Unicode equivalence, which `String ==` and `Set<String>` use at EventHolder.swift:68,72,82,88. Nostr ids are hex, so this changes nothing for them.
- `events`, `incoming`, `should_queue` and `on_queue` are internal `var`s (EventHolder.swift:13-16), and the timeline view takes `events` as a writable binding, so other code can assign the lists or swap the callback. Such outside writes are not modelled. `Coherent`, `RunCoherent` and `RunNewestFirst` therefore hold only across the init, insert, flush, filter and set_should_queue calls. `DedupIsPermanent` is not affected, because `has_event` is private.
- `NostrEvent` is reduced to its id, its creation time and an opaque remainder. The holder inspects nothing else.
- The `ScrollQueue` protocol conformance adds no behaviour to these members and is not modelled.
- The SwiftUI views (`TimelineView`, `CreateAccountView`, `QRCodeView`) are layout, navigation, key generation and QR rendering, with no holder state logic. They are not part of this model.
