# quoteBook quote store, modelled in Dafny

quoteBook keeps quotes in memory and serves them over HTTP. Its core is the
quote store: an ordered sequence of `Quote{Id, Author, Quote}` records and a
`nextId` counter that starts at 1. `Add` stamps the caller's author and text
with the counter, appends the quote and bumps the counter. `Get` lists every
quote in insertion order. `GetByAuthor` filters by exact author equality.
`GetRandom` picks any stored quote, or reports `ErrNoQuotes` on an empty
store. `Delete` removes the first quote with a given id, keeping the rest in
order, or reports `ErrQuoteNotFound`.

The repository holds two copies of this store, and each is modelled as a
class:

- `QuoteStore.Store` (`store.dfy`) models `internal/store/store.go`.
- `LegacyStore.Store` (`legacy_store.dfy`) models the earlier copy in
  `main.go` (lines 21-112). It differs in one place. When no quote matches,
  its `GetByAuthor` returns a nil slice instead of an empty one, and the JSON
  encoder writes the two differently (`null` versus `[]`). The model
  reports this with an extra `isNil` result.

Both classes rest on the module `Quotes` (`quotes.dfy`). It holds the
datatypes, the store invariant `WellFormed` and the specification
functions behind the methods' contracts:

- `ByAuthor`: the in-order filter by author.
- `FindId`: the position of the first quote with a given id.
- `IssuedBelow`: the list 1, ..., n - 1, which the invariant ties to the
  store's record of issued ids.

Each class also keeps a ghost history `issued` of every id it has handed
out. `Add` appends the id it issues to it, and `Delete` leaves it alone.
The object invariant `Valid()` says three things: the stored ids strictly
increase in sequence order, they all lie in `1 .. nextId - 1`, and `issued`
is exactly `1, ..., nextId - 1`. Every method keeps `Valid()`, so ids are
unique. `Add` also proves that the id it issues is not in the old
`issued`. Hence an id, once issued, is never issued again, even after it
is deleted. The
lemmas in `Quotes` pin `ByAuthor` down without reference to its body:

- `ByAuthorMembers`: a quote is in the result exactly when it is stored and
  has that author.
- `ByAuthorAppend`: filtering distributes over concatenation.
- `ByAuthorIncreasing`: the result keeps increasing ids.
- `ByAuthorUnique`: it is the only sequence with those three facts.

`StoreTests` (`store_tests.dfy`) restates the scenarios of
`internal/store/store_test.go` as methods. Their postconditions are the
tests' expectations, and they are proved from the store's contracts alone.

Every store method runs inside one critical section of the store's mutex.
So each method is modelled as one atomic, sequential step on the class's
fields.

Neither store checks the author or text: both accept empty strings. The
newer handler at `internal/handlers/handler.go:33-37` rejects an empty
author or text before it calls `Add`. The older handler at
`main.go:119-135` calls `Add` without checking. So the store methods have
no precondition on the author or text.

## Model

| member | source | states |
|---|---|---|
| Quotes.FindId | internal/store/store.go:92-93 | the result is the first position holding the id, and it is None exactly when no stored quote has the id |
| Quotes.ByAuthorMembers | internal/store/store.go:62-66 | a quote is in the filtered sequence iff it is stored and its author is exactly the given one |
| Quotes.ByAuthorEmpty | internal/store/store.go:60-72 | the filter result is empty iff no stored quote has that author (empty, not an error) |
| Quotes.ByAuthorAppend | internal/store/store.go:62-66 | filtering distributes over concatenation, so the relative order of the matches is kept |
| Quotes.ByAuthorIncreasing | internal/store/store.go:62-66 | filtering an id-increasing sequence yields an id-increasing sequence |
| Quotes.ByAuthorUnique | internal/store/store.go:56-73 | in a well-formed store the filter result is the only id-increasing sequence holding exactly the stored quotes by that author |
| Quotes.AppendWellFormed | internal/store/store.go:34-45 | appending a quote stamped with the counter and bumping the counter keeps ids increasing and below the counter |
| Quotes.RemoveWellFormed | internal/store/store.go:94 | removing one element keeps the invariant, and the removed id no longer occurs |
| Quotes.IdsUnique | internal/store/store.go:35 | in an id-increasing sequence two positions with the same id are the same position |
| QuoteStore.Store.New | internal/store/store.go:23-28 | a new store is empty, its counter is 1, its history of issued ids is empty, and it satisfies the invariant |
| QuoteStore.Store.Add | internal/store/store.go:30-47 | returns {old nextId, input author, input text}; the sequence becomes the old one plus that quote; nextId grows by exactly 1; the new id is not in the history of issued ids, is appended to it, and exceeds every stored id; the invariant, including that the history is exactly 1..nextId-1, is kept |
| QuoteStore.Store.Get | internal/store/store.go:49-54 | returns exactly the stored sequence, whose ids increase in insertion order; state unchanged |
| QuoteStore.Store.GetByAuthor | internal/store/store.go:56-73 | returns the in-order subsequence of quotes with that author: membership iff, increasing ids, empty iff none match; state unchanged |
| QuoteStore.Store.GetRandom | internal/store/store.go:75-86 | ErrNoQuotes iff the store is empty, otherwise some stored quote; state unchanged |
| QuoteStore.Store.Delete | internal/store/store.go:88-99 | with a matching quote: success, and the sequence loses exactly the first match, others kept in order; without one: ErrQuoteNotFound and nothing changes; nextId and the history of issued ids unchanged; afterwards no quote has the id |
| LegacyStore.Store.NewStore | main.go:36-41 | a new store is empty, its counter is 1, its history of issued ids is empty, and it satisfies the invariant |
| LegacyStore.Store.Add | main.go:43-60 | returns {old nextId, input author, input text}; appended at the end; nextId grows by exactly 1; the new id is not in the history of issued ids and is appended to it; the invariant, including that the history is exactly 1..nextId-1, is kept |
| LegacyStore.Store.Get | main.go:62-67 | returns exactly the stored sequence in insertion order; state unchanged |
| LegacyStore.Store.GetByAuthor | main.go:69-86 | returns the in-order subsequence of quotes with that author, and reports nil exactly when nothing matches; state unchanged |
| LegacyStore.Store.GetRandom | main.go:88-99 | ErrNoQuotes iff the store is empty, otherwise some stored quote; state unchanged |
| LegacyStore.Store.Delete | main.go:101-112 | removes exactly the first quote with the id and succeeds, or reports ErrQuoteNotFound with nothing changed; nextId and the history of issued ids unchanged; afterwards no quote has the id |
| StoreTests.TwoQuoteStore | internal/store/store_test.go:17-20 | two adds to a fresh store leave the quotes with ids 1 and 2 in that order |
| StoreTests.AddAndGetQuotes | internal/store/store_test.go:16-47 | Get lists ids 1 and 2 with their authors and texts in order; filtering by Author1 gives its one quote; an unknown author gives an empty sequence |
| StoreTests.GetRandomOnEmptyThenOne | internal/store/store_test.go:49-64 | GetRandom reports ErrNoQuotes on a fresh store and returns the only quote of a one-quote store |
| StoreTests.DeleteTwice | internal/store/store_test.go:66-81 | deleting an added quote succeeds, deleting it again reports ErrQuoteNotFound, and the store is then empty |
| StoreTests.DeleteNotFound | internal/store/store_test.go:91-97 | deleting id 999, never issued, reports ErrQuoteNotFound |
| StoreTests.DeleteEmptyStore | internal/store/store_test.go:108-114 | deleting from an empty store reports ErrQuoteNotFound |
| StoreTests.GetByAuthorUnknownAuthor | internal/store/store_test.go:99-105 | filtering by an author nobody has gives an empty sequence |
| StoreTests.AddAllToFreshStore | internal/store/store.go:23-47 | N adds to a fresh store hand out exactly the ids 1, ..., N, with no gap or repeat, and store the quotes in that order with the callers' authors and texts |
| StoreTests.DeleteThenAddAgain | internal/store/store.go:30-99 | after adding ids 1 and 2 and deleting 1: only quote 2 remains, deleting 1 again reports ErrQuoteNotFound, and the next add gets id 3, not the deleted 1 |

## Left out

- Locking: the `sync.Mutex` only serializes calls. Each method is one atomic step here, and linearizability under concurrent callers is not modelled.
- Random choice: `rand.Intn` and its seeding are not modelled. `GetRandom` picks an unconstrained valid index, so the model says nothing about the distribution.
- Aliasing: `Get` hands out the store's own slice, and `slices.Delete` shifts and clears that backing array in place. A slice handed out earlier can therefore see a later deletion. The model returns sequences as values and does not capture this.
- Integer overflow: Go's `int` counter could wrap after 2^63 - 1 adds. `nextId` is an unbounded integer here.
- Nil input: `Add` dereferences its `*Quote` argument, so a nil pointer panics. The model takes a `Quote` value, and the caller's `Id` field is ignored as in the source.
- Error values: `pkg/errors` is not part of this model. `main.go` gives the errors the texts "quote not found" and "no quotes available". The model keeps only the two error identities, not their message texts.
- `GetRandom`'s failing return: on an empty store the source also returns a zero `Quote{}`. The model returns only the error.
- Redundant branch: store.go's `if len(filtered) == 0 { return filtered }` returns the same value as the line after it, so it adds nothing to model.
- HTTP handlers: `internal/handlers/handler.go` and the closures in `main.go` from line 114 on are routing and JSON glue, so they are left out. This includes the newer handler's check that the author and text are non-empty.
- Middleware, server and process lifecycle: `internal/middelware/logging.go`, `internal/server/server.go`, `internal/app/app.go` and `cmd/main.go` are logging, goroutines, signals and HTTP I/O, so they are left out.
