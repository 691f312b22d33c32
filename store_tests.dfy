/**
  The scenarios of internal/store/store_test.go, stated as methods whose
  postconditions are what those tests check, and proved from the store's
  contracts alone.
 */
module StoreTests {
  import opened Quotes
  import opened QuoteStore

  /** The store of TestAddAndGetQuotes: two quotes added to a fresh store. */
  method TwoQuoteStore() returns (s: Store)
    ensures fresh(s) && s.Valid()
    ensures s.quotes == [Quote(1, "Author1", "Quote text 1"), Quote(2, "Author2", "Quote text 2")]
  {
    s := new Store.New();
    var _ := s.Add(Quote(0, "Author1", "Quote text 1"));
    var _ := s.Add(Quote(0, "Author2", "Quote text 2"));
  }

  /** Two adds get ids 1 and 2, are listed in order, and can be filtered by author. */
  method AddAndGetQuotes() returns (all: seq<Quote>, byAuthor: seq<Quote>, unknown: seq<Quote>)
    ensures all == [Quote(1, "Author1", "Quote text 1"), Quote(2, "Author2", "Quote text 2")]
    ensures byAuthor == [Quote(1, "Author1", "Quote text 1")]
    ensures unknown == []
  {
    var first := Quote(1, "Author1", "Quote text 1");
    var s := TwoQuoteStore();
    all := s.Get();
    byAuthor := s.GetByAuthor("Author1");
    assert "Author2"[6] != "Author1"[6];
    assert all[..1] == [first];
    assert ByAuthor([first], "Author1") == [first];
    unknown := s.GetByAuthor("Unknown");
    assert "Author1"[0] != "Unknown"[0] && "Author2"[0] != "Unknown"[0];
  }

  /** An empty store has no random quote; a store of one quote yields that quote. */
  method GetRandomOnEmptyThenOne() returns (onEmpty: Result<Quote>, onOne: Result<Quote>)
    ensures onEmpty == Err(ErrNoQuotes)
    ensures onOne == Ok(Quote(1, "A", "Q1"))
  {
    var s := new Store.New();
    onEmpty := s.GetRandom();
    var _ := s.Add(Quote(0, "A", "Q1"));
    onOne := s.GetRandom();
  }

  /** Deleting an added quote succeeds once, then reports ErrQuoteNotFound. */
  method DeleteTwice() returns (first: Outcome, second: Outcome, remaining: seq<Quote>)
    ensures first == Success
    ensures second == Failure(ErrQuoteNotFound)
    ensures remaining == []
  {
    var s := new Store.New();
    var q := s.Add(Quote(0, "A", "Q1"));
    first := s.Delete(q.id);
    second := s.Delete(q.id);
    remaining := s.Get();
  }

  /** Deleting an id that was never issued reports ErrQuoteNotFound. */
  method DeleteNotFound() returns (err: Outcome)
    ensures err == Failure(ErrQuoteNotFound)
  {
    var s := new Store.New();
    err := s.Delete(999);
  }

  /** Deleting from an empty store reports ErrQuoteNotFound. */
  method DeleteEmptyStore() returns (err: Outcome)
    ensures err == Failure(ErrQuoteNotFound)
  {
    var s := new Store.New();
    err := s.Delete(1);
  }

  /** Filtering by an author nobody has yields an empty sequence, not an error. */
  method GetByAuthorUnknownAuthor() returns (quotes: seq<Quote>)
    ensures quotes == []
  {
    var s := new Store.New();
    var _ := s.Add(Quote(0, "A", "Q1"));
    quotes := s.GetByAuthor("NoSuchAuthor");
  }

  /**
    Adding quotes one after another to a fresh store hands out the ids
    1, 2, ..., N, with no gap and no repeat, and stores them in that order.
   */
  method AddAllToFreshStore(entries: seq<Quote>) returns (ids: seq<int>, stored: seq<Quote>)
    ensures |ids| == |entries|
    ensures forall k :: 0 <= k < |ids| ==> ids[k] == k + 1
    ensures |stored| == |entries|
    ensures forall k :: 0 <= k < |stored| ==>
      stored[k] == Quote(k + 1, entries[k].author, entries[k].text)
  {
    var s := new Store.New();
    ids := [];
    for i := 0 to |entries|
      invariant s.Valid()
      invariant s.nextId == i + 1 && |ids| == i
      invariant ids == s.issued
      invariant |s.quotes| == i
      invariant forall k :: 0 <= k < i ==>
        s.quotes[k] == Quote(k + 1, entries[k].author, entries[k].text)
    {
      var q := s.Add(entries[i]);
      ids := ids + [q.id];
    }
    stored := s.Get();
  }

  /**
    Deleting a quote and adding another never hands the deleted id out again:
    the next add gets the next fresh id.
   */
  method DeleteThenAddAgain() returns (removed: Outcome, left: seq<Quote>, again: Outcome, next: Quote)
    ensures removed == Success
    ensures left == [Quote(2, "Bob", "Hi")]
    ensures again == Failure(ErrQuoteNotFound)
    ensures next == Quote(3, "Ann", "New")
  {
    var s := new Store.New();
    var first := s.Add(Quote(0, "Confucius", "Life is simple"));
    var second := s.Add(Quote(0, "Bob", "Hi"));
    removed := s.Delete(1);
    assert FindId([first, second], 1) == Some(0);
    assert [first, second][1..] == [second];
    left := s.Get();
    again := s.Delete(1);
    next := s.Add(Quote(0, "Ann", "New"));
  }
}
