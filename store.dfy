/**
  The in-memory quote store of internal/store/store.go. Every method runs
  under the store's mutex, so each is modelled as one atomic sequential step.
 */
module QuoteStore {
  import opened Quotes

  class Store {
    var quotes: seq<Quote>
    var nextId: int
    /** Every identifier this store has handed out so far, in the order of issue. */
    ghost var issued: seq<int>

    /**
      Object invariant: ids increase in insertion order and lie in
      1 .. nextId - 1, and the ids handed out so far are exactly 1 .. nextId - 1.
     */
    ghost predicate Valid()
      reads this
    {
      WellFormed(quotes, nextId) && issued == IssuedBelow(nextId)
    }

    /** An empty store whose first quote gets id 1. */
    constructor New()
      ensures Valid()
      ensures quotes == [] && nextId == 1
      ensures issued == []
    {
      quotes := [];
      nextId := 1;
      issued := [];
    }

    /**
      Stamps the caller's author and text with the next identifier (the id the
      caller passes is ignored), appends the quote and bumps the counter.
     */
    method Add(quote: Quote) returns (q: Quote)
      requires Valid()
      modifies this
      ensures Valid()
      ensures q == Quote(old(nextId), quote.author, quote.text)
      ensures quotes == old(quotes) + [q]
      ensures nextId == old(nextId) + 1
      ensures q.id !in old(issued) && issued == old(issued) + [q.id]
      ensures forall i :: 0 <= i < |old(quotes)| ==> old(quotes)[i].id < q.id
    {
      AppendWellFormed(quotes, nextId, quote.author, quote.text);
      q := Quote(nextId, quote.author, quote.text);
      quotes := quotes + [q];
      nextId := nextId + 1;
      issued := issued + [q.id];
    }

    /** All quotes, in insertion order. */
    method Get() returns (all: seq<Quote>)
      requires Valid()
      ensures all == quotes
      ensures IdsIncreasing(all)
    {
      all := quotes;
    }

    /**
      The stored quotes whose author equals `author`, in stored order; an empty
      sequence (never an error) when none match.
     */
    method GetByAuthor(author: string) returns (filtered: seq<Quote>)
      requires Valid()
      ensures filtered == ByAuthor(quotes, author)
      ensures forall q :: q in filtered <==> q in quotes && q.author == author
      ensures IdsIncreasing(filtered)
      ensures filtered == [] <==> forall i :: 0 <= i < |quotes| ==> quotes[i].author != author
    {
      filtered := [];
      for i := 0 to |quotes|
        invariant filtered == ByAuthor(quotes[..i], author)
      {
        assert quotes[..i + 1][..i] == quotes[..i];
        if quotes[i].author == author {
          filtered := filtered + [quotes[i]];
        }
      }
      assert quotes[..|quotes|] == quotes;
      ByAuthorMembers(quotes, author);
      ByAuthorIncreasing(quotes, author);
      ByAuthorEmpty(quotes, author);
    }

    /**
      Some stored quote, chosen by an index the model leaves unconstrained, or
      ErrNoQuotes when the store is empty.
     */
    method GetRandom() returns (r: Result<Quote>)
      requires Valid()
      ensures quotes == [] <==> r == Err(ErrNoQuotes)
      ensures r.Ok? <==> quotes != []
      ensures r.Ok? ==> r.value in quotes
    {
      if |quotes| == 0 {
        return Err(ErrNoQuotes);
      }
      var idx :| 0 <= idx < |quotes|;
      r := Ok(quotes[idx]);
    }

    /**
      Removes the first quote whose id is `id`, keeping the others in order,
      or reports ErrQuoteNotFound and leaves the store as it was.
     */
    method Delete(id: int) returns (err: Outcome)
      requires Valid()
      modifies this
      ensures Valid()
      ensures nextId == old(nextId) && issued == old(issued)
      ensures match old(FindId(quotes, id))
        case Some(i) => err == Success && quotes == old(quotes)[..i] + old(quotes)[i + 1..]
        case None => err == Failure(ErrQuoteNotFound) && quotes == old(quotes)
      ensures err == Success <==> old(HasId(quotes, id))
      ensures !HasId(quotes, id)
    {
      for i := 0 to |quotes|
        invariant quotes == old(quotes)
        invariant forall j :: 0 <= j < i ==> quotes[j].id != id
      {
        if quotes[i].id == id {
          RemoveWellFormed(quotes, nextId, i);
          quotes := quotes[..i] + quotes[i + 1..];
          return Success;
        }
      }
      return Failure(ErrQuoteNotFound);
    }
  }
}
