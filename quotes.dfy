/**
  Values shared by both copies of the quote store: the quote record, the two
  error values, and the specification functions that the store's methods are
  proved against.
 */
module Quotes {

  /** A stored quote. `text` is the field the wire format calls `quote`. */
  datatype Quote = Quote(id: int, author: string, text: string)

  /** The two errors the store can report. */
  datatype Error = ErrNoQuotes | ErrQuoteNotFound

  /** A Go `(T, error)` return: either a value with a nil error, or an error. */
  datatype Result<T> = Ok(value: T) | Err(error: Error)

  /** A Go `error` return: nil, or an error. */
  datatype Outcome = Success | Failure(error: Error)

  datatype Option<T> = None | Some(value: T)

  /** Identifiers strictly increase in sequence (insertion) order. */
  ghost predicate IdsIncreasing(qs: seq<Quote>) {
    forall i, j :: 0 <= i < j < |qs| ==> qs[i].id < qs[j].id
  }

  /** Every identifier is one the counter has already handed out. */
  ghost predicate IdsIssued(qs: seq<Quote>, nextId: int) {
    forall i :: 0 <= i < |qs| ==> 1 <= qs[i].id < nextId
  }

  /** The store invariant: a counter that started at 1, increasing ids below it. */
  ghost predicate WellFormed(qs: seq<Quote>, nextId: int) {
    1 <= nextId && IdsIncreasing(qs) && IdsIssued(qs, nextId)
  }

  ghost predicate HasId(qs: seq<Quote>, id: int) {
    exists i :: 0 <= i < |qs| && qs[i].id == id
  }

  /** The identifiers issued by a counter that now stands at `nextId`: 1, 2, ..., nextId - 1. */
  ghost function IssuedBelow(nextId: int): seq<int>
    requires 1 <= nextId
  {
    seq(nextId - 1, k => k + 1)
  }

  /** The quotes of `qs` whose author is exactly `author`, in their stored order. */
  ghost function ByAuthor(qs: seq<Quote>, author: string): seq<Quote>
  {
    if qs == [] then []
    else
      var last := qs[|qs| - 1];
      ByAuthor(qs[..|qs| - 1], author) + (if last.author == author then [last] else [])
  }

  /** The position of the first quote with identifier `id`, if there is one. */
  ghost function FindId(qs: seq<Quote>, id: int): (r: Option<nat>)
    ensures r.Some? ==> r.value < |qs| && qs[r.value].id == id
    ensures r.Some? ==> forall j :: 0 <= j < r.value ==> qs[j].id != id
    ensures r.None? <==> !HasId(qs, id)
  {
    if qs == [] then None
    else if qs[0].id == id then Some(0)
    else
      match FindId(qs[1..], id)
      case None => None
      case Some(k) => Some(k + 1)
  }

  /** A quote is in the filtered sequence exactly when it is stored and has that author. */
  lemma {:induction false} ByAuthorMembers(qs: seq<Quote>, author: string)
    ensures forall q :: q in ByAuthor(qs, author) <==> q in qs && q.author == author
  {
    if qs != [] {
      var init := qs[..|qs| - 1];
      ByAuthorMembers(init, author);
      assert qs == init + [qs[|qs| - 1]];
    }
  }

  /** The filtered sequence is empty exactly when no stored quote has that author. */
  lemma ByAuthorEmpty(qs: seq<Quote>, author: string)
    ensures ByAuthor(qs, author) == [] <==> forall i :: 0 <= i < |qs| ==> qs[i].author != author
  {
    ByAuthorMembers(qs, author);
    if ByAuthor(qs, author) != [] {
      assert ByAuthor(qs, author)[0] in ByAuthor(qs, author);
    }
  }

  /** Filtering distributes over concatenation: relative order is kept. */
  lemma {:induction false} ByAuthorAppend(s: seq<Quote>, t: seq<Quote>, author: string)
    ensures ByAuthor(s + t, author) == ByAuthor(s, author) + ByAuthor(t, author)
  {
    if t == [] {
      assert s + t == s;
    } else {
      var init := t[..|t| - 1];
      ByAuthorAppend(s, init, author);
      assert (s + t)[..|s + t| - 1] == s + init;
    }
  }

  /** Filtering a store whose ids increase yields quotes whose ids increase. */
  lemma {:induction false} ByAuthorIncreasing(qs: seq<Quote>, author: string)
    requires IdsIncreasing(qs)
    ensures IdsIncreasing(ByAuthor(qs, author))
  {
    if qs != [] {
      var init := qs[..|qs| - 1];
      var last := qs[|qs| - 1];
      ByAuthorIncreasing(init, author);
      ByAuthorMembers(init, author);
      var f := ByAuthor(init, author);
      forall i | 0 <= i < |f|
        ensures f[i].id < last.id
      {
        assert f[i] in init;
      }
    }
  }

  /** Two id-increasing sequences with the same members are equal. */
  lemma {:induction false} IncreasingSameMembers(r1: seq<Quote>, r2: seq<Quote>)
    requires IdsIncreasing(r1) && IdsIncreasing(r2)
    requires forall q :: q in r1 <==> q in r2
    ensures r1 == r2
    decreases |r1| + |r2|
  {
    assert r1 != [] ==> r1[0] in r2;
    assert r2 != [] ==> r2[0] in r1;
    if r1 != [] {
      assert r1[0] in r2;
      var k :| 0 <= k < |r2| && r2[k] == r1[0];
      assert r2[0] in r1;
      var m :| 0 <= m < |r1| && r1[m] == r2[0];
      assert r1[0].id <= r1[m].id;
      assert r2[k].id <= r2[0].id;
      assert k == 0;
      forall q
        ensures q in r1[1..] <==> q in r2[1..]
      {
        if q in r1[1..] {
          var a :| 1 <= a < |r1| && r1[a] == q;
          assert q in r2;
          assert q != r2[0];
        }
        if q in r2[1..] {
          var b :| 1 <= b < |r2| && r2[b] == q;
          assert q in r1;
          assert q != r1[0];
        }
      }
      IncreasingSameMembers(r1[1..], r2[1..]);
      assert r1 == [r1[0]] + r1[1..];
      assert r2 == [r2[0]] + r2[1..];
    }
  }

  /**
    An independent characterisation of filtering in a well-formed store: the
    only id-increasing sequence holding exactly the stored quotes by `author`
    is ByAuthor(qs, author).
   */
  lemma ByAuthorUnique(qs: seq<Quote>, author: string, r: seq<Quote>)
    requires IdsIncreasing(qs) && IdsIncreasing(r)
    requires forall q :: q in r <==> q in qs && q.author == author
    ensures r == ByAuthor(qs, author)
  {
    ByAuthorMembers(qs, author);
    ByAuthorIncreasing(qs, author);
    IncreasingSameMembers(r, ByAuthor(qs, author));
  }

  /** Appending a quote stamped with the counter, then bumping it, keeps the invariant. */
  lemma AppendWellFormed(qs: seq<Quote>, nextId: int, author: string, text: string)
    requires WellFormed(qs, nextId)
    ensures WellFormed(qs + [Quote(nextId, author, text)], nextId + 1)
  {
  }

  /** Removing one element keeps the invariant and drops that element's id. */
  lemma RemoveWellFormed(qs: seq<Quote>, nextId: int, i: nat)
    requires WellFormed(qs, nextId) && i < |qs|
    ensures WellFormed(qs[..i] + qs[i + 1..], nextId)
    ensures !HasId(qs[..i] + qs[i + 1..], qs[i].id)
  {
    var r := qs[..i] + qs[i + 1..];
    forall j | 0 <= j < |r|
      ensures r[j] == if j < i then qs[j] else qs[j + 1]
    {
    }
  }

  /** In a store whose ids increase, identifiers are unique. */
  lemma IdsUnique(qs: seq<Quote>, i: nat, j: nat)
    requires IdsIncreasing(qs) && i < |qs| && j < |qs|
    requires qs[i].id == qs[j].id
    ensures i == j
  {
  }
}
