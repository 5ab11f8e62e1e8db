/** The pagination numbers of a query, in exact arithmetic. */
module Paging {

  predicate HasNextPage(limit: nat, offset: nat, count: nat) {
    limit + offset < count
  }

  /** ceil(count / limit) */
  function Pages(limit: nat, count: nat): nat
    requires limit > 0
  {
    (count + limit - 1) / limit
  }

  /** LIMIT limit OFFSET offset */
  function Window<T>(rows: seq<T>, limit: nat, offset: nat): seq<T> {
    if offset >= |rows| then [] else if offset + limit >= |rows| then rows[offset..] else rows[offset..offset + limit]
  }

  /** The offset of the k-th step. */
  function Offset(k: nat, limit: nat): nat {
    k * limit
  }

  function Stepped<T>(rows: seq<T>, limit: nat, pages: nat): seq<T> {
    if pages == 0 then [] else Stepped(rows, limit, pages - 1) + Window(rows, limit, Offset(pages - 1, limit))
  }

  function Min(a: nat, b: nat): nat {
    if a < b then a else b
  }

  lemma {:induction false} SteppedPrefix<T>(rows: seq<T>, limit: nat, pages: nat)
    requires limit > 0
    ensures Stepped(rows, limit, pages) == rows[..Min(pages * limit, |rows|)]
  {
    if pages > 0 {
      SteppedPrefix(rows, limit, pages - 1);
      assert pages * limit == (pages - 1) * limit + limit;
    }
  }

  lemma PagesCover(limit: nat, count: nat)
    requires limit > 0
    ensures Pages(limit, count) * limit >= count
    ensures count > 0 ==> Pages(limit, count) > 0 && (Pages(limit, count) - 1) * limit < count
  {
    var p := Pages(limit, count);
    assert p * limit + (count + limit - 1) % limit == count + limit - 1;
    assert p > 0 ==> (p - 1) * limit == p * limit - limit;
  }

  /** Stepping the offset by the limit visits every row once and in order, and there is a next page on every step
      but the last. */
  lemma PagesVisitAll<T>(rows: seq<T>, limit: nat)
    requires limit > 0
    ensures Stepped(rows, limit, Pages(limit, |rows|)) == rows
    ensures forall k: nat :: k < Pages(limit, |rows|) ==>
      (HasNextPage(limit, Offset(k, limit), |rows|) <==> k + 1 < Pages(limit, |rows|))
  {
    var p := Pages(limit, |rows|);
    SteppedPrefix(rows, limit, p);
    PagesCover(limit, |rows|);
    forall k: nat | k < p
      ensures HasNextPage(limit, Offset(k, limit), |rows|) <==> k + 1 < p
    {
      assert (k + 1) * limit == k * limit + limit;
      if k + 1 < p {
        StepsApart(k + 1, p - 1, limit);
      } else {
        assert p * limit == k * limit + limit;
      }
    }
  }

  lemma StepsApart(a: nat, b: nat, limit: nat)
    requires a <= b
    ensures a * limit <= b * limit
  {
    assert b * limit - a * limit == (b - a) * limit;
  }

  /** A next page exists exactly when the window that follows this one holds a row. */
  lemma HasNextPageIff<T>(rows: seq<T>, limit: nat, offset: nat)
    requires limit > 0
    ensures HasNextPage(limit, offset, |rows|) <==> Window(rows, limit, offset + limit) != []
  {
    assert HasNextPage(limit, offset, |rows|) ==> |Window(rows, limit, offset + limit)| > 0;
  }
}
