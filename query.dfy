/** The parts of a listing query the store evaluates: `ORDER BY created_at DESC`,
    and `LIMIT` / `OFFSET` with the clamping the handlers apply to them. */
module Query {
  import opened Api
  import opened Schema
  import opened Seqs

  /** The largest page size any listing handler asks for. */
  const MAX_LIMIT: int := 100

  /** `Math.min(parseInt(param ?? default), 100)`. */
  function EffectiveLimit(requested: Option<int>, default: int): (limit: int)
    ensures limit <= MAX_LIMIT
    ensures requested.None? ==> limit == if default < MAX_LIMIT then default else MAX_LIMIT
    ensures requested.Some? && requested.value <= MAX_LIMIT ==> limit == requested.value
    ensures requested.Some? && requested.value > MAX_LIMIT ==> limit == MAX_LIMIT
  {
    var n := match requested case Some(v) => v case None => default;
    if n < MAX_LIMIT then n else MAX_LIMIT
  }

  /** `parseInt(param ?? '0')`. */
  function EffectiveOffset(requested: Option<int>): (offset: int)
    ensures requested.None? ==> offset == 0
    ensures requested.Some? ==> offset == requested.value
  {
    match requested case Some(v) => v case None => 0
  }

  /** Where a page starts: a negative `OFFSET` behaves as zero, and one past the end
      leaves nothing. */
  function PageStart(length: nat, offset: int): (start: nat)
    ensures start <= length
  {
    if offset <= 0 then 0 else if offset >= length then length else offset
  }

  /** `LIMIT limit OFFSET offset` as the store evaluates it: skip `offset` rows, then
      keep at most `limit`; a negative `LIMIT` puts no bound on the rows. */
  function Page<T>(xs: seq<T>, limit: int, offset: int): (r: seq<T>)
    ensures |r| <= |xs| - PageStart(|xs|, offset)
    ensures limit >= 0 ==> |r| <= limit
    ensures limit < 0 ==> |r| == |xs| - PageStart(|xs|, offset)
    ensures limit >= 0 ==> |r| == Min(limit, |xs| - PageStart(|xs|, offset))
    ensures forall k :: 0 <= k < |r| ==> r[k] == xs[PageStart(|xs|, offset) + k]
    ensures Window(r, xs, limit, offset)
  {
    var start := PageStart(|xs|, offset);
    if limit < 0 || start + limit > |xs| then xs[start..] else xs[start..start + limit]
  }

  /** `page` is the run of `xs` that starts at `PageStart(|xs|, offset)` and holds
      `limit` rows, or every remaining row when fewer remain or `limit` is negative. */
  ghost predicate Window<T>(page: seq<T>, xs: seq<T>, limit: int, offset: int)
  {
    var start := PageStart(|xs|, offset);
    && |page| == (if limit < 0 then |xs| - start else Min(limit, |xs| - start))
    && forall k :: 0 <= k < |page| ==> page[k] == xs[start + k]
  }

  function Min(a: int, b: int): int
  {
    if a < b then a else b
  }

  /** With a non-negative limit a page is the slice from its start to `limit` rows
      further on, or to the end. */
  lemma PageIsSlice<T>(xs: seq<T>, limit: int, offset: int)
    requires limit >= 0
    ensures var start := PageStart(|xs|, offset);
      Page(xs, limit, offset) == xs[start..Min(start + limit, |xs|)]
  {
  }

  /** Two consecutive pages, the second starting where the first ends, make up the
      page of their combined size: paging through a listing neither skips nor repeats
      a row. */
  lemma PageSplit<T>(xs: seq<T>, l1: int, l2: int, offset: int)
    requires l1 >= 0 && l2 >= 0 && offset >= 0
    ensures Page(xs, l1, offset) + Page(xs, l2, offset + l1) == Page(xs, l1 + l2, offset)
  {
    var s := PageStart(|xs|, offset);
    var m := Min(s + l1, |xs|);
    var e := Min(s + l1 + l2, |xs|);
    PageIsSlice(xs, l1, offset);
    PageIsSlice(xs, l2, offset + l1);
    PageIsSlice(xs, l1 + l2, offset);
    assert PageStart(|xs|, offset + l1) == m;
    assert Min(m + l2, |xs|) == e;
    assert xs[s..m] + xs[m..e] == xs[s..e];
  }

  /** Every page of `limit` rows from `offset` on, fetched one after another with the
      offset moved on by `limit` each time, until the offset passes the end. */
  function PagesFrom<T>(xs: seq<T>, limit: int, offset: int): seq<T>
    requires limit > 0 && offset >= 0
    decreases |xs| - offset
  {
    if offset >= |xs| then [] else Page(xs, limit, offset) + PagesFrom(xs, limit, offset + limit)
  }

  /** Paging through a listing from `offset` gives the rest of the listing in one
      piece: no row is skipped or repeated. */
  lemma {:induction false} PagesFromTile<T>(xs: seq<T>, limit: int, offset: int)
    requires limit > 0 && offset >= 0
    ensures PagesFrom(xs, limit, offset) == if offset >= |xs| then [] else xs[offset..]
    decreases |xs| - offset
  {
    if offset < |xs| {
      PagesFromTile(xs, limit, offset + limit);
      PageIsSlice(xs, limit, offset);
      if offset + limit < |xs| {
        assert xs[offset..offset + limit] + xs[offset + limit..] == xs[offset..];
      }
    }
  }

  /** A page is a contiguous run of the listing, so it keeps the listing's order. */
  lemma PageKeepsOrder(xs: seq<Order>, limit: int, offset: int)
    requires NewestFirst(xs)
    ensures NewestFirst(Page(xs, limit, offset))
  {
  }

  /** Rows are in `created_at` descending order. */
  predicate NewestFirst(os: seq<Order>)
  {
    forall i, j :: 0 <= i < j < |os| ==> os[i].createdAt >= os[j].createdAt
  }

  /** Insert `o` into a listing that is already newest first. */
  function InsertNewestFirst(o: Order, os: seq<Order>): (r: seq<Order>)
    requires NewestFirst(os)
    ensures NewestFirst(r)
    ensures multiset(r) == multiset(os) + multiset{o}
    ensures |r| == |os| + 1
    ensures forall k :: 0 <= k < |r| ==> r[k] == o || r[k] in os
  {
    if os == [] || o.createdAt >= os[0].createdAt then
      [o] + os
    else
      var rest := InsertNewestFirst(o, os[1..]);
      BehindHead(os, rest, o);
      [os[0]] + rest
  }

  /** Putting the head of a newest-first listing back in front of the insertion into
      its tail gives the insertion into the whole listing. */
  lemma BehindHead(os: seq<Order>, rest: seq<Order>, o: Order)
    requires NewestFirst(os) && os != [] && o.createdAt < os[0].createdAt
    requires NewestFirst(rest) && multiset(rest) == multiset(os[1..]) + multiset{o}
    requires forall k :: 0 <= k < |rest| ==> rest[k] == o || rest[k] in os[1..]
    ensures var r := [os[0]] + rest;
      && NewestFirst(r)
      && multiset(r) == multiset(os) + multiset{o}
      && forall k :: 0 <= k < |r| ==> r[k] == o || r[k] in os
  {
    forall k | 0 <= k < |rest| ensures rest[k].createdAt <= os[0].createdAt {
      if rest[k] != o {
        var j := IndexOf(os[1..], rest[k]);
        assert os[j + 1] == rest[k];
      }
    }
    assert os == [os[0]] + os[1..];
  }

  /** `ORDER BY created_at DESC`: the same rows, newest first. */
  function SortNewestFirst(os: seq<Order>): (r: seq<Order>)
    ensures NewestFirst(r)
    ensures multiset(r) == multiset(os)
    ensures |r| == |os|
  {
    if os == [] then []
    else
      assert os == [os[0]] + os[1..];
      InsertNewestFirst(os[0], SortNewestFirst(os[1..]))
  }

  /** Sorting invents no rows. */
  lemma SortedFrom(os: seq<Order>)
    ensures forall k :: 0 <= k < |SortNewestFirst(os)| ==> SortNewestFirst(os)[k] in os
  {
    var sorted := SortNewestFirst(os);
    forall k | 0 <= k < |sorted| ensures sorted[k] in os {
      assert sorted[k] in multiset(sorted);
    }
  }
}
