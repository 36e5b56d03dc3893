/** The paging arithmetic of the listing endpoints: how many results a page skips,
    how many pages there are, and which results a page shows. */
module Pagination {

  /** Results skipped before page `page` (pages count from 1). */
  function Skip(page: int, limit: int): nat
    requires page >= 1 && limit >= 1
  {
    (page - 1) * limit
  }

  /** The first page skips nothing, and each page starts `limit` results after the one
      before it. */
  lemma SkipAdvances(page: int, limit: int)
    requires page >= 1 && limit >= 1
    ensures Skip(1, limit) == 0
    ensures Skip(page + 1, limit) == Skip(page, limit) + limit
  {
  }

  /** Number of pages: the total divided by the page size, rounded up. */
  function TotalPages(total: nat, limit: int): (r: nat)
    requires limit >= 1
    ensures total <= r * limit
    ensures r == 0 || (r - 1) * limit < total
  {
    CeilingDivision(total, limit);
    (total + limit - 1) / limit
  }

  lemma CeilingDivision(total: nat, limit: int)
    requires limit >= 1
    ensures total <= ((total + limit - 1) / limit) * limit
    ensures (total + limit - 1) / limit == 0 || ((total + limit - 1) / limit - 1) * limit < total
  {
    var q := (total + limit - 1) / limit;
    var r := (total + limit - 1) % limit;
    assert total + limit - 1 == q * limit + r && 0 <= r < limit;
  }

  /** The results page `page` shows: skip, then at most `limit` results. */
  function Window<T>(results: seq<T>, page: int, limit: int): (r: seq<T>)
    requires page >= 1 && limit >= 1
    ensures |r| <= limit
    ensures Skip(page, limit) >= |results| ==> r == []
    ensures Skip(page, limit) + limit <= |results| ==> |r| == limit
    ensures Skip(page, limit) < |results| < Skip(page, limit) + limit ==> |r| == |results| - Skip(page, limit)
    ensures forall i :: 0 <= i < |r| ==> Skip(page, limit) + i < |results| && r[i] == results[Skip(page, limit) + i]
  {
    var from := Skip(page, limit);
    if from >= |results| then []
    else if from + limit >= |results| then results[from..]
    else results[from..from + limit]
  }

  /** The first `count` pages, one after the other. */
  function Pages<T>(results: seq<T>, limit: int, count: nat): seq<T>
    requires limit >= 1
  {
    if count == 0 then [] else Pages(results, limit, count - 1) + Window(results, count, limit)
  }

  /** The first `count` pages are the first `count × limit` results. */
  lemma {:induction false} PagesPrefix<T>(results: seq<T>, limit: int, count: nat)
    requires limit >= 1
    ensures Pages(results, limit, count) == results[..Shown(|results|, count * limit)]
  {
    if count > 0 {
      PagesPrefix(results, limit, count - 1);
      var from := (count - 1) * limit;
      assert count * limit == from + limit;
      WindowExtends(results, count, limit, from);
    }
  }

  /** How many of `total` results the first `end` positions cover. */
  function Shown(total: nat, end: int): nat {
    if end <= 0 then 0 else if end <= total then end else total
  }

  /** Page `page` continues exactly where the pages before it stop. */
  lemma WindowExtends<T>(results: seq<T>, page: int, limit: int, from: nat)
    requires page >= 1 && limit >= 1
    requires from == (page - 1) * limit
    ensures results[..Shown(|results|, from)] + Window(results, page, limit) == results[..Shown(|results|, from + limit)]
  {
    if from >= |results| {
    } else if from + limit >= |results| {
      assert results[..from] + results[from..] == results;
    } else {
      assert results[..from] + results[from..from + limit] == results[..from + limit];
    }
  }

  /** Reading pages 1 to the page count shows every result once, in order, and any page
      after the last one is empty. */
  lemma PagesCoverResults<T>(results: seq<T>, limit: int, page: int)
    requires limit >= 1 && page >= 1
    ensures Pages(results, limit, TotalPages(|results|, limit)) == results
    ensures page > TotalPages(|results|, limit) ==> Window(results, page, limit) == []
  {
    var n := TotalPages(|results|, limit);
    PagesPrefix(results, limit, n);
    assert results[..|results|] == results;
    if page > n {
      assert (page - 1) * limit >= n * limit by {
        assert page - 1 >= n;
        MultiplyMonotone(n, page - 1, limit);
      }
    }
  }

  lemma MultiplyMonotone(a: nat, b: nat, c: nat)
    requires a <= b
    ensures a * c <= b * c
  {
  }
}
