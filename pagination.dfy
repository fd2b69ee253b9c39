/** `paginate` of `src/utils/request.ts` and the `limit`/`page`/`skip`
    defaults that every listing service computes before calling it. */
module Pagination {
  import opened Wrappers

  /** `Math.ceil(total / limit)`: a whole number, or one of the values a
      division by zero gives in JavaScript. */
  datatype PageCount = Finite(n: int) | PosInfinity | NegInfinity | NotANumber

  /** The least integer that is at least `a / b`. */
  function CeilDiv(a: int, b: int): (r: int)
    requires b != 0
    ensures b > 0 ==> (r - 1) * b < a <= r * b
    ensures b < 0 ==> r * b <= a < (r - 1) * b
  {
    if b > 0 then -((-a) / b) else -(a / (-b))
  }

  function LastPage(total: int, limit: int): (r: PageCount)
    ensures limit != 0 ==> r == Finite(CeilDiv(total, limit))
    ensures limit == 0 ==> (r == PosInfinity <==> total > 0) && (r == NegInfinity <==> total < 0)
                           && (r == NotANumber <==> total == 0)
  {
    if limit != 0 then Finite(CeilDiv(total, limit))
    else if total > 0 then PosInfinity
    else if total < 0 then NegInfinity
    else NotANumber
  }

  /** `page + 1 > lastpage`, where every comparison with NaN is false. */
  predicate PastLast(page: int, last: PageCount)
  {
    match last
    case Finite(n) => page + 1 > n
    case PosInfinity => false
    case NegInfinity => true
    case NotANumber => false
  }

  datatype Page<T> = Page(data: seq<T>, count: int, currentpage: int,
                          nextpage: Option<int>, prevpage: Option<int>, lastpage: PageCount)

  /** `paginate(data, page, limit, total)`. */
  function Paginate<T>(data: seq<T>, page: int, limit: int, total: int): (r: Page<T>)
    ensures r.data == data && r.count == total && r.currentpage == page
    ensures r.lastpage == LastPage(total, limit)
    ensures r.nextpage == None <==> PastLast(page, r.lastpage)
    ensures r.nextpage != None ==> r.nextpage == Some(page + 1)
    ensures r.prevpage == None <==> page - 1 < 1
    ensures r.prevpage != None ==> r.prevpage == Some(page - 1)
  {
    var last := LastPage(total, limit);
    Page(data, total, page,
         if PastLast(page, last) then None else Some(page + 1),
         if page - 1 < 1 then None else Some(page - 1),
         last)
  }

  /** With a positive limit there is a next page exactly when some item of
      `total` lies beyond the first `page * limit`. */
  lemma NextPageIffMore<T>(data: seq<T>, page: int, limit: int, total: int)
    requires limit > 0
    ensures Paginate(data, page, limit, total).nextpage.Some? <==> page * limit < total
  {
    var n := CeilDiv(total, limit);
    if page + 1 <= n {
      assert page * limit <= (n - 1) * limit by {
        assert page <= n - 1;
        MulMono(page, n - 1, limit);
      }
    } else {
      assert n * limit <= page * limit by {
        assert n <= page;
        MulMono(n, page, limit);
      }
    }
  }

  lemma MulMono(a: int, b: int, k: int)
    requires a <= b && k >= 0
    ensures a * k <= b * k
  {
  }

  /** A listing query's `limit` and `page` parameters: absent, or a number. */
  datatype Query = Query(limit: Option<nat>, page: Option<nat>)

  /** A listing called without `limit` and `page`, as the services do when
      they answer a write with the first page of a listing. */
  const NoQuery := Query(None, None)

  /** `limit ? limit : 10`. */
  function LimitOf(q: Query): (r: nat)
    ensures r >= 1
    ensures q.limit.Some? && q.limit.value != 0 ==> r == q.limit.value
    ensures q.limit.None? || q.limit.value == 0 ==> r == 10
  {
    if q.limit.Some? && q.limit.value != 0 then q.limit.value else 10
  }

  /** `page ? page : 1`. */
  function PageOf(q: Query): (r: nat)
    ensures r >= 1
    ensures q.page.Some? && q.page.value != 0 ==> r == q.page.value
    ensures q.page.None? || q.page.value == 0 ==> r == 1
  {
    if q.page.Some? && q.page.value != 0 then q.page.value else 1
  }

  /** `page ? (page - 1) * limit : 1 * limit`, after the defaults: the page
      is never falsy there, so the rows of the earlier pages are skipped. */
  function SkipOf(q: Query): nat
  {
    (PageOf(q) - 1) * LimitOf(q)
  }

  /** Prisma's `take` and `skip` on an ordered result. */
  function Window<T>(rows: seq<T>, take: nat, skip: nat): (r: seq<T>)
    ensures |r| <= take
    ensures skip <= |rows| ==> |r| == if |rows| - skip < take then |rows| - skip else take
    ensures skip >= |rows| ==> r == []
    ensures |r| > 0 ==> skip + |r| <= |rows|
    ensures forall i :: 0 <= i < |r| ==> r[i] == rows[skip + i]
  {
    if skip >= |rows| then []
    else if |rows| - skip <= take then rows[skip..]
    else rows[skip..skip + take]
  }

  /** The windows of consecutive pages follow each other without gap or overlap. */
  lemma {:induction false} WindowsConsecutive<T>(rows: seq<T>, limit: nat, page: nat)
    requires limit >= 1 && page >= 1
    ensures Window(rows, limit, (page - 1) * limit) + Window(rows, limit, page * limit)
            == Window(rows, 2 * limit, (page - 1) * limit)
  {
    var s := (page - 1) * limit;
    assert page * limit == s + limit;
    var a, b, c := Window(rows, limit, s), Window(rows, limit, s + limit), Window(rows, 2 * limit, s);
    if s >= |rows| {
    } else if s + limit >= |rows| {
      assert b == [];
      assert a == rows[s..];
      assert c == rows[s..];
    } else {
      assert a == rows[s..s + limit];
      assert c == rows[s..] || c == rows[s..s + 2 * limit];
      if |rows| - (s + limit) <= limit {
        assert b == rows[s + limit..];
        assert c == rows[s..];
        assert rows[s..] == rows[s..s + limit] + rows[s + limit..];
      } else {
        assert b == rows[s + limit..s + 2 * limit];
        assert c == rows[s..s + 2 * limit];
        assert rows[s..s + 2 * limit] == rows[s..s + limit] + rows[s + limit..s + 2 * limit];
      }
    }
  }

  /** Taking `a` rows and then `b` more after them takes the first `a + b`. */
  lemma WindowSplit<T>(rows: seq<T>, a: nat, b: nat)
    ensures Window(rows, a, 0) + Window(rows, b, a) == Window(rows, a + b, 0)
  {
    if a >= |rows| {
      assert Window(rows, a, 0) == rows[0..];
    } else if a + b >= |rows| {
      assert rows[0..] == rows[0..a] + rows[a..];
    } else {
      assert rows[0..a + b] == rows[0..a] + rows[a..a + b];
    }
  }

  /** The rows shown on pages 1 to `n` of a listing, page after page. */
  function EarlierPages<T>(rows: seq<T>, limit: nat, n: nat): seq<T>
  {
    if n == 0 then [] else EarlierPages(rows, limit, n - 1) + Window(rows, limit, (n - 1) * limit)
  }

  /** Pages 1 to `n` together are the first `n * limit` rows. */
  lemma {:induction false} EarlierPagesPrefix<T>(rows: seq<T>, limit: nat, n: nat)
    ensures EarlierPages(rows, limit, n) == Window(rows, n * limit, 0)
  {
    if n == 0 {
    } else {
      EarlierPagesPrefix(rows, limit, n - 1);
      WindowSplit(rows, (n - 1) * limit, limit);
      assert (n - 1) * limit + limit == n * limit;
    }
  }

  /** The skip of a listing query passes over exactly the rows of the pages
      before the requested one, so the requested page begins right after
      them and pages 1 to `page` are the first `page * limit` rows. */
  lemma SkipFollowsEarlierPages<T>(rows: seq<T>, q: Query)
    ensures Window(rows, SkipOf(q), 0) == EarlierPages(rows, LimitOf(q), PageOf(q) - 1)
    ensures EarlierPages(rows, LimitOf(q), PageOf(q)) ==
              EarlierPages(rows, LimitOf(q), PageOf(q) - 1) + Window(rows, LimitOf(q), SkipOf(q))
    ensures EarlierPages(rows, LimitOf(q), PageOf(q)) == Window(rows, PageOf(q) * LimitOf(q), 0)
  {
    EarlierPagesPrefix(rows, LimitOf(q), PageOf(q) - 1);
    EarlierPagesPrefix(rows, LimitOf(q), PageOf(q));
  }
}
