/** The page arithmetic of `getSongs`: `page` and `limit` from the query string, the
    number of records to skip, and the page count reported next to the total.

    `parseInt` is applied to the query parameters before the model starts: a parameter is
    `None` when missing or when `parseInt` gives `NaN`, and otherwise the integer it gives.
    A digit string that `parseInt` reads as `Infinity` is outside this model.
    The database query that uses `skip` and `limit` is not part of this model; its result
    (the songs of the page and the total) is an input. */
module Pagination {
  import opened Common

  const DefaultPage: int := 1
  const DefaultLimit: int := 20

  /** `parseInt(x) || d`: `NaN` and 0 are falsy. */
  function OrDefault(parsed: Option<int>, d: int): int {
    match parsed
    case None => d
    case Some(n) => if n == 0 then d else n
  }

  /** `Math.ceil(x)`: the least integer not below `x`. */
  function Ceil(x: real): (r: int)
    ensures x <= r as real < x + 1.0
  {
    -((-x).Floor)
  }

  /** `Math.ceil(total / limit)`, with `/` the real division of JavaScript numbers. */
  function Pages(total: nat, limit: int): int
    requires limit != 0
  {
    Ceil(total as real / limit as real)
  }

  /** The reply `{success, count, total, page, pages, songs}`. */
  datatype SongsPage<T> = SongsPage(count: nat, total: nat, page: int, pages: int, songs: seq<T>)

  /** The query the handler issues: `skip` and `limit`. */
  datatype PageQuery = PageQuery(skip: int, limit: int)

  function Query(pageArg: Option<int>, limitArg: Option<int>): PageQuery {
    var page := OrDefault(pageArg, DefaultPage);
    var limit := OrDefault(limitArg, DefaultLimit);
    PageQuery((page - 1) * limit, limit)
  }

  /** The reply built from the query's results. */
  function Reply<T>(pageArg: Option<int>, limitArg: Option<int>, songs: seq<T>, total: nat): SongsPage<T> {
    var page := OrDefault(pageArg, DefaultPage);
    var limit := OrDefault(limitArg, DefaultLimit);
    SongsPage(|songs|, total, page, Pages(total, limit), songs)
  }

  /** Missing, unparsable and zero parameters give page 1 and limit 20, so no query
      skips anything on the first page and the limit is never 0. */
  lemma Defaults(pageArg: Option<int>, limitArg: Option<int>)
    ensures pageArg.None? || pageArg == Some(0) ==> Query(pageArg, limitArg).skip == 0
    ensures limitArg.None? || limitArg == Some(0) ==> Query(pageArg, limitArg).limit == 20
    ensures Query(pageArg, limitArg).limit != 0
    ensures limitArg.Some? && limitArg.value != 0 ==> Query(pageArg, limitArg).limit == limitArg.value
  {
  }

  /** `skip` is the number of records on the pages before this one: page 1 starts at 0
      and each page starts `limit` records after the previous one. */
  lemma SkipAdvancesByLimit(p: int, limitArg: Option<int>)
    requires p != 0 && p + 1 != 0
    ensures Query(Some(p + 1), limitArg).skip == Query(Some(p), limitArg).skip + Query(Some(p), limitArg).limit
    ensures Query(Some(1), limitArg).skip == 0
  {
    var limit := OrDefault(limitArg, DefaultLimit);
    assert (p + 1 - 1) * limit == (p - 1) * limit + limit;
  }

  /** Multiplying a real bound by a positive whole number keeps it, in integers. */
  lemma ScaleBound(p: int, total: nat, limit: int)
    requires limit > 0
    ensures p as real >= total as real / limit as real ==> p * limit >= total
    ensures p as real < total as real / limit as real ==> p * limit < total
  {
    var x := total as real / limit as real;
    assert x * limit as real == total as real;
    assert (p * limit) as real == (p as real) * (limit as real);
    if p as real >= x {
      assert (p as real) * (limit as real) >= x * (limit as real);
    } else {
      assert (p as real) * (limit as real) < x * (limit as real);
    }
  }

  /** An integer `p` with `(p - 1) * limit < total <= p * limit` is the quotient of
      `total + limit - 1` by `limit`. */
  lemma CeilingDivisionUnique(p: int, total: nat, limit: int)
    requires limit > 0 && (p - 1) * limit < total <= p * limit
    ensures p == (total + limit - 1) / limit
  {
    var q, r := (total + limit - 1) / limit, (total + limit - 1) % limit;
    assert total + limit - 1 == q * limit + r && 0 <= r < limit;
    if p < q {
      MulMonotone(p, q - 1, limit);
    } else if p > q {
      MulMonotone(q, p - 1, limit);
    }
  }

  /** Multiplication by a positive number keeps order. */
  lemma MulMonotone(a: int, b: int, c: int)
    requires a <= b && c > 0
    ensures a * c <= b * c
  {
  }

  /** For a positive limit, `pages` is the integer ceiling of `total / limit`: the least
      number of pages of `limit` records that hold `total` records. */
  lemma PagesIsCeilingDivision(total: nat, limit: int)
    requires limit > 0
    ensures Pages(total, limit) * limit >= total
    ensures (Pages(total, limit) - 1) * limit < total
    ensures Pages(total, limit) == (total + limit - 1) / limit
    ensures Pages(total, limit) >= 0
  {
    var p := Pages(total, limit);
    ScaleBound(p, total, limit);
    ScaleBound(p - 1, total, limit);
    CeilingDivisionUnique(p, total, limit);
  }

  /** With the default limit, 45 records take 3 pages, 40 take 2, and none take 0. */
  lemma PagesExamples()
    ensures Pages(45, 20) == 3 && Pages(40, 20) == 2 && Pages(0, 20) == 0 && Pages(1, 20) == 1
  {
    PagesIsCeilingDivision(45, 20);
    PagesIsCeilingDivision(40, 20);
    PagesIsCeilingDivision(0, 20);
    PagesIsCeilingDivision(1, 20);
  }

  /** For a positive limit, pages 1 to `pages` start inside the record list and the page
      after the last starts at or past its end. */
  lemma LastPageIsPages(total: nat, pageArg: Option<int>, limitArg: Option<int>)
    requires OrDefault(limitArg, DefaultLimit) > 0
    ensures var q := Query(pageArg, limitArg);
      var pages := Pages(total, q.limit);
      var page := OrDefault(pageArg, DefaultPage);
      && (1 <= page <= pages ==> 0 <= q.skip < total)
      && (page > pages ==> q.skip >= total)
  {
    var q := Query(pageArg, limitArg);
    var page := OrDefault(pageArg, DefaultPage);
    PagesIsCeilingDivision(total, q.limit);
    var pages := Pages(total, q.limit);
    if 1 <= page <= pages {
      MulMonotone(0, page - 1, q.limit);
      MulMonotone(page - 1, pages - 1, q.limit);
    }
    if page > pages {
      MulMonotone(pages, page - 1, q.limit);
    }
  }

  /** The reply reports the page the query asked for, the number of songs it returned and
      the total; for a positive limit, the page is within the reported page count exactly
      when the query starts inside the record list. */
  lemma ReplyIsConsistent<T>(pageArg: Option<int>, limitArg: Option<int>, songs: seq<T>, total: nat)
    requires OrDefault(limitArg, DefaultLimit) > 0 && OrDefault(pageArg, DefaultPage) >= 1
    ensures var r := Reply(pageArg, limitArg, songs, total);
      && r.count == |songs| && r.total == total && r.page == OrDefault(pageArg, DefaultPage)
      && (r.page <= r.pages <==> Query(pageArg, limitArg).skip < total)
  {
    LastPageIsPages(total, pageArg, limitArg);
  }
}
