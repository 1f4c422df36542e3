/** The page and limit parameters of list requests, in fixed-width arithmetic. */
module Pagination {
  import opened Base
  import opened Text

  const DEFAULT_PAGE := 1
  const DEFAULT_LIMIT := 50
  const MAX_LIMIT := 100

  datatype Page = Page(page: int, limit: int)

  datatype Rejection = BadPage | BadLimit | PageTooLarge

  /** Two's complement: values above `maxInt` come round at the bottom. */
  function Wrap(x: int, maxInt: int): int
    requires maxInt >= 0
  {
    (x + maxInt + 1) % (2 * maxInt + 2) - maxInt - 1
  }

  /** The value of a parameter; an absent one takes the default. */
  function Given(raw: string, preset: int, maxInt: int): Option<int> {
    if raw == "" then Some(preset) else Atoi(raw, maxInt)
  }

  function Offset(p: Page, maxInt: int): int
    requires maxInt >= 0
  {
    Wrap(Wrap(p.page - 1, maxInt) * p.limit, maxInt)
  }

  /** A request is accepted exactly when its page and limit are numbers in range, the limit is not 1, and
      the offset of its first row fits a word. With limit 1 the bound itself wraps, so that every page is
      too large. */
  method ParsePagination(rawPage: string, rawLimit: string, maxInt: int) returns (r: Result<Page, Rejection>)
    requires maxInt >= MAX_LIMIT
    ensures r.Ok? <==> var page, limit := Given(rawPage, DEFAULT_PAGE, maxInt), Given(rawLimit, DEFAULT_LIMIT, maxInt);
                       && page.Some? && limit.Some? && 1 <= page.value && 2 <= limit.value <= MAX_LIMIT
                       && (page.value - 1) * limit.value <= maxInt
    ensures r.Ok? ==> Some(r.value.page) == Given(rawPage, DEFAULT_PAGE, maxInt)
    ensures r.Ok? ==> Some(r.value.limit) == Given(rawLimit, DEFAULT_LIMIT, maxInt)
    ensures r == Err(BadPage) <==> var page := Given(rawPage, DEFAULT_PAGE, maxInt); page.None? || page.value < 1
  {
    hide Atoi;
    var page, limit := DEFAULT_PAGE, DEFAULT_LIMIT;
    if rawPage != "" {
      var parsed := Atoi(rawPage, maxInt);
      if parsed.None? || parsed.value < 1 { return Err(BadPage); }
      page := parsed.value;
    }
    if rawLimit != "" {
      var parsed := Atoi(rawLimit, maxInt);
      if parsed.None? || parsed.value < 1 || parsed.value > MAX_LIMIT { return Err(BadLimit); }
      limit := parsed.value;
    }
    BoundIsExactIff(page, limit, maxInt);
    if page > Wrap(maxInt / limit + 1, maxInt) { return Err(PageTooLarge); }
    r := Ok(Page(page, limit));
  }

  lemma BoundIsExactIff(page: int, limit: int, maxInt: int)
    requires 1 <= page && 1 <= limit <= MAX_LIMIT <= maxInt
    ensures page <= Wrap(maxInt / limit + 1, maxInt) <==> limit > 1 && (page - 1) * limit <= maxInt
  {
    var q := maxInt / limit;
    DivisionBound(page - 1, limit, maxInt);
    if limit == 1 {
      assert q == maxInt;
      WrapAround(maxInt);
    } else {
      Halves(maxInt, limit);
      WrapFits(q + 1, maxInt);
    }
  }

  lemma DivisionBound(a: int, limit: int, maxInt: int)
    requires 0 <= a && 1 <= limit && 0 <= maxInt
    ensures a <= maxInt / limit <==> a * limit <= maxInt
  {
    var q := maxInt / limit;
    assert q * limit <= maxInt < q * limit + limit;
    if a <= q {
      MulMonotone(a, q, limit);
    } else {
      MulMonotone(q + 1, a, limit);
      assert (q + 1) * limit == q * limit + limit;
    }
  }

  lemma MulMonotone(a: int, b: int, c: int)
    requires a <= b && 0 <= c
    ensures a * c <= b * c
  {}

  lemma Halves(maxInt: int, limit: int)
    requires 2 <= limit && 2 <= maxInt
    ensures 0 <= maxInt / limit < maxInt
  {}

  lemma WrapFits(x: int, maxInt: int)
    requires 0 <= maxInt && -maxInt - 1 <= x <= maxInt
    ensures Wrap(x, maxInt) == x
  {
    SmallMod(x + maxInt + 1, 2 * maxInt + 2);
  }

  lemma SmallMod(a: int, m: int)
    requires 0 <= a < m
    ensures a % m == a
  {}

  lemma WrapAround(maxInt: int)
    requires maxInt >= 0
    ensures Wrap(maxInt + 1, maxInt) == -maxInt - 1
  {}

  // ---- Pages of a list ----

  predicate Accepted(p: Page, maxInt: int) {
    1 <= p.page && 2 <= p.limit <= MAX_LIMIT && (p.page - 1) * p.limit <= maxInt
  }

  /** The offset of an accepted page does not overflow. */
  lemma OffsetFits(p: Page, maxInt: int)
    requires Accepted(p, maxInt) && p.page <= maxInt && 0 <= maxInt
    ensures Offset(p, maxInt) == (p.page - 1) * p.limit && 0 <= Offset(p, maxInt) <= maxInt
  {
    WrapFits(p.page - 1, maxInt);
    MulMonotone(0, p.page - 1, p.limit);
    WrapFits((p.page - 1) * p.limit, maxInt);
  }

  /** ... LIMIT limit OFFSET offset, over a fixed ordering of the rows. */
  function Slice<T>(rows: seq<T>, offset: int, limit: int): seq<T>
    requires 0 <= offset && 0 <= limit
  {
    rows[Min(offset, |rows|)..Min(offset + limit, |rows|)]
  }

  function PageOf<T>(rows: seq<T>, p: Page, maxInt: int): seq<T>
    requires maxInt >= 0
  {
    if Accepted(p, maxInt) && Offset(p, maxInt) >= 0 then Slice(rows, Offset(p, maxInt), p.limit) else []
  }

  function Pages<T>(rows: seq<T>, limit: int, n: nat, maxInt: int): seq<T>
    requires maxInt >= 0
  {
    if n == 0 then [] else Pages(rows, limit, n - 1, maxInt) + PageOf(rows, Page(n, limit), maxInt)
  }

  function PageCount(total: nat, limit: int): nat
    requires limit > 0
  {
    (total + limit - 1) / limit
  }

  lemma {:induction false} PagesArePrefix<T>(rows: seq<T>, limit: int, n: nat, maxInt: int)
    requires 2 <= limit <= MAX_LIMIT && |rows| <= maxInt && n <= PageCount(|rows|, limit)
    ensures 0 <= n * limit && Pages(rows, limit, n, maxInt) == rows[..Min(n * limit, |rows|)]
  {
    if n > 0 {
      PagesArePrefix(rows, limit, n - 1, maxInt);
      LastPageStarts(|rows|, limit, n);
      OffsetFits(Page(n, limit), maxInt);
      assert n * limit == (n - 1) * limit + limit;
      SliceAppends(rows, (n - 1) * limit, limit);
      hide Slice, Offset, Accepted, PageCount;
    }
  }

  lemma SliceAppends<T>(rows: seq<T>, offset: int, limit: int)
    requires 0 <= offset < |rows| && 0 <= limit
    ensures rows[..offset] + Slice(rows, offset, limit) == rows[..Min(offset + limit, |rows|)]
  {}

  /** Every counted page starts before the end of the list, so it is accepted. */
  lemma LastPageStarts(total: nat, limit: int, n: nat)
    requires 2 <= limit && 0 < n <= PageCount(total, limit)
    ensures 0 <= (n - 1) * limit < total && n <= total
  {}

  /** Pages 1 to ceil(total/limit), one after the other, are the whole list: no row is lost and none is
      repeated. */
  lemma PagesAreTheList<T>(rows: seq<T>, limit: int, maxInt: int)
    requires 2 <= limit <= MAX_LIMIT && |rows| <= maxInt
    ensures Pages(rows, limit, PageCount(|rows|, limit), maxInt) == rows
    ensures forall n :: 1 <= n <= PageCount(|rows|, limit) ==> Accepted(Page(n, limit), maxInt)
  {
    var n := PageCount(|rows|, limit);
    PagesArePrefix(rows, limit, n, maxInt);
    LastPageEnds(|rows|, limit);
    forall k | 1 <= k <= n ensures Accepted(Page(k, limit), maxInt) { LastPageStarts(|rows|, limit, k); }
    hide Accepted, PageCount, Pages;
  }

  lemma LastPageEnds(total: nat, limit: int)
    requires 2 <= limit
    ensures PageCount(total, limit) * limit >= total
  {}

  /** The rows of an accepted page are those from its offset on, at most `limit` of them. */
  lemma PageRows<T>(rows: seq<T>, p: Page, maxInt: int)
    requires Accepted(p, maxInt) && p.page <= maxInt && 0 <= maxInt
    ensures var page, first := PageOf(rows, p, maxInt), (p.page - 1) * p.limit;
            && 0 <= first && |page| == Min(p.limit, Max(|rows| - first, 0))
            && forall k :: 0 <= k < |page| ==> page[k] == rows[first + k]
  {
    OffsetFits(p, maxInt);
    hide Offset;
  }

  /** An absent parameter takes its default, a written number is read where it fits the word. */
  lemma GivenNumber(n: int, preset: int, maxInt: int)
    requires n >= 0 && maxInt >= 0
    ensures Given("", preset, maxInt) == Some(preset) && Given(Written(n), preset, maxInt) == if n <= maxInt then Some(n) else None
  {
    AtoiReads(n, maxInt);
    WrittenIsRead(n);
    hide Atoi, Written;
  }
}
