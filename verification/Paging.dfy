/** Pages of a list, by offset as Gmail gives them out and by number as GitHub does. */
module Paging {
  import opened Tables
  import opened GoNumbers

  /** A result that does not fit a 64-bit integer wraps around. */
  function Wrap(n: int): (r: Int64)
    ensures INT64_MIN <= n <= INT64_MAX ==> r == n
  {
    (n - INT64_MIN) % 0x1_0000_0000_0000_0000 + INT64_MIN
  }

  /** The items from `start` on, at most `count` of them. */
  function Window<T>(items: seq<T>, start: nat, count: nat): seq<T> {
    if start >= |items| then [] else if start + count > |items| then items[start..] else items[start..start + count]
  }

  function Concat<T>(pages: seq<seq<T>>): seq<T> {
    if pages == [] then [] else pages[0] + Concat(pages[1..])
  }

  // ---------------------------------------------------------------- pages by offset

  function ParseOffset(value: string): (r: Int64)
    ensures r >= 0
  {
    match ParseInt(value)
    case Some(n) => if n < 0 then 0 else n
    case None => 0
  }

  function NormalizeLimit(value: string, fallback: Int64, max: Int64): (r: Int64)
    requires 0 < fallback <= max
    ensures 0 < r <= max
  {
    match ParseInt(value)
    case Some(n) => if n <= 0 then fallback else if n > max then max else n
    case None => fallback
  }

  /** One page, and the offset of the next if one is offered. The end of a page is computed in 64 bits. */
  method PageRecords<T>(items: seq<T>, offset: Int64, limit: Int64) returns (page: seq<T>, next: Option<Int64>)
    requires offset >= 0 && 0 < limit && |items| + limit <= INT64_MAX
    ensures page == Window(items, offset, limit)
    ensures next == NextOffset(|items|, offset, limit)
  {
    if offset >= |items| {
      page := [];
    } else {
      var end: Int64 := Wrap(offset + limit);
      if end > |items| {
        end := |items|;
      }
      page := items[offset..end];
    }
    next := NextOffset(|items|, offset, limit);
  }

  function NextOffset(total: nat, offset: Int64, limit: Int64): Option<Int64> {
    var end := Wrap(offset + limit);
    if end < total then Some(end) else None
  }

  /** A next page is offered exactly when items remain behind this one, unless the offset is so close to the largest
      integer that the end of the page wraps around. */
  lemma NextOfferedIff(total: nat, offset: Int64, limit: Int64)
    requires offset >= 0 && 0 < limit && total + limit <= INT64_MAX
    ensures (NextOffset(total, offset, limit).Some? <==> offset + limit < total) <==> offset + limit <= INT64_MAX
    ensures offset + limit <= INT64_MAX && offset + limit < total ==>
            NextOffset(total, offset, limit) == Some(offset + limit)
  {
    var n := offset + limit;
    if n > INT64_MAX {
      WrapsBelow(n);
    }
  }

  lemma WrapsBelow(n: int)
    requires INT64_MAX < n <= 2 * INT64_MAX
    ensures Wrap(n) == n - 0x1_0000_0000_0000_0000
  {
  }

  /** An offered offset that is not negative is read back from its text. */
  lemma OffsetReadsBack(next: Int64)
    ensures ParseOffset(Itoa(next)) == if next < 0 then 0 else next
  {
    hide Itoa, ParseInt;
    ItoaReadsBack(next);
  }

  /** The pages a client sees that starts at `offset` and sends the offered tokens back. */
  ghost function Walk<T>(items: seq<T>, offset: Int64, limit: Int64): seq<seq<T>>
    requires 0 <= offset && 0 < limit && |items| + limit <= INT64_MAX
    decreases |items| - offset
  {
    [Window(items, offset, limit)]
    + match NextOffset(|items|, offset, limit)
      case Some(next) =>
        var following := ParseOffset(Itoa(next));
        if following > offset then Walk(items, following, limit) else []
      case None => []
  }

  /** From an offset inside the list the walk visits every remaining item once and in order. */
  lemma {:induction false} WalkVisitsAll<T>(items: seq<T>, offset: Int64, limit: Int64)
    requires 0 <= offset <= |items| && 0 < limit && |items| + limit <= INT64_MAX
    ensures Concat(Walk(items, offset, limit)) == items[offset..]
    decreases |items| - offset
  {
    hide Wrap, ParseOffset, Itoa;
    var walk := Walk(items, offset, limit);
    var page := Window(items, offset, limit);
    match NextOffset(|items|, offset, limit)
    case Some(next) =>
      OffsetReadsBack(next);
      WalkVisitsAll(items, next, limit);
      assert walk == [page] + Walk(items, next, limit);
      assert walk[1..] == Walk(items, next, limit);
      assert items[offset..] == items[offset..next] + items[next..];
    case None =>
      assert walk == [page] && walk[1..] == [];
      assert page == items[offset..];
  }

  /** From the start: all pages but the last are full, and together they are the list. */
  lemma PagesPartition<T>(items: seq<T>, limit: Int64)
    requires 0 < limit && |items| + limit <= INT64_MAX
    ensures Concat(Walk(items, 0, limit)) == items
    ensures var walk := Walk(items, 0, limit);
            forall i :: 0 <= i < |walk| - 1 ==> |walk[i]| == limit
  {
    WalkVisitsAll(items, 0, limit);
    WalkIsFull(items, 0, limit);
  }

  /** Whatever size is asked for, the pages from a request without a token on are the list. */
  lemma RequestsPartition<T>(items: seq<T>, maxResults: string)
    requires |items| + 500 <= INT64_MAX
    ensures Concat(Walk(items, ParseOffset(""), NormalizeLimit(maxResults, 100, 500))) == items
  {
    hide ParseInt;
    NoNumber();
    PagesPartition(items, NormalizeLimit(maxResults, 100, 500));
  }

  lemma NoNumber()
    ensures ParseInt("") == None
  {
  }

  lemma {:induction false} WalkIsFull<T>(items: seq<T>, offset: Int64, limit: Int64)
    requires 0 <= offset <= |items| && 0 < limit && |items| + limit <= INT64_MAX
    ensures var walk := Walk(items, offset, limit);
            |walk| > 0 && forall i :: 0 <= i < |walk| - 1 ==> |walk[i]| == limit
    decreases |items| - offset
  {
    hide Wrap, ParseOffset, Itoa;
    var walk := Walk(items, offset, limit);
    match NextOffset(|items|, offset, limit)
    case Some(next) =>
      OffsetReadsBack(next);
      WalkIsFull(items, next, limit);
      var rest := Walk(items, next, limit);
      assert walk == [Window(items, offset, limit)] + rest;
      assert forall i :: 1 <= i < |walk| ==> walk[i] == rest[i - 1];
    case None =>
  }

  // ---------------------------------------------------------------- pages by number

  datatype Pagination = Pagination(page: Int64, perPage: Int64)

  ghost predicate Proper(p: Pagination) {
    p.page >= 1 && 1 <= p.perPage <= 100
  }

  function ParsePagination(page: string, perPage: string): (p: Pagination)
    ensures Proper(p)
  {
    var number := match ParseInt(page) case Some(n) => if n < 1 then 1 else n case None => 1;
    var size := match ParseInt(perPage) case Some(n) => if n < 1 then 30 else n case None => 30;
    Pagination(number, if size > 100 then 100 else size)
  }

  /** Where the page of that number starts, before any wrap-around. */
  function PageStart(page: nat, perPage: nat): (r: nat)
    requires page >= 1
  {
    (page - 1) * perPage
  }

  lemma NextStart(page: nat, perPage: nat)
    requires page >= 1
    ensures PageStart(page + 1, perPage) == PageStart(page, perPage) + perPage == page * perPage
  {
  }

  /** The page of that number; `None` is the run-time panic of a negative slice bound. */
  method PaginateRecords<T>(items: seq<T>, p: Pagination) returns (r: Option<seq<T>>)
    requires Proper(p) && |items| + 100 <= INT64_MAX
    ensures r == Paginated(items, p)
  {
    hide Wrap, PageStart;
    var start: Int64 := Wrap(PageStart(p.page, p.perPage));
    if start >= |items| {
      return Some([]);
    }
    var end: Int64 := Wrap(start + p.perPage);
    if end > |items| {
      end := |items|;
    }
    if start < 0 {
      return None;
    }
    assert items[start..end] == Window(items, start, p.perPage);
    return Some(items[start..end]);
  }

  function Paginated<T>(items: seq<T>, p: Pagination): Option<seq<T>>
    requires Proper(p)
  {
    var start := Wrap(PageStart(p.page, p.perPage));
    if start < 0 then None else Some(Window(items, start, p.perPage))
  }

  /** The page is the window of its number exactly when its start fits 64 bits or wraps to behind the list. */
  lemma PageIsWindowIff<T>(items: seq<T>, p: Pagination)
    requires Proper(p) && |items| <= INT64_MAX
    ensures Paginated(items, p) == Some(Window(items, PageStart(p.page, p.perPage), p.perPage))
       <==> PageStart(p.page, p.perPage) <= INT64_MAX || Wrap(PageStart(p.page, p.perPage)) >= |items|
  {
    hide PageStart, Wrap;
    var start := PageStart(p.page, p.perPage);
    if start > INT64_MAX && 0 <= Wrap(start) < |items| {
      assert |Window(items, Wrap(start), p.perPage)| > 0;
    }
  }

  /** A link is read back as the page it names, with the same page size. */
  lemma LinkReadsBack(p: Pagination)
    requires Proper(p)
    ensures ParsePagination(Itoa(p.page), Itoa(p.perPage)) == p
  {
    hide Itoa, ParseInt;
    ItoaReadsBack(p.page);
    ItoaReadsBack(p.perPage);
  }

  /** The answers a client gets that starts at a page and follows the `next` links. */
  ghost function FollowNext<T>(items: seq<T>, p: Pagination): seq<Option<seq<T>>>
    requires Proper(p) && |items| + 100 <= INT64_MAX
    decreases LastPage(|items|, p.perPage) - p.page
  {
    [Paginated(items, p)]
    + match LinksOf(|items|, p).next
      case None => []
      case Some(next) =>
        LinkReadsBack(p.(page := next));
        FollowNext(items, ParsePagination(Itoa(next), Itoa(p.perPage)))
  }

  /** The pages among the answers. */
  function Pages<T>(answers: seq<Option<seq<T>>>): seq<seq<T>> {
    if answers == [] then [] else (if answers[0].Some? then [answers[0].value] else []) + Pages(answers[1..])
  }

  lemma LatePageStarts(total: nat, p: Pagination)
    requires Proper(p) && total + 100 <= INT64_MAX && PageStart(p.page, p.perPage) <= total
    ensures var links := LinksOf(total, p);
            (links.next.Some? <==> PageStart(p.page, p.perPage) + p.perPage < total)
              && (links.next.Some? ==> links.next.value == p.page + 1)
  {
    hide LastPage;
    NextStart(p.page, p.perPage);
    LastPageLaw(total, p.perPage, p.page);
    if total <= p.perPage {
      FirstIsAll(total, p.perPage, p.page);
    }
  }

  /** From a page that starts inside the list, every answer is a page, and together they hold the items from its start
      on, each once and in order; the last of them is the one the `last` link names. */
  lemma {:induction false} FollowNextVisitsAll<T>(items: seq<T>, p: Pagination)
    requires Proper(p) && |items| + 100 <= INT64_MAX && PageStart(p.page, p.perPage) <= |items|
    ensures var answers := FollowNext(items, p);
            (forall i :: 0 <= i < |answers| ==> answers[i].Some?)
            && Concat(Pages(answers)) == items[PageStart(p.page, p.perPage)..]
            && (p.page <= LastPage(|items|, p.perPage) ==> |answers| == LastPage(|items|, p.perPage) - p.page + 1)
    decreases LastPage(|items|, p.perPage) - p.page
  {
    hide PageStart, LastPage, Wrap, LinksOf, ParsePagination, Itoa;
    var start := PageStart(p.page, p.perPage);
    var answers, page := FollowNext(items, p), Window(items, start, p.perPage);
    LatePageStarts(|items|, p);
    NextStart(p.page, p.perPage);
    LastPageLaw(|items|, p.perPage, p.page);
    if LinksOf(|items|, p).next.Some? {
      var after := p.(page := p.page + 1);
      LinkReadsBack(after);
      NextIsCloser(|items|, p);
      FollowNextVisitsAll(items, after);
      assert answers == [Some(page)] + FollowNext(items, after);
      assert answers[1..] == FollowNext(items, after);
      PagesNext(answers);
      assert items[start..] == page + items[start + p.perPage..];
    } else {
      assert answers == [Some(page)] && answers[1..] == [];
      PagesNext(answers);
      assert page + [] == items[start..];
    }
  }

  lemma NextIsCloser(total: nat, p: Pagination)
    requires Proper(p) && total + 100 <= INT64_MAX && LinksOf(total, p).next.Some?
    ensures p.page < LastPage(total, p.perPage)
  {
    hide LastPage;
  }

  lemma PagesNext<T>(answers: seq<Option<seq<T>>>)
    requires answers != [] && answers[0].Some?
    ensures Concat(Pages(answers)) == answers[0].value + Concat(Pages(answers[1..]))
  {
    assert Pages(answers)[1..] == Pages(answers[1..]);
  }

  /** GitHub pages 1 to the last are the list, whatever page size is asked for. */
  lemma NumberedPagesPartition<T>(items: seq<T>, perPage: string)
    requires |items| + 100 <= INT64_MAX
    ensures var p := ParsePagination("", perPage);
            var answers := FollowNext(items, p);
            p.page == 1 && (forall i :: 0 <= i < |answers| ==> answers[i].Some?) && Concat(Pages(answers)) == items
            && (items != [] ==> |answers| == LastPage(|items|, p.perPage))
  {
    hide ParseInt, LastPage, LinksOf, Paginated, Itoa;
    NoNumber();
    var p := ParsePagination("", perPage);
    FollowNextVisitsAll(items, p);
    if items != [] {
      FirstPage(|items|, p.perPage);
    }
  }

  lemma FirstPage(total: nat, perPage: nat)
    requires total > 0 && perPage > 0
    ensures LastPage(total, perPage) >= 1
  {
    var last := LastPage(total, perPage);
    assert total + perPage - 1 < last * perPage + perPage;
  }

  datatype Links = Links(next: Option<Int64>, last: Option<Int64>, first: Option<Int64>, prev: Option<Int64>)

  function LastPage(total: nat, perPage: nat): nat
    requires perPage > 0
  {
    (total + perPage - 1) / perPage
  }

  function LinksOf(total: nat, p: Pagination): Links
    requires Proper(p) && total + 100 <= INT64_MAX
  {
    LastPageLaw(total, p.perPage, p.page);
    if total <= p.perPage then Links(None, None, None, None)
    else
      var last := LastPage(total, p.perPage);
      Links(if p.page < last then Some(p.page + 1) else None, if p.page < last then Some(last) else None,
            if p.page > 1 then Some(1) else None, if p.page > 1 then Some(p.page - 1) else None)
  }

  /** The links of a page, in the order the header lists them. */
  method SetLinkHeader(total: nat, p: Pagination) returns (l: Links)
    requires Proper(p) && total + 100 <= INT64_MAX
    ensures l == LinksOf(total, p)
    ensures l.next.Some? <==> p.page * p.perPage < total
  {
    l := Links(None, None, None, None);
    LastPageLaw(total, p.perPage, p.page);
    if total <= p.perPage {
      FirstIsAll(total, p.perPage, p.page);
      return;
    }
    var last: Int64 := LastPage(total, p.perPage);
    if p.page < last {
      l := l.(next := Some(p.page + 1), last := Some(last));
    }
    if p.page > 1 {
      l := l.(first := Some(1), prev := Some(p.page - 1));
    }
  }

  lemma FirstIsAll(total: nat, perPage: nat, page: nat)
    requires total <= perPage && page >= 1
    ensures page * perPage >= total
  {
    assert page * perPage >= 1 * perPage;
  }

  /** A page lies before the last exactly when items remain behind it. */
  lemma LastPageLaw(total: nat, perPage: nat, page: nat)
    requires perPage > 0 && page >= 1
    ensures page < LastPage(total, perPage) <==> page * perPage < total
    ensures LastPage(total, perPage) <= total
  {
    var last := LastPage(total, perPage);
    assert last * perPage <= total + perPage - 1 < last * perPage + perPage;
    if page < last {
      Monotone(page, last - 1, perPage);
      assert (last - 1) * perPage == last * perPage - perPage;
    } else {
      Monotone(last, page, perPage);
    }
    if last > 0 {
      Monotone(1, perPage, last - 1);
    }
  }

  lemma Monotone(a: nat, b: nat, c: nat)
    requires a <= b
    ensures a * c <= b * c
  {
  }

  /** A page whose wrapped start is negative: the slice panics. */
  lemma LastPageNumberPanics()
    ensures Paginated([1], Pagination(INT64_MAX, 100)) == None
  {
  }

  /** A page whose start wraps around to the first item: the first page is served under another number. */
  lemma FarPageIsFirstPage()
    ensures Paginated([1, 2, 3, 4, 5], Pagination(0x4000_0000_0000_0001, 4)) == Some([1, 2, 3, 4])
  {
    assert PageStart(0x4000_0000_0000_0001, 4) == 0x1_0000_0000_0000_0000;
    assert [1, 2, 3, 4, 5][0..4] == [1, 2, 3, 4];
  }

  /** An offset at the end of the integers: a next page is offered behind a page that has none, at a negative offset,
      which a request reads as zero. */
  lemma LastOffsetStartsOver()
    ensures Window([1], INT64_MAX, 100) == [] && NextOffset(1, INT64_MAX, 100) == Some(INT64_MIN + 99)
  {
    WrapsBelow(INT64_MAX + 100);
  }
}
