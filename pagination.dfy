/**
 * The `while True` page loop shared by every list call of both
 * front ends: call with no token, take the page's items, stop at the first
 * falsy `nextPageToken` (absent or ""), otherwise call again with it.  The
 * k-th call is answered by `pages[k]`; a call past the last page raises.
 */
module Pagination {
  import opened Wrappers
  import opened GoogleApi

  /** The items of `pages`, in page order. */
  function Concat<T>(pages: seq<Page<T>>): seq<T> {
    if pages == [] then [] else Concat(pages[..|pages| - 1]) + Items(pages[|pages| - 1])
  }

  lemma {:induction false} ConcatCons<T>(p: Page<T>, rest: seq<Page<T>>)
    ensures Concat([p] + rest) == Items(p) + Concat(rest)
    decreases |rest|
  {
    if rest != [] {
      var init := rest[..|rest| - 1];
      assert ([p] + rest)[..|rest|] == [p] + init;
      ConcatCons(p, init);
    }
  }

  /** What a page loop has read: the items of every page it fetched, and
      whether it ended by a call that raised because no page was left. */
  datatype Listing<T> = Listing(items: seq<T>, exhausted: bool)

  /** The loop, page by page. */
  function Paginate<T>(pages: seq<Page<T>>): Listing<T> {
    if pages == [] then Listing([], true)
    else if !Truthy(pages[0].nextPageToken) then Listing(Items(pages[0]), false)
    else
      var rest := Paginate(pages[1..]);
      Listing(Items(pages[0]) + rest.items, rest.exhausted)
  }

  /** The loop reads exactly the pages up to and including the first one
      whose token is falsy, concatenating their items in page order; when
      every token is truthy it reads all pages and then fails. */
  lemma {:induction false} PaginateStopsAtFirstFalsy<T>(pages: seq<Page<T>>, n: nat)
    requires n <= |pages|
    requires forall j | 0 <= j < n :: Truthy(pages[j].nextPageToken)
    requires n < |pages| ==> !Truthy(pages[n].nextPageToken)
    ensures n == |pages| ==> Paginate(pages) == Listing(Concat(pages), true)
    ensures n < |pages| ==> Paginate(pages) == Listing(Concat(pages[..n + 1]), false)
  {
    if pages == [] {
    } else if n == 0 {
      assert pages[..1] == [pages[0]] + [];
      ConcatCons(pages[0], []);
    } else {
      var rest := pages[1..];
      PaginateStopsAtFirstFalsy(rest, n - 1);
      if n == |pages| {
        assert pages == [pages[0]] + rest;
        ConcatCons(pages[0], rest);
      } else {
        assert pages[..n + 1] == [pages[0]] + rest[..n];
        ConcatCons(pages[0], rest[..n]);
      }
    }
  }

  /** Once the first `i` tokens were truthy, the items of pages 0..i are
      a prefix of what the loop reads, whatever the later pages hold. */
  lemma {:induction false} PaginateReadsPrefix<T>(pages: seq<Page<T>>, i: nat)
    requires i < |pages|
    requires forall j | 0 <= j < i :: Truthy(pages[j].nextPageToken)
    ensures Concat(pages[..i + 1]) <= Paginate(pages).items
  {
    var rest := pages[1..];
    if i == 0 {
      assert pages[..1] == [pages[0]] + [];
      ConcatCons(pages[0], []);
    } else {
      PaginateReadsPrefix(rest, i - 1);
      assert pages[..i + 1] == [pages[0]] + rest[..i];
      ConcatCons(pages[0], rest[..i]);
      var tail := Paginate(rest).items;
      var pre := Concat(rest[..i]);
      assert tail == pre + tail[|pre|..];
      assert Paginate(pages).items == (Items(pages[0]) + pre) + tail[|pre|..];
    }
  }
}
