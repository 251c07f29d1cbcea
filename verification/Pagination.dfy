/** Cursor pagination over an index that limits each page before it filters it. */
module Pagination {
  import opened Common

  /** How far one DynamoDB call read, and whether it returned a LastEvaluatedKey. */
  datatype Cut = Cut(evaluated: nat, more: bool)

  /** How a call cuts the index, given where it starts and its Limit. */
  type Cuts = (nat, Option<nat>) -> Cut

  /** What DynamoDB guarantees of a call that starts after pos of n items: it reads on,
      stays within the Limit, and leaves out the key only at the end of the index. A key
      may be returned at the very end too. */
  predicate HonestCut(n: nat, pos: nat, limit: Option<nat>, cut: Cut) {
    && pos + cut.evaluated <= n
    && (limit.Some? ==> cut.evaluated <= limit.value)
    && (pos < n && (limit.Some? ==> limit.value > 0) ==> cut.evaluated > 0)
    && (pos + cut.evaluated < n ==> cut.more)
    && (pos == n ==> !cut.more)
  }

  ghost predicate Honest(n: nat, cuts: Cuts) {
    forall pos: nat, limit: Option<nat> {:trigger cuts(pos, limit)} :: pos <= n ==> HonestCut(n, pos, limit, cuts(pos, limit))
  }

  lemma FilterSplit<T>(items: seq<T>, i: nat, j: nat, k: nat, keep: T -> bool)
    requires i <= j <= k <= |items|
    ensures Filter(items[i..k], keep) == Filter(items[i..j], keep) + Filter(items[j..k], keep)
  {
    assert items[i..k] == items[i..j] + items[j..k];
    FilterConcat(items[i..j], items[j..k], keep);
  }

  /** Cursors are numbers of items passed; an absent cursor starts at the beginning. */
  function Position(cursor: Option<nat>): nat {
    if cursor.Some? then cursor.value else 0
  }

  function Keep<T>(filter: Option<T -> bool>): T -> bool {
    if filter.Some? then filter.value else _ => true
  }

  /** One DynamoDB call. */
  function QueryOnce<T>(items: seq<T>, keep: T -> bool, limit: Option<nat>, start: Option<nat>,
                        cuts: Cuts): (seq<T>, Option<nat>)
    requires Position(start) <= |items| && Honest(|items|, cuts)
  {
    var pos := Position(start);
    var cut := cuts(pos, limit);
    assert HonestCut(|items|, pos, limit, cut);
    (Filter(items[pos..pos + cut.evaluated], keep), if cut.more then Some(pos + cut.evaluated) else None)
  }

  /** What a page may be: exactly the kept items between its start and its cursor, with the
      cursor past the start, and absent at the end of the index. */
  ghost predicate IsPage<T>(items: seq<T>, keep: T -> bool, start: Option<nat>, page: seq<T>, last: Option<nat>) {
    var from := Position(start);
    var to := if last.Some? then last.value else |items|;
    && from <= to <= |items|
    && page == Filter(items[from..to], keep)
    && (last.Some? ==> from < to)
  }

  /** What the loop has collected: the kept items up to its cursor, and no page too many. */
  ghost predicate Collected<T>(items: seq<T>, keep: T -> bool, limit: nat, start: Option<nat>,
                               collected: seq<T>, lastKey: Option<nat>) {
    && Position(start) <= Position(lastKey) <= |items|
    && collected == Filter(items[Position(start)..Position(lastKey)], keep)
    && (collected != [] ==> lastKey.Some? && Position(start) < lastKey.value)
    && |collected| <= 2 * limit - 1
  }

  lemma NothingCollected<T>(items: seq<T>, keep: T -> bool, limit: nat, start: Option<nat>)
    requires Position(start) <= |items| && limit > 0
    ensures Collected(items, keep, limit, start, [], start)
  {
    assert items[Position(start)..Position(start)] == [];
  }

  lemma EnoughIsAPage<T>(items: seq<T>, keep: T -> bool, limit: nat, start: Option<nat>, collected: seq<T>,
                         lastKey: Option<nat>)
    requires Collected(items, keep, limit, start, collected, lastKey) && 0 < limit <= |collected|
    ensures IsPage(items, keep, start, collected, lastKey)
  {
  }

  lemma CollectMore<T>(items: seq<T>, keep: T -> bool, limit: nat, start: Option<nat>, collected: seq<T>,
                       lastKey: Option<nat>, cuts: Cuts)
    requires Honest(|items|, cuts) && Collected(items, keep, limit, start, collected, lastKey) && |collected| < limit
    ensures var (found, next) := QueryOnce(items, keep, Some(limit), lastKey, cuts);
      && |collected + found| <= 2 * limit - 1
      && if next.Some?
         then Position(lastKey) < next.value && Collected(items, keep, limit, start, collected + found, next)
         else IsPage(items, keep, start, collected + found, None)
  {
    var (found, next) := QueryOnce(items, keep, Some(limit), lastKey, cuts);
    var to := if next.Some? then next.value else |items|;
    FilterSplit(items, Position(start), Position(lastKey), to, keep);
  }

  /** The loop for a filter with a limit: pages until enough items matched or the index ended. */
  method QueryFiltered<T>(items: seq<T>, keep: T -> bool, limit: nat, start: Option<nat>, cuts: Cuts)
    returns (collected: seq<T>, lastKey: Option<nat>)
    requires Position(start) <= |items| && Honest(|items|, cuts) && limit > 0
    ensures IsPage(items, keep, start, collected, lastKey)
    ensures |collected| <= 2 * limit - 1
    ensures |collected| >= limit || lastKey.None?
  {
    NothingCollected(items, keep, limit, start);
    collected, lastKey := [], start;
    while |collected| < limit
      invariant Collected(items, keep, limit, start, collected, lastKey)
      decreases |items| - Position(lastKey)
    {
      CollectMore(items, keep, limit, start, collected, lastKey, cuts);
      var (found, next) := QueryOnce(items, keep, Some(limit), lastKey, cuts);
      collected, lastKey := collected + found, next;
      if lastKey.None? {
        return;
      }
    }
    EnoughIsAPage(items, keep, limit, start, collected, lastKey);
  }

  lemma OneCallIsAPage<T>(items: seq<T>, keep: T -> bool, limit: Option<nat>, start: Option<nat>, cuts: Cuts)
    requires Position(start) <= |items| && Honest(|items|, cuts) && (limit.Some? ==> limit.value > 0)
    ensures var (page, last) := QueryOnce(items, keep, limit, start, cuts);
      IsPage(items, keep, start, page, last) && (limit.Some? ==> |page| <= limit.value)
  {
    var cut := cuts(Position(start), limit);
    assert HonestCut(|items|, Position(start), limit, cut);
  }

  /** A limit of None or 0 sets no Limit. */
  method Query<T>(items: seq<T>, filter: Option<T -> bool>, limit: Option<nat>, start: Option<nat>, cuts: Cuts)
    returns (page: seq<T>, last: Option<nat>)
    requires Position(start) <= |items| && Honest(|items|, cuts)
    ensures IsPage(items, Keep(filter), start, page, last)
    ensures limit.Some? && limit.value > 0 && filter.Some? ==>
      |page| <= 2 * limit.value - 1 && (|page| >= limit.value || last.None?)
    ensures limit.Some? && limit.value > 0 && filter.None? ==> |page| <= limit.value
  {
    var hasLimit := limit.Some? && limit.value > 0;
    if filter.Some? && hasLimit {
      page, last := QueryFiltered(items, filter.value, limit.value, start, cuts);
    } else {
      OneCallIsAPage(items, Keep(filter), if hasLimit then limit else None, start, cuts);
      var response := QueryOnce(items, Keep(filter), if hasLimit then limit else None, start, cuts);
      page, last := response.0, response.1;
    }
  }

  /** pages[k] was asked for with the cursor of pages[k - 1]; the last has none. */
  ghost predicate IsWalk<T>(items: seq<T>, keep: T -> bool, pages: seq<seq<T>>, cursors: seq<Option<nat>>) {
    && |cursors| == |pages| + 1
    && |pages| > 0
    && cursors[0] == None
    && (forall k :: 0 < k < |pages| ==> cursors[k].Some?)
    && cursors[|pages|] == None
    && (forall k :: 0 <= k < |pages| ==> IsPage(items, keep, cursors[k], pages[k], cursors[k + 1]))
  }

  /** The walk so far; the last cursor is where the next page would start. */
  ghost predicate IsWalkUpTo<T>(items: seq<T>, keep: T -> bool, pages: seq<seq<T>>, cursors: seq<Option<nat>>) {
    && |cursors| == |pages| + 1
    && cursors[0] == None
    && (forall k :: 0 < k < |pages| ==> cursors[k].Some?)
    && (forall k :: 0 <= k < |pages| ==> IsPage(items, keep, cursors[k], pages[k], cursors[k + 1]))
  }

  lemma OneMorePage<T>(items: seq<T>, keep: T -> bool, pages: seq<seq<T>>, cursors: seq<Option<nat>>,
                       page: seq<T>, last: Option<nat>)
    requires IsWalkUpTo(items, keep, pages, cursors)
    requires pages != [] ==> cursors[|pages|].Some?
    requires IsPage(items, keep, cursors[|pages|], page, last)
    ensures IsWalkUpTo(items, keep, pages + [page], cursors + [last])
    ensures Concat(pages + [page]) == Concat(pages) + page
  {
    ConcatSnoc(pages, page);
    var pages', cursors' := pages + [page], cursors + [last];
    forall k | 0 <= k < |pages'| ensures IsPage(items, keep, cursors'[k], pages'[k], cursors'[k + 1]) {
      if k < |pages| {
        assert pages'[k] == pages[k] && cursors'[k] == cursors[k] && cursors'[k + 1] == cursors[k + 1];
      } else {
        assert pages'[k] == page && cursors'[k] == cursors[k] && cursors'[k + 1] == last;
      }
    }
  }

  lemma ConcatSnoc<T>(pages: seq<seq<T>>, page: seq<T>)
    ensures Concat(pages + [page]) == Concat(pages) + page
  {
    assert (pages + [page])[..|pages|] == pages;
  }

  function Concat<T>(pages: seq<seq<T>>): seq<T> {
    if pages == [] then [] else Concat(pages[..|pages| - 1]) + pages[|pages| - 1]
  }

  lemma {:induction false} WalkPrefix<T>(items: seq<T>, keep: T -> bool, pages: seq<seq<T>>,
        cursors: seq<Option<nat>>, k: nat)
    requires IsWalk(items, keep, pages, cursors) && k < |pages|
    ensures k <= Position(cursors[k]) <= |items|
    ensures Concat(pages[..k]) == Filter(items[..Position(cursors[k])], keep)
  {
    if k > 0 {
      WalkPrefix(items, keep, pages, cursors, k - 1);
      assert IsPage(items, keep, cursors[k - 1], pages[k - 1], cursors[k]);
      assert pages[..k][..k - 1] == pages[..k - 1];
      FilterSplit(items, 0, Position(cursors[k - 1]), Position(cursors[k]), keep);
    }
  }

  /** Following the cursor until it is absent returns exactly the kept items of the index in
      order, each once, however DynamoDB cut the pages and whatever limits the calls used,
      in at most one call more than there are items. */
  lemma FollowingTheCursor<T>(items: seq<T>, keep: T -> bool, pages: seq<seq<T>>, cursors: seq<Option<nat>>)
    requires IsWalk(items, keep, pages, cursors)
    ensures Concat(pages) == Filter(items, keep)
    ensures exists places :: IsSelection(items, keep, Concat(pages), places)
    ensures |pages| <= |items| + 1
  {
    var places := FilterIsExact(items, keep);
    var k := |pages| - 1;
    WalkPrefix(items, keep, pages, cursors, k);
    assert IsPage(items, keep, cursors[k], pages[k], cursors[k + 1]);
    FilterSplit(items, 0, Position(cursors[k]), |items|, keep);
    assert items[0..|items|] == items;
  }

  /** The client's loop: it terminates for every way of cutting pages and every limit per call. */
  method FetchAll<T>(items: seq<T>, filter: Option<T -> bool>, limits: nat -> Option<nat>, cuts: Cuts)
    returns (all: seq<T>, ghost pages: seq<seq<T>>, ghost cursors: seq<Option<nat>>)
    requires Honest(|items|, cuts)
    ensures all == Filter(items, Keep(filter))
    ensures filter.Some? ==> exists places :: IsSelection(items, filter.value, all, places)
    ensures filter.None? ==> all == items
    ensures IsWalk(items, Keep(filter), pages, cursors) && all == Concat(pages)
  {
    var page, last := Query(items, filter, limits(0), None, cuts);
    OneMorePage(items, Keep(filter), [], [None], page, last);
    all, pages, cursors := page, [] + [page], [None] + [last];
    var calls := 1;
    while last.Some?
      invariant Position(last) <= |items|
      invariant IsWalkUpTo(items, Keep(filter), pages, cursors)
      invariant |pages| > 0 && cursors[|pages|] == last && all == Concat(pages)
      decreases last.Some?, |items| - Position(last)
    {
      page, last := Query(items, filter, limits(calls), last, cuts);
      OneMorePage(items, Keep(filter), pages, cursors, page, last);
      all, pages, cursors := all + page, pages + [page], cursors + [last];
      calls := calls + 1;
    }
    FollowingTheCursor(items, Keep(filter), pages, cursors);
    if filter.None? {
      NoFilterKeepsAll(items, Keep(filter));
    }
  }

  lemma {:induction false} NoFilterKeepsAll<T>(items: seq<T>, keep: T -> bool)
    requires forall t :: t in items ==> keep(t)
    ensures Filter(items, keep) == items
  {
    if items != [] {
      NoFilterKeepsAll(items[1..], keep);
    }
  }
}
