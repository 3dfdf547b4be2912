/** The tab views of `main` (All, Pending, Done) and the figures of
    `render_stats`. */
module Views {
  import opened Wrappers
  import opened TodoItems

  /** Whether an item is listed under a tab: the `None` filter lists every
      item, a status filter the items with exactly that status. */
  predicate Matches(item: Item, filter: Option<string>) {
    filter.None? || item.status == filter.value
  }

  /** The positions in the full list of the items a tab lists, in list
      order. */
  function FilterIndices(s: seq<Item>, filter: Option<string>): (r: seq<nat>)
    ensures forall k :: 0 <= k < |r| ==> r[k] < |s|
    ensures forall k, l :: 0 <= k < l < |r| ==> r[k] < r[l]
  {
    if s == [] then []
    else
      FilterIndices(s[..|s| - 1], filter)
        + (if Matches(s[|s| - 1], filter) then [|s| - 1] else [])
  }

  /** A position is listed exactly when the item there matches: the indices
      are those of the full list, never renumbered. */
  lemma {:induction false} FilterIndicesMembers(s: seq<Item>, filter: Option<string>, i: nat)
    ensures i in FilterIndices(s, filter) <==> i < |s| && Matches(s[i], filter)
  {
    if s != [] {
      var q := s[..|s| - 1];
      FilterIndicesMembers(q, filter, i);
      if i < |q| {
        assert q[i] == s[i];
      }
    }
  }

  /** The All tab lists every position, in order. */
  lemma {:induction false} FilterAll(s: seq<Item>)
    ensures |FilterIndices(s, None)| == |s|
    ensures forall k :: 0 <= k < |s| ==> FilterIndices(s, None)[k] == k
  {
    if s != [] {
      FilterAll(s[..|s| - 1]);
    }
  }

  /** When every status is Pending or Done, each position is listed under
      exactly one of the Pending and Done tabs. */
  lemma PendingDonePartition(s: seq<Item>, i: nat)
    requires forall k :: 0 <= k < |s| ==> s[k].status == PENDING || s[k].status == DONE
    requires i < |s|
    ensures i in FilterIndices(s, Some(PENDING)) <==> i !in FilterIndices(s, Some(DONE))
  {
    FilterIndicesMembers(s, Some(PENDING), i);
    FilterIndicesMembers(s, Some(DONE), i);
  }

  /** The two tabs together are as long as the list. */
  lemma {:induction false} PendingDoneSizes(s: seq<Item>)
    requires forall k :: 0 <= k < |s| ==> s[k].status == PENDING || s[k].status == DONE
    ensures |FilterIndices(s, Some(PENDING))| + |FilterIndices(s, Some(DONE))| == |s|
  {
    if s != [] {
      PendingDoneSizes(s[..|s| - 1]);
    }
  }

  /** The loop of `main` for one tab: the positions it renders an item at and
      its `has_visible` flag. */
  method VisibleIndices(items: seq<Item>, filter: Option<string>) returns (shown: seq<nat>, hasVisible: bool)
    ensures shown == FilterIndices(items, filter)
    ensures hasVisible <==> exists i :: 0 <= i < |items| && Matches(items[i], filter)
  {
    shown, hasVisible := [], false;
    var i := 0;
    while i < |items|
      invariant i <= |items|
      invariant shown == FilterIndices(items[..i], filter)
      invariant hasVisible <==> exists k :: 0 <= k < i && Matches(items[k], filter)
    {
      assert items[..i + 1][..i] == items[..i];
      if Matches(items[i], filter) {
        shown := shown + [i];
        hasVisible := true;
      }
      i := i + 1;
    }
    assert items[..i] == items;
  }

  /** `len([x for x in items if x['status'] == 'Done'])`. */
  function DoneCount(s: seq<Item>): (n: nat)
    ensures n <= |s|
  {
    if s == [] then 0
    else DoneCount(s[..|s| - 1]) + (if s[|s| - 1].status == DONE then 1 else 0)
  }

  /** The done count is the length of the Done tab. */
  lemma {:induction false} DoneCountIsDoneTab(s: seq<Item>)
    ensures DoneCount(s) == |FilterIndices(s, Some(DONE))|
  {
    if s != [] {
      DoneCountIsDoneTab(s[..|s| - 1]);
    }
  }

  /** Every item is done exactly when the done count is the whole list. */
  lemma {:induction false} DoneCountAll(s: seq<Item>)
    ensures DoneCount(s) == |s| <==> forall k :: 0 <= k < |s| ==> s[k].status == DONE
  {
    if s != [] {
      var q := s[..|s| - 1];
      DoneCountAll(q);
      assert forall k :: 0 <= k < |q| ==> q[k] == s[k];
    }
  }

  datatype Summary = Summary(total: nat, doneCount: nat)

  /** What `render_stats` shows: nothing for an empty list, otherwise the
      total and the number of done items. */
  function Summarize(items: seq<Item>): (r: Option<Summary>)
    ensures r.None? <==> items == []
    ensures r.Some? ==> r.value.total == |items| > 0 && r.value.doneCount <= r.value.total
    ensures r.Some? ==> r.value.doneCount == DoneCount(items)
  {
    if items == [] then None else Some(Summary(|items|, DoneCount(items)))
  }

  /** `done_count / len(items)`, as an exact ratio. */
  function CompletionRatio(sum: Summary): (q: real)
    requires sum.doneCount <= sum.total && sum.total > 0
    ensures 0.0 <= q <= 1.0
    ensures q == 1.0 <==> sum.doneCount == sum.total
  {
    var d, t := sum.doneCount as real, sum.total as real;
    RatioFacts(d, t);
    d / t
  }

  /** The progress bar is full exactly when every item is done. */
  lemma CompletionRatioFull(items: seq<Item>)
    requires items != []
    ensures CompletionRatio(Summarize(items).value) == 1.0 <==> forall k :: 0 <= k < |items| ==> items[k].status == DONE
  {
    DoneCountAll(items);
  }

  lemma RatioFacts(d: real, t: real)
    requires 0.0 <= d <= t && t > 0.0
    ensures 0.0 <= d / t <= 1.0
    ensures d / t == 1.0 <==> d == t
  {
    var q := d / t;
    assert q * t == d;
    assert d - t == (q - 1.0) * t;
    ProductSign(q, t);
    ProductSign(q - 1.0, t);
  }

  lemma ProductSign(a: real, t: real)
    requires t > 0.0
    ensures a > 0.0 ==> a * t > 0.0
    ensures a < 0.0 ==> a * t < 0.0
  {
  }
}
