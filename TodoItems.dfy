/** The to-do item record and the order `save_data` and `load_data` sort the
    list in: `items.sort(key=lambda x: (x['date'], x['time']))`, a stable sort
    on the pair of strings compared as a Python tuple. */
module TodoItems {
  import opened TextOrder
  import opened Calendar

  const PENDING: string := "Pending"
  const DONE: string := "Done"

  /** One entry of the list: a dict with these four string-valued keys. */
  datatype Item = Item(description: string, date: string, time: string, status: string)

  /** The tuple comparison `(x.date, x.time) < (y.date, y.time)`. */
  predicate KeyLess(x: Item, y: Item) {
    StrLess(x.date, y.date) || (x.date == y.date && StrLess(x.time, y.time))
  }

  /** Equal sort keys: neither item comes before the other. */
  predicate SameKey(x: Item, y: Item) {
    x.date == y.date && x.time == y.time
  }

  /** Non-decreasing by `(date, time)`. */
  predicate Sorted(s: seq<Item>) {
    forall i, j :: 0 <= i < j < |s| ==> !KeyLess(s[j], s[i])
  }

  lemma KeyLessIrreflexive(x: Item, y: Item)
    requires SameKey(x, y)
    ensures !KeyLess(x, y) && !KeyLess(y, x)
  {
    StrLessIrreflexive(x.date);
    StrLessIrreflexive(x.time);
  }

  lemma KeyLessTransitive(x: Item, y: Item, z: Item)
    requires KeyLess(x, y) && KeyLess(y, z)
    ensures KeyLess(x, z)
  {
    if StrLess(x.date, y.date) && StrLess(y.date, z.date) {
      StrLessTransitive(x.date, y.date, z.date);
    } else if StrLess(x.time, y.time) && StrLess(y.time, z.time) {
      StrLessTransitive(x.time, y.time, z.time);
    }
  }

  /** Two keys are equal or ordered one way or the other. */
  lemma KeyLessTotal(x: Item, y: Item)
    ensures SameKey(x, y) || KeyLess(x, y) || KeyLess(y, x)
  {
    StrLessTotal(x.date, y.date);
    StrLessTotal(x.time, y.time);
  }

  lemma KeyLessAsymmetric(x: Item, y: Item)
    requires KeyLess(x, y)
    ensures !KeyLess(y, x)
  {
    if KeyLess(y, x) {
      KeyLessTransitive(x, y, x);
      KeyLessIrreflexive(x, x);
    }
  }

  /** Whatever comes before `x` comes before `y`, or `y` comes before `x`. */
  lemma KeyLessSplit(x: Item, y: Item, z: Item)
    ensures KeyLess(z, x) ==> KeyLess(z, y) || KeyLess(y, x)
  {
    KeyLessTotal(x, y);
    if KeyLess(z, x) && KeyLess(x, y) {
      KeyLessTransitive(z, x, y);
    }
  }

  /** "Not before" is transitive, so a sorted list is ordered pairwise. */
  lemma NotLessTransitive(x: Item, y: Item, z: Item)
    requires !KeyLess(y, x) && !KeyLess(z, y)
    ensures !KeyLess(z, x)
  {
    KeyLessSplit(x, y, z);
  }

  /** One step of a stable insertion sort: `x` goes after every element it
      does not come before. */
  function Insert(x: Item, p: seq<Item>): (r: seq<Item>)
    ensures |r| == |p| + 1
  {
    if p == [] then [x]
    else if KeyLess(x, p[|p| - 1]) then Insert(x, p[..|p| - 1]) + [p[|p| - 1]]
    else p + [x]
  }

  /** The list that `items.sort(key=...)` leaves: a stable insertion sort,
      taking the elements from the front. */
  function SortByKey(s: seq<Item>): (r: seq<Item>)
    ensures |r| == |s|
  {
    if s == [] then [] else Insert(s[|s| - 1], SortByKey(s[..|s| - 1]))
  }

  /** Sorting a list with one more item at the end inserts that item. */
  lemma SortByKeySnoc(s: seq<Item>, x: Item)
    ensures SortByKey(s + [x]) == Insert(x, SortByKey(s))
  {
    assert (s + [x])[..|s|] == s;
  }

  lemma {:induction false} InsertPermutes(x: Item, p: seq<Item>)
    ensures multiset(Insert(x, p)) == multiset(p) + multiset{x}
  {
    if p != [] && KeyLess(x, p[|p| - 1]) {
      var q, last := p[..|p| - 1], p[|p| - 1];
      InsertPermutes(x, q);
      assert Insert(x, p) == Insert(x, q) + [last];
      assert p == q + [last];
      assert multiset(p) == multiset(q) + multiset{last};
    }
  }

  /** The saved list holds exactly the items it was given, each as often. */
  lemma {:induction false} SortByKeyPermutes(s: seq<Item>)
    ensures multiset(SortByKey(s)) == multiset(s)
  {
    if s != [] {
      var q, x := s[..|s| - 1], s[|s| - 1];
      assert multiset(s) == multiset(q) + multiset{x} by {
        assert s == q + [x];
      }
      SortByKeyPermutes(q);
      InsertPermutes(x, SortByKey(q));
    }
  }

  /** Where the element goes: before the first of a run of elements it
      precedes, after one it does not precede. */
  lemma {:induction false} InsertAt(x: Item, p: seq<Item>, j: nat)
    requires j <= |p|
    requires forall k :: j <= k < |p| ==> KeyLess(x, p[k])
    requires j == 0 || !KeyLess(x, p[j - 1])
    ensures Insert(x, p) == p[..j] + [x] + p[j..]
  {
    if j < |p| {
      var q, last := p[..|p| - 1], p[|p| - 1];
      assert KeyLess(x, last);
      forall k | j <= k < |q|
        ensures KeyLess(x, q[k])
      {
        assert q[k] == p[k];
      }
      InsertAt(x, q, j);
      calc {
        Insert(x, p);
        Insert(x, q) + [last];
        (q[..j] + [x] + q[j..]) + [last];
        { assert q[..j] == p[..j]; assert q[j..] + [last] == p[j..]; }
        p[..j] + [x] + p[j..];
      }
    } else {
      assert p[..j] == p && p[j..] == [];
    }
  }

  lemma {:induction false} InsertBounded(x: Item, p: seq<Item>, y: Item)
    requires forall k :: 0 <= k < |p| ==> !KeyLess(y, p[k])
    requires !KeyLess(y, x)
    ensures forall k :: 0 <= k < |Insert(x, p)| ==> !KeyLess(y, Insert(x, p)[k])
  {
    if p != [] && KeyLess(x, p[|p| - 1]) {
      InsertBounded(x, p[..|p| - 1], y);
    }
  }

  lemma {:induction false} InsertSorted(x: Item, p: seq<Item>)
    requires Sorted(p)
    ensures Sorted(Insert(x, p))
  {
    if p == [] {
    } else if KeyLess(x, p[|p| - 1]) {
      var q, last := p[..|p| - 1], p[|p| - 1];
      InsertSorted(x, q);
      KeyLessAsymmetric(x, last);
      InsertBounded(x, q, last);
    } else {
      var last := p[|p| - 1];
      forall i | 0 <= i < |p|
        ensures !KeyLess(x, p[i])
      {
        if i < |p| - 1 {
          NotLessTransitive(p[i], last, x);
        }
      }
    }
  }

  /** After saving, the list is in non-decreasing `(date, time)` order. */
  lemma {:induction false} SortByKeySorted(s: seq<Item>)
    ensures Sorted(SortByKey(s))
  {
    if s != [] {
      SortByKeySorted(s[..|s| - 1]);
      InsertSorted(s[|s| - 1], SortByKey(s[..|s| - 1]));
    }
  }

  /** `[x]` when `x` has the key `(date, time)`, otherwise `[]`. */
  function KeyPart(x: Item, date: string, time: string): seq<Item> {
    if x.date == date && x.time == time then [x] else []
  }

  /** The items of `s` whose key is `(date, time)`, in their order in `s`. */
  function WithKey(s: seq<Item>, date: string, time: string): (r: seq<Item>)
    ensures |r| <= |s|
  {
    if s == [] then []
    else WithKey(s[..|s| - 1], date, time) + KeyPart(s[|s| - 1], date, time)
  }

  lemma WithKeyAppend(s: seq<Item>, y: Item, date: string, time: string)
    ensures WithKey(s + [y], date, time) == WithKey(s, date, time) + KeyPart(y, date, time)
  {
    assert (s + [y])[..|s|] == s;
  }

  lemma {:induction false} InsertStable(x: Item, p: seq<Item>, date: string, time: string)
    ensures WithKey(Insert(x, p), date, time) == WithKey(p + [x], date, time)
  {
    if p != [] && KeyLess(x, p[|p| - 1]) {
      var q, last := p[..|p| - 1], p[|p| - 1];
      assert p == q + [last];
      InsertStable(x, q, date, time);
      WithKeyAppend(Insert(x, q), last, date, time);
      WithKeyAppend(q, x, date, time);
      WithKeyAppend(p, x, date, time);
      WithKeyAppend(q, last, date, time);
      if x.date == date && x.time == time && last.date == date && last.time == time {
        KeyLessIrreflexive(x, last);
      }
      assert KeyPart(x, date, time) + KeyPart(last, date, time)
          == KeyPart(last, date, time) + KeyPart(x, date, time);
    }
  }

  /** The sort is stable: the items sharing any one key keep their relative
      order. */
  lemma {:induction false} SortByKeyStable(s: seq<Item>, date: string, time: string)
    ensures WithKey(SortByKey(s), date, time) == WithKey(s, date, time)
  {
    if s != [] {
      var q := s[..|s| - 1];
      SortByKeyStable(q, date, time);
      InsertStable(s[|s| - 1], SortByKey(q), date, time);
      WithKeyAppend(SortByKey(q), s[|s| - 1], date, time);
    }
  }

  /** Sorting a sorted list changes nothing. */
  lemma {:induction false} SortByKeyOfSorted(s: seq<Item>)
    requires Sorted(s)
    ensures SortByKey(s) == s
  {
    if s != [] {
      var q := s[..|s| - 1];
      assert Sorted(q);
      SortByKeyOfSorted(q);
      assert s == q + [s[|s| - 1]];
    }
  }

  /** Saving twice leaves the same list as saving once. */
  lemma SortByKeyIdempotent(s: seq<Item>)
    ensures SortByKey(SortByKey(s)) == SortByKey(s)
  {
    SortByKeySorted(s);
    SortByKeyOfSorted(SortByKey(s));
  }

  /** For items whose date and time were written by the app itself, the string
      order of the sort key is the calendar order of the moments. */
  lemma KeyLessIsCalendarOrder(x: Item, y: Item, dx: Date, tx: Time, dy: Date, ty: Time)
    requires ValidDate(dx) && ValidTime(tx) && ValidDate(dy) && ValidTime(ty)
    requires x.date == FormatDate(dx) && x.time == FormatTime(tx)
    requires y.date == FormatDate(dy) && y.time == FormatTime(ty)
    ensures KeyLess(x, y) <==> DateLess(dx, dy) || (dx == dy && TimeLess(tx, ty))
  {
    FormatDateOrder(dx, dy);
    FormatDateInjective(dx, dy);
    FormatTimeOrder(tx, ty);
  }

  /** What every item the app writes satisfies: its date parses and its
      status is one of the two the checkbox stands for. */
  predicate ItemOk(it: Item) {
    ParseDate(it.date).Some? && (it.status == PENDING || it.status == DONE)
  }

  predicate WellFormed(s: seq<Item>) {
    forall it :: it in s ==> ItemOk(it)
  }

  /** In a well-formed list every status is Pending or Done. */
  lemma WellFormedStatuses(s: seq<Item>)
    requires WellFormed(s)
    ensures forall k :: 0 <= k < |s| ==> s[k].status == PENDING || s[k].status == DONE
  {
    forall k | 0 <= k < |s|
      ensures s[k].status == PENDING || s[k].status == DONE
    {
      assert ItemOk(s[k]);
    }
  }

  /** Sorting keeps a list well formed: it only reorders the items. */
  lemma SortByKeyWellFormed(s: seq<Item>)
    requires WellFormed(s)
    ensures WellFormed(SortByKey(s))
  {
    SortByKeyPermutes(s);
    forall it | it in SortByKey(s)
      ensures ItemOk(it)
    {
      assert it in multiset(SortByKey(s));
    }
  }
}
