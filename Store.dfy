/** The data layer of `myApp.py`: the session's list of items
    (`st.session_state['items']`), the backing file it is saved to, the
    sort-then-write of `save_data`, the branches of `load_data`, and the four
    handlers that change the list and save it. */
module Store {
  import opened Wrappers
  import opened Calendar
  import opened TodoItems

  /** What the backing file holds, as far as `load_data` can tell:
      `ZeroLength` for `os.path.getsize(path) == 0`; `NotJson` for text that
      `json.load` rejects (or that is not UTF-8); `JsonItems` for a JSON array
      of item objects; `OtherJson` for any other JSON value. */
  datatype Body = ZeroLength | NotJson(text: string) | JsonItems(items: seq<Item>) | OtherJson

  datatype Disk = Absent | Present(body: Body)

  /** What `load_data` returns, and whether it raised `st.warning`; `Crashed`
      where it raises an exception of a kind it does not catch. */
  datatype LoadOutcome = Loaded(items: seq<Item>, warned: bool) | Crashed

  /** The file `save_data(s)` leaves behind: the list, sorted. */
  function Saved(s: seq<Item>): (d: Disk)
    ensures d.Present? && d.body.JsonItems?
    ensures Sorted(d.body.items) && multiset(d.body.items) == multiset(s)
  {
    SortByKeySorted(s);
    SortByKeyPermutes(s);
    Present(JsonItems(SortByKey(s)))
  }

  /** The value `load_data` returns for a backing file in state `d`. */
  function LoadResult(d: Disk): (r: LoadOutcome)
    ensures r.Crashed? <==> d == Present(OtherJson)
    ensures r.Loaded? ==> Sorted(r.items)
    ensures r.Loaded? && r.warned <==> d.Present? && d.body.NotJson?
    ensures r.Loaded? && d.Present? && d.body.JsonItems? ==> multiset(r.items) == multiset(d.body.items)
    ensures d.Present? && d.body.JsonItems? ==> r == Loaded(SortByKey(d.body.items), false)
    ensures r.Loaded? && !(d.Present? && d.body.JsonItems?) ==> r.items == []
  {
    match d
    case Absent => Loaded([], false)
    case Present(ZeroLength) => Loaded([], false)
    case Present(NotJson(_)) => Loaded([], true)
    case Present(JsonItems(s)) =>
      SortByKeySorted(s);
      SortByKeyPermutes(s);
      Loaded(SortByKey(s), false)
    case Present(OtherJson) => Crashed
  }

  /** The backing file after `load_data`: a missing file is created holding
      an empty array; every other file is left as it was. */
  function DiskAfterLoad(d: Disk): (r: Disk)
    ensures r.Present?
    ensures d == Absent ==> r == Present(JsonItems([]))
    ensures d.Present? ==> r == d
  {
    if d == Absent then Saved([]) else d
  }

  /** Loading what was saved gives back the saved list: the same items,
      in sorted order, with no warning. */
  lemma SaveLoadRoundTrip(s: seq<Item>)
    ensures LoadResult(Saved(s)) == Loaded(SortByKey(s), false)
    ensures multiset(LoadResult(Saved(s)).items) == multiset(s)
  {
    SortByKeyIdempotent(s);
    SortByKeyPermutes(s);
  }

  /** Saving what was loaded from an already-sorted file writes the file
      back unchanged. */
  lemma LoadSaveIdempotent(s: seq<Item>)
    requires Sorted(s)
    ensures LoadResult(Present(JsonItems(s))).Loaded?
    ensures Saved(LoadResult(Present(JsonItems(s))).items) == Present(JsonItems(s))
  {
    SortByKeyOfSorted(s);
  }

  /** The record the add form builds. */
  function NewItem(description: string, date: Date, time: Time): (it: Item)
    requires ValidDate(date) && ValidTime(time)
    ensures it.description == description && it.status == PENDING
    ensures it.date == FormatDate(date) && it.time == FormatTime(time)
    ensures ParseDate(it.date) == Some(date)
  {
    ParseFormatDate(date);
    Item(description, FormatDate(date), FormatTime(time), PENDING)
  }

  /** After an add, the saved list holds every earlier item and the new one,
      sorted. */
  lemma AddKeepsEverything(s: seq<Item>, it: Item)
    ensures |SortByKey(s + [it])| == |s| + 1
    ensures multiset(SortByKey(s + [it])) == multiset(s) + multiset{it}
    ensures Sorted(SortByKey(s + [it]))
  {
    SortByKeyPermutes(s + [it]);
    SortByKeySorted(s + [it]);
  }

  /** The list after the edit form's `update`, before the re-sort. */
  function EditAt(s: seq<Item>, index: nat, description: string, date: Date, time: Time): (r: seq<Item>)
    requires index < |s| && ValidDate(date) && ValidTime(time)
    ensures |r| == |s|
    ensures r[index].description == description
    ensures r[index].date == FormatDate(date) && r[index].time == FormatTime(time)
    ensures r[index].status == s[index].status
    ensures forall j :: 0 <= j < |s| && j != index ==> r[j] == s[j]
  {
    s[index := s[index].(description := description, date := FormatDate(date), time := FormatTime(time))]
  }

  /** The status a checkbox stands for. */
  function StatusOf(checked: bool): (st: string)
    ensures st == DONE <==> checked
    ensures st == DONE || st == PENDING
  {
    if checked then DONE else PENDING
  }

  /** The list after `items[index]['status'] = status`, before the re-sort. */
  function WithStatus(s: seq<Item>, index: nat, status: string): (r: seq<Item>)
    requires index < |s|
    ensures |r| == |s| && r[index].status == status
    ensures r[index].description == s[index].description
    ensures r[index].date == s[index].date && r[index].time == s[index].time
    ensures forall j :: 0 <= j < |s| && j != index ==> r[j] == s[j]
  {
    s[index := s[index].(status := status)]
  }

  /** The list after `items.pop(index)`, before the re-sort. */
  function RemoveAt(s: seq<Item>, index: nat): (r: seq<Item>)
    requires index < |s|
    ensures |r| == |s| - 1
    ensures forall j :: 0 <= j < index ==> r[j] == s[j]
    ensures forall j :: index <= j < |r| ==> r[j] == s[j + 1]
    ensures multiset(r) + multiset{s[index]} == multiset(s)
  {
    assert s == s[..index] + [s[index]] + s[index + 1..];
    s[..index] + s[index + 1..]
  }

  /** Toggling a status on a sorted list moves no item: every index the
      tabs showed still names the same item after the save. */
  lemma SetStatusKeepsPositions(s: seq<Item>, index: nat, status: string)
    requires Sorted(s) && index < |s|
    ensures SortByKey(WithStatus(s, index, status)) == WithStatus(s, index, status)
  {
    var r := WithStatus(s, index, status);
    assert forall j :: 0 <= j < |s| ==> SameKey(r[j], s[j]);
    SortByKeyOfSorted(r);
  }

  /** Deleting from a sorted list leaves the other items in their order. */
  lemma DeleteKeepsOrder(s: seq<Item>, index: nat)
    requires Sorted(s) && index < |s|
    ensures SortByKey(RemoveAt(s, index)) == RemoveAt(s, index)
  {
    var r := RemoveAt(s, index);
    forall i, j | 0 <= i < j < |r|
      ensures !KeyLess(r[j], r[i])
    {
      var i', j' := if i < index then i else i + 1, if j < index then j else j + 1;
      assert r[i] == s[i'] && r[j] == s[j'];
    }
    SortByKeyOfSorted(r);
  }

  /** A list loaded from a file that holds only items the app wrote is
      well formed. */
  lemma LoadWellFormed(d: Disk)
    requires d.Present? && d.body.JsonItems? ==> WellFormed(d.body.items)
    ensures LoadResult(d).Loaded? ==> WellFormed(LoadResult(d).items)
  {
    if d.Present? && d.body.JsonItems? {
      SortByKeyWellFormed(d.body.items);
    }
  }

  /** Adding keeps the list well formed. */
  lemma AddWellFormed(s: seq<Item>, description: string, date: Date, time: Time)
    requires WellFormed(s) && ValidDate(date) && ValidTime(time)
    ensures WellFormed(SortByKey(s + [NewItem(description, date, time)]))
  {
    var t := s + [NewItem(description, date, time)];
    assert forall it :: it in t ==> it in s || it == NewItem(description, date, time);
    SortByKeyWellFormed(t);
  }

  /** Editing keeps the list well formed: the new date is one the app
      wrote, and the status is untouched. */
  lemma EditWellFormed(s: seq<Item>, index: nat, description: string, date: Date, time: Time)
    requires WellFormed(s) && index < |s| && ValidDate(date) && ValidTime(time)
    ensures WellFormed(SortByKey(EditAt(s, index, description, date, time)))
  {
    var t := EditAt(s, index, description, date, time);
    ParseFormatDate(date);
    forall it | it in t
      ensures ItemOk(it)
    {
      var j :| 0 <= j < |t| && t[j] == it;
      if j != index {
        assert s[j] in s;
      } else {
        assert s[index] in s;
      }
    }
    SortByKeyWellFormed(t);
  }

  /** A checkbox toggle keeps the list well formed. */
  lemma SetStatusWellFormed(s: seq<Item>, index: nat, checked: bool)
    requires WellFormed(s) && index < |s|
    ensures WellFormed(SortByKey(WithStatus(s, index, StatusOf(checked))))
  {
    var t := WithStatus(s, index, StatusOf(checked));
    forall it | it in t
      ensures ItemOk(it)
    {
      var j :| 0 <= j < |t| && t[j] == it;
      if j != index {
        assert s[j] in s;
      } else {
        assert s[index] in s;
      }
    }
    SortByKeyWellFormed(t);
  }

  /** Deleting keeps the list well formed. */
  lemma DeleteWellFormed(s: seq<Item>, index: nat)
    requires WellFormed(s) && index < |s|
    ensures WellFormed(SortByKey(RemoveAt(s, index)))
  {
    var t := RemoveAt(s, index);
    forall it | it in t
      ensures ItemOk(it)
    {
      assert it in multiset(t);
    }
    SortByKeyWellFormed(t);
  }

  /** The state `main` works on: the session's item list and the backing
      file `data.json`. */
  class TodoStore {
    var items: seq<Item>
    var disk: Disk

    /** The list is sorted and is what the backing file holds, as after
        every save. */
    ghost predicate Synced()
      reads this
    {
      Sorted(items) && disk == Present(JsonItems(items))
    }

    /** A session over a backing file in state `d`, before `load_data`. */
    constructor (d: Disk)
      ensures items == [] && disk == d
    {
      items := [];
      disk := d;
    }

    /** `items.sort(key=lambda x: (x['date'], x['time']))`, in place: an
        insertion sort by swaps of neighbours, which moves an item only
        past items with a strictly larger key, so equal keys keep their
        order. */
    method SortItems()
      modifies this`items
      ensures items == SortByKey(old(items))
    {
      ghost var input := items;
      var i := 0;
      while i < |items|
        invariant |items| == |input| && 0 <= i <= |items|
        invariant items == SortByKey(input[..i]) + input[i..]
      {
        ghost var done, rest := SortByKey(input[..i]), input[i..];
        Split(done, rest);
        SiftLeft(i);
        assert input[..i + 1] == input[..i] + [input[i]];
        SortByKeySnoc(input[..i], input[i]);
        i := i + 1;
      }
      assert input[..i] == input;
    }

    /** One pass of the sort: the item at `i` is swapped leftwards past the
        items before it with a strictly larger key. */
    method SiftLeft(i: nat)
      requires i < |items|
      modifies this`items
      ensures items == Insert(old(items)[i], old(items)[..i]) + old(items)[i + 1..]
    {
      ghost var p, rest := items[..i], items[i + 1..];
      var x := items[i];
      assert items == p[..i] + [x] + p[i..] + rest;
      var j := i;
      while j > 0 && KeyLess(items[j], items[j - 1])
        invariant 0 <= j <= i && |p| == i
        invariant items == p[..j] + [x] + p[j..] + rest
        invariant forall k :: j <= k < i ==> KeyLess(x, p[k])
      {
        SwapStep(p, x, rest, j);
        items := items[j - 1 := items[j]][j := items[j - 1]];
        j := j - 1;
      }
      InsertAt(x, p, j);
    }

    /** `save_data(items)`: sort in place, then overwrite the file with the
        whole list. */
    method Save()
      modifies this
      ensures items == SortByKey(old(items))
      ensures disk == Present(JsonItems(items)) && Synced()
    {
      SortItems();
      SortByKeySorted(old(items));
      disk := Present(JsonItems(items));
    }

    /** `st.session_state['items'] = load_data()`. */
    method Load() returns (outcome: LoadOutcome)
      modifies this
      ensures outcome == LoadResult(old(disk))
      ensures disk == DiskAfterLoad(old(disk))
      ensures outcome.Loaded? ==> items == outcome.items
      ensures outcome.Crashed? ==> items == old(items)
      ensures outcome.Loaded? && (old(disk).Present? && old(disk).body.JsonItems? ==> WellFormed(old(disk).body.items))
        ==> WellFormed(items)
    {
      match disk {
        case Absent =>
          items := [];
          Save();
          outcome := Loaded([], false);
        case Present(ZeroLength) =>
          items := [];
          outcome := Loaded([], false);
        case Present(NotJson(_)) =>
          items := [];
          outcome := Loaded([], true);
        case Present(JsonItems(s)) =>
          if WellFormed(s) {
            SortByKeyWellFormed(s);
          }
          items := s;
          SortItems();
          outcome := Loaded(items, false);
        case Present(OtherJson) =>
          outcome := Crashed;
      }
    }

    /** The add form: nothing happens for an empty description; otherwise a
        new Pending item is appended and the list saved. */
    method Add(description: string, date: Date, time: Time) returns (added: bool)
      requires ValidDate(date) && ValidTime(time)
      modifies this
      ensures added <==> description != []
      ensures added ==> items == SortByKey(old(items) + [NewItem(description, date, time)]) && Synced()
      ensures !added ==> items == old(items) && disk == old(disk)
      ensures old(WellFormed(items)) ==> WellFormed(items)
    {
      added := description != [];
      if added {
        if WellFormed(items) {
          AddWellFormed(items, description, date, time);
        }
        items := items + [NewItem(description, date, time)];
        Save();
      }
    }

    /** The edit form's save button: replace the description, date and time
        of the item at `index`, then save. */
    method Edit(index: nat, description: string, date: Date, time: Time)
      requires index < |items| && ValidDate(date) && ValidTime(time)
      modifies this
      ensures items == SortByKey(EditAt(old(items), index, description, date, time)) && Synced()
      ensures old(WellFormed(items)) ==> WellFormed(items)
    {
      if WellFormed(items) {
        EditWellFormed(items, index, description, date, time);
      }
      var item := items[index];
      items := items[index := item.(description := description, date := FormatDate(date), time := FormatTime(time))];
      Save();
    }

    /** The checkbox of the item at `index`: when the status it stands for
        differs from the stored one, store it and save. */
    method SetStatus(index: nat, checked: bool) returns (changed: bool)
      requires index < |items|
      modifies this
      ensures changed <==> old(items)[index].status != StatusOf(checked)
      ensures changed ==> items == SortByKey(WithStatus(old(items), index, StatusOf(checked))) && Synced()
      ensures !changed ==> items == old(items) && disk == old(disk)
      ensures changed && old(Synced()) ==> items == WithStatus(old(items), index, StatusOf(checked))
      ensures old(WellFormed(items)) ==> WellFormed(items)
    {
      var newStatus := StatusOf(checked);
      changed := newStatus != items[index].status;
      if changed {
        if Sorted(items) {
          SetStatusKeepsPositions(items, index, newStatus);
        }
        if WellFormed(items) {
          SetStatusWellFormed(items, index, checked);
        }
        items := items[index := items[index].(status := newStatus)];
        Save();
      }
    }

    /** The delete button: `items.pop(index)`, then save. */
    method Delete(index: nat)
      requires index < |items|
      modifies this
      ensures items == SortByKey(RemoveAt(old(items), index)) && Synced()
      ensures old(Synced()) ==> items == RemoveAt(old(items), index)
      ensures old(WellFormed(items)) ==> WellFormed(items)
    {
      if Sorted(items) {
        DeleteKeepsOrder(items, index);
      }
      if WellFormed(items) {
        DeleteWellFormed(items, index);
      }
      items := items[..index] + items[index + 1..];
      Save();
    }
  }

  /** The parts of a list split after its sorted prefix. */
  lemma Split(done: seq<Item>, rest: seq<Item>)
    requires rest != []
    ensures (done + rest)[..|done|] == done
    ensures (done + rest)[|done|] == rest[0]
    ensures (done + rest)[|done| + 1..] == rest[1..]
  {
  }

  /** One swap of the inner loop of `SortItems` moves `x` one place left. */
  lemma SwapStep(p: seq<Item>, x: Item, rest: seq<Item>, j: nat)
    requires 0 < j <= |p|
    ensures var s := p[..j] + [x] + p[j..] + rest;
      s[j - 1 := s[j]][j := s[j - 1]] == p[..j - 1] + [x] + p[j - 1..] + rest
  {
  }
}
