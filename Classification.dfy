/** How one item is shown, compared against an explicit `today`:
    the flags `is_today` and `is_overdue` of `render_todo_item`, and the
    branch of its `if`/`elif` chain that picks the item's style. */
module Classification {
  import opened Wrappers
  import opened Calendar
  import opened TodoItems

  datatype Display = Done | Overdue | DueToday | Normal

  /** `is_today`: due on `today` and not done. */
  predicate IsToday(itemDate: Date, status: string, today: Date) {
    itemDate == today && status != DONE
  }

  /** `is_overdue`: due before `today` and not done. */
  predicate IsOverdue(itemDate: Date, status: string, today: Date) {
    DateLess(itemDate, today) && status != DONE
  }

  /** The style an item is rendered in, or `None` where parsing its date
      raises `ValueError` (the date is parsed before any branch is taken). */
  function Classify(item: Item, today: Date): (r: Option<Display>)
    ensures r.None? <==> ParseDate(item.date).None?
    ensures r.Some? ==> var d := ParseDate(item.date).value;
      && (r.value == Done <==> item.status == DONE)
      && (r.value == Overdue <==> IsOverdue(d, item.status, today))
      && (r.value == DueToday <==> IsToday(d, item.status, today))
      && (r.value == Normal <==> !IsOverdue(d, item.status, today) && !IsToday(d, item.status, today)
                                 && item.status != DONE)
  {
    match ParseDate(item.date)
    case None => None
    case Some(d) =>
      var isToday := IsToday(d, item.status, today);
      var isOverdue := IsOverdue(d, item.status, today);
      if item.status == DONE then Some(Done)
      else if isOverdue then Some(Overdue)
      else if isToday then Some(DueToday)
      else Some(Normal)
  }

  /** An item is never both overdue and due today. */
  lemma OverdueExcludesToday(itemDate: Date, status: string, today: Date)
    ensures !(IsOverdue(itemDate, status, today) && IsToday(itemDate, status, today))
  {
  }

  /** For an item the app wrote itself, the style depends only on its status
      and how its due date compares with `today`. */
  lemma ClassifyWrittenDate(item: Item, d: Date, today: Date)
    requires ValidDate(d) && item.date == FormatDate(d)
    ensures Classify(item, today) ==
      Some(if item.status == DONE then Done
           else if DateLess(d, today) then Overdue
           else if d == today then DueToday
           else Normal)
  {
    ParseFormatDate(d);
  }
}
