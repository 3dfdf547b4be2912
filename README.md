# A verified model of the "My To Do List" data layer

The app keeps one list of to-do items in its session state. Each item is a
record `{description, date, time, status}`. `date` is a zero-padded
`YYYY-MM-DD` string, `time` a zero-padded `HH:MM:SS` string, and status is
`"Pending"` or `"Done"`. The list is backed by one JSON file.
`save_data` and `load_data` sort the list in place by the key `(date, time)`.
Each of the four edit handlers changes the list and then saves it:

- add appends a new Pending item;
- edit updates description, date and time at an index;
- the checkbox sets the status at an index;
- delete pops an index.

The page shows three tabs (All, Pending, Done). Each tab lists items under
their index in the full list. An item is styled as done, overdue, due today
or normal against today's date. A summary gives the done count and the total.

The model is split into these modules:

- `TextOrder` models Python's `<` on `str` and zero-padded digit strings. It
  proves that zero-padded numbers of one width compare as strings the way
  the numbers compare.
- `Calendar` covers dates and times, the text the app stores them as
  (`str(date)`, `strftime('%H:%M:%S')`) and the parse it applies to a stored
  date (`strptime(.., '%Y-%m-%d')`). It proves that the string order of the
  stored forms is calendar and clock order.
- `TodoItems` holds the item record, the sort key and `SortByKey`, the
  functional stable insertion sort that specifies `list.sort`. SortByKey is
  proved sorted, a permutation, stable and idempotent.
- `Classification` models the `is_today` and `is_overdue` flags and the
  display branch of `render_todo_item`.
- `Views` models the tab loop of `main` and the counts of `render_stats`.
- `Store` is the class `TodoStore`. Its field `items` is the session list and
  its field `disk` is the abstract state of the backing file. It has an
  in-place insertion sort on `items` proved equal to `SortByKey`, plus
  `Save`, `Load`, `Add`, `Edit`, `SetStatus` and `Delete`. The pure
  functions beside the class state each mutation before the re-sort, the
  load/save round trip and what every save leaves behind.

Inputs that the app reads from the wall clock or from widgets are
parameters: `today`, the date and time from the form, the checkbox state.

Two behaviours of the code are worth stating plainly:

- If the file holds valid JSON of the wrong shape (a dict, a list of
  non-items), `load_data` does not catch it and does not warn
  (myApp.py:16-25). The sort raises an exception that the
  `except (json.JSONDecodeError, ValueError)` clause does not catch. The
  model returns `Crashed` there.
- The edit handler does not refuse an empty description (myApp.py:88-93).
  So `Edit` accepts one; only `Add` refuses it.

Every item the app writes has a date that parses and a status of Pending or
Done. `TodoItems.WellFormed` states this. Load, add, edit, toggle and delete
are proved to keep it.

## Model

| member | source | states |
|---|---|---|
| TextOrder.StrLess | myApp.py:29 | Python's `<` on `str`: code point by code point, a proper prefix first; its order laws are the lemmas below |
| TextOrder.StrLessTotal | myApp.py:29 | two distinct strings are ordered one way or the other by Python's `str` comparison |
| TextOrder.StrLessTransitive | myApp.py:29 | Python's `str` comparison is transitive |
| TextOrder.DigitsLess | myApp.py:58-59 | zero-padded numbers of one width compare as strings exactly as the numbers compare |
| TextOrder.DigitsOfValue | myApp.py:69 | a digit string is the zero-padded form of the number it denotes |
| TextOrder.ValueOfDigits | myApp.py:69 | reading back a zero-padded number gives the number |
| Calendar.FormatDate | myApp.py:58 | `str(date)` is ten characters, `YYYY-MM-DD`, with digit fields and dashes at positions 4 and 7 |
| Calendar.FormatTime | myApp.py:59 | `strftime('%H:%M:%S')` is eight characters, `HH:MM:SS`, with digit fields and colons at positions 2 and 5 |
| Calendar.ParseDate | myApp.py:69 | what the date parse accepts is a valid calendar date; its round trip with `FormatDate` is proved below |
| Calendar.DateLess | myApp.py:71 | Python's `<` on dates: by year, then month, then day |
| Calendar.ParseFormatDate | myApp.py:69 | parsing the `str(date)` form of a valid date gives that date back |
| Calendar.ParseDateCanonical | myApp.py:69 | a string the date parse accepts is exactly the `str` form of the date it yields |
| Calendar.FormatDateOrder | myApp.py:58 | the stored date strings compare as strings in calendar order |
| Calendar.FormatDateInjective | myApp.py:58 | two dates are stored as the same string exactly when they are equal |
| Calendar.FormatTimeOrder | myApp.py:59 | the stored time strings compare as strings in clock order |
| Calendar.FormatTimeInjective | myApp.py:59 | two times are stored as the same string exactly when they are equal |
| TodoItems.KeyLess | myApp.py:29 | the tuple comparison of `(date, time)` keys: by date string, then by time string |
| TodoItems.SortByKey | myApp.py:29 | `items.sort(key=...)`: the result has the input's length; sorted, permutation and stability are proved below |
| TodoItems.KeyLessTotal | myApp.py:29 | any two sort keys `(date, time)` are equal or ordered one way or the other |
| TodoItems.KeyLessTransitive | myApp.py:29 | the tuple comparison of sort keys is transitive |
| TodoItems.KeyLessIsCalendarOrder | myApp.py:29 | for items whose date and time the app wrote, the key order is the order of the moments in time: date first, then time |
| TodoItems.SortByKeySorted | myApp.py:29 | after sorting, the list is non-decreasing by `(date, time)` |
| TodoItems.SortByKeyPermutes | myApp.py:29 | sorting keeps exactly the items of the list, each as often (a permutation) |
| TodoItems.SortByKeyStable | myApp.py:29 | for every key, the items with that key keep their relative order (stability) |
| TodoItems.SortByKeyOfSorted | myApp.py:21 | sorting an already sorted list leaves it unchanged |
| TodoItems.SortByKeyIdempotent | myApp.py:29 | sorting twice gives the same list as sorting once |
| TodoItems.WellFormedStatuses | myApp.py:113-115 | in a list whose items are well formed, every status is Pending or Done, so the Pending and Done tabs partition it |
| TodoItems.SortByKeyWellFormed | myApp.py:29 | sorting keeps every item well formed: its date parses and its status is Pending or Done |
| Classification.IsToday | myApp.py:70 | `is_today`: the parsed date is today and the status is not Done |
| Classification.IsOverdue | myApp.py:71 | `is_overdue`: the parsed date is before today and the status is not Done |
| Classification.Classify | myApp.py:124-135 | the item is shown Done exactly when its status is Done; Overdue exactly when `is_overdue`; DueToday exactly when `is_today`; Normal exactly when none of these holds; `None` stands for the `ValueError` that stops the render when its date does not parse |
| Classification.OverdueExcludesToday | myApp.py:70-71 | an item is never both overdue and due today |
| Classification.ClassifyWrittenDate | myApp.py:68-71 | for a date the app wrote, the style is Done for a done item, else Overdue before today, DueToday on today, Normal after |
| Views.Matches | myApp.py:173 | a tab lists an item when its filter is `None` or equals the item's status |
| Views.FilterIndices | myApp.py:172-175 | the listed positions are positions of the full list, in strictly increasing order |
| Views.FilterIndicesMembers | myApp.py:173-174 | a position is listed exactly when the item at that position matches the filter |
| Views.FilterAll | myApp.py:173 | with the `None` filter every position is listed, in order, under its own index |
| Views.PendingDonePartition | myApp.py:165-174 | when every status is Pending or Done, each position is listed under exactly one of the Pending and Done tabs |
| Views.PendingDoneSizes | myApp.py:165-174 | when every status is Pending or Done, the Pending and Done tabs together are as long as the list |
| Views.VisibleIndices | myApp.py:171-175 | the loop renders exactly the positions `FilterIndices` gives, and `has_visible` holds exactly when some item matches |
| Views.DoneCount | myApp.py:151 | the done count is at most the length of the list |
| Views.DoneCountIsDoneTab | myApp.py:151 | the done count equals the number of items the Done tab lists |
| Views.Summarize | myApp.py:149-151 | no summary for an empty list; otherwise the total is the list length and the done count is `DoneCount` of the list, at most the total |
| Views.DoneCountAll | myApp.py:151 | the done count is the whole list exactly when every item is Done |
| Views.CompletionRatio | myApp.py:152 | the completion ratio lies between 0 and 1 and is 1 exactly when the done count equals the total |
| Views.CompletionRatioFull | myApp.py:151-153 | for a non-empty list, the progress is 1 exactly when every item is Done |
| Store.Saved | myApp.py:27-31 | the file `save_data` leaves holds a JSON item list that is sorted and holds exactly the given items |
| Store.LoadResult | myApp.py:12-25 | only valid JSON of the wrong shape crashes; a loaded list is sorted; the warning is given exactly for an unparsable file; a JSON item list loads, without warning, as exactly `SortByKey` of the file (so sorted, a permutation, and stable); every other case loads the empty list |
| Store.DiskAfterLoad | myApp.py:13-15 | after loading, the backing file exists: a missing file is created holding an empty JSON array, and a file that existed is left untouched |
| Store.LoadWellFormed | myApp.py:12-25 | a file holding only well-formed items loads as a well-formed list |
| Store.SaveLoadRoundTrip | myApp.py:12-31 | loading a saved list gives the sorted list back, without a warning, holding exactly the saved items |
| Store.LoadSaveIdempotent | myApp.py:21-31 | saving what was loaded from an already sorted file writes the same content back |
| Store.NewItem | myApp.py:56-61 | the new item carries the given description, the `str` form of the date, the `HH:MM:SS` form of the time and status Pending, and its stored date parses back to the chosen date |
| Store.AddKeepsEverything | myApp.py:62-63 | after an add and save, the list is one longer, holds every earlier item and the new one, and is sorted |
| Store.AddWellFormed | myApp.py:55-63 | an add keeps the list well formed |
| Store.EditAt | myApp.py:89-93 | an edit sets the description, date and time at the index, keeps that item's status, and changes no other position or the length |
| Store.EditWellFormed | myApp.py:88-94 | an edit keeps the list well formed |
| Store.StatusOf | myApp.py:112-115 | the checkbox stands for Done when checked and Pending otherwise, and for nothing else |
| Store.WithStatus | myApp.py:118 | a toggle sets the status at the index, keeps that item's other fields, and changes no other position or the length |
| Store.SetStatusWellFormed | myApp.py:111-119 | a checkbox toggle keeps the list well formed |
| Store.RemoveAt | myApp.py:143 | a pop removes exactly the element at the index: the length drops by one, earlier items stay in place, later items move up by one, and the multiset loses only that item |
| Store.DeleteWellFormed | myApp.py:142-144 | a delete keeps the list well formed |
| Store.SetStatusKeepsPositions | myApp.py:117-119 | on a sorted list a toggle and save moves no item, so every index the tabs showed still names the same item |
| Store.DeleteKeepsOrder | myApp.py:143-144 | on a sorted list a delete and save leaves the other items in their order |
| Store.TodoStore.SortItems | myApp.py:29 | the in-place sort of the session list leaves exactly `SortByKey` of the old list |
| Store.TodoStore.SiftLeft | myApp.py:29 | one pass of the in-place sort inserts the item at `i` into the sorted prefix before it |
| Store.TodoStore.Save | myApp.py:27-31 | save sorts the list and overwrites the file with the whole sorted list |
| Store.TodoStore.Load | myApp.py:12-25 | the session list becomes what `load_data` returns, the file changes only when it was missing, a crash leaves the list alone, and a file of well-formed items gives a well-formed list |
| Store.TodoStore.Add | myApp.py:55-63 | an empty description changes nothing; otherwise the list becomes the sorted old list plus the new Pending item, and the file holds it; a well-formed list stays well formed |
| Store.TodoStore.Edit | myApp.py:88-94 | the list becomes the sorted result of the edit at the index, and the file holds it; a well-formed list stays well formed |
| Store.TodoStore.SetStatus | myApp.py:111-119 | the list is saved exactly when the checkbox's status differs from the stored one; it then becomes the sorted result of the toggle, which is the toggle itself with no item moved when the list was in sync with the file; otherwise nothing changes; a well-formed list stays well formed |
| Store.TodoStore.Delete | myApp.py:142-144 | the list becomes the sorted result of popping the index, which is the pop itself when the list was in sync with the file, and the file holds it; a well-formed list stays well formed |

## Left out

- JSON encoding and decoding and real file I/O are not modelled: `open`, `os.path.exists`, `os.path.getsize`, `json.load` and `json.dump` with `indent=4, ensure_ascii=False`. The backing file is the abstract `Disk`/`Body` datatype. So the byte-for-byte idempotence of save after load is proved at the level of the stored list, not of the file's text.
- `Store.LoadResult`: the kinds of "valid JSON of the wrong shape" are not told apart. The dict, the list of non-objects and the objects missing `date` or `time` are all `OtherJson`. Objects with extra keys or non-string values are not modelled. A JSON array of objects that have string `date` and `time` but lack `status` or `description` does load in the code (myApp.py:19-22), and only rendering fails later, at myApp.py:70 or myApp.py:123; the model treats such a file as `OtherJson` and so as `Crashed` at load.
- The text of the `st.warning` message is left out (UI output); only the fact that it is raised is modelled.
- `load_lottie` and its HTTP request are left out: a network call whose failures are swallowed and that never reaches the data layer.
- All Streamlit rendering is left out: columns, forms, expanders, tabs, markdown styling, `st.info`, `st.progress` and `st.rerun`. The `editing_{index}` flags that switch an item into edit mode are UI state and are left out too.
- The wall clock (`dt.datetime.now()`) is not read. `today` and the form's default date and time are parameters.
- `Views.CompletionRatio` is an exact rational. The floating-point `progress` and the percentage `int(progress*100)` are not modelled.
- `Calendar.ParseDate` accepts only the zero-padded ten-character form. Python's `strptime` with `%m` and `%d` also accepts one-digit months and days, a space before a one-digit day (so the ten-character `"2024-06- 5"` parses to 2024-06-05, where `ParseDate` gives `None`), and non-ASCII decimal digits. The app never writes such strings; only a hand-edited file could hold them.
- Parsing the stored time for the edit form's default value (`strptime(item['time'], '%H:%M:%S')`) is left out; it only fills a widget.
- Python's `list.sort` is Timsort. It is modelled by a stable insertion sort. Both stable sorts give the same result for the same `<` on keys.
- Negative indices are not modelled. The handlers get indices from `enumerate`, so they are never negative. An index out of range is an `IndexError` in the source and a precondition here.
