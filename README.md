# SimpleTODO: a verified model of the per-project TODO store

SimpleTODO is a Sublime Text plugin that keeps file-and-line anchored TODO
notes for each project. Its settings object is a table from a project
directory (the window's first folder) to an ordered list of records
`{text, file_name, line_number}`. The plugin's `simple_todo` command adds a
record, lists the records, jumps to one or deletes one. An event listener
marks the stored lines in each file it opens.

This project models that store and the logic around it in Dafny:

- `wrappers.dfy` (`Wrappers`): `Option`, `Result` and the Python exceptions the code can raise on unguarded paths (`IndexError`, `ValueError`, `AttributeError`).
- `py_str.dfy` (`PyStr`): the Python string operations the plugin relies on. It has `str.replace(old, new, 1)` (with the search for the first occurrence it relies on, as `str.find` would give), `str.strip()` over Python's whitespace set, and `str(int)`. `str(int)` comes with a decimal parser as its inverse.
- `posix_path.dfy` (`PosixPath`): `os.path.join` over two components, with the POSIX rules. An absolute second part wins. No extra `/` is added after a trailing one.
- `py_list.dfy` (`PyList`): the list operations used. `xs[i]` allows negative indices. `xs.insert(i, x)` clamps its index. `xs.remove(x)` is a linear-search method, proved against the specification function `RemoveFirst`.
- `todo.dfy` (`Todo`): the record and panel-row datatypes and the relative file name stored on add. It also holds the three quick-panel menus, what a selection in each leads to, and the two jump targets.
- `todo_store.dfy` (`TodoStore`): the settings object as a class. It holds the in-memory table `entries` and the table `persisted`, which is what `save_settings` last wrote. `Stored` is `load_todo` on a table.
- `command.dfy` (`Command`): the text command as a class over one directory and the settings. It has `load_todo`, `save_todo`, `list`, `list_and_select`, and the callbacks of `add` and of the Delete action. Each mutating method states the whole new table. A client method states the add-list-delete scenario for `/proj/a.py`.
- `listener.dfy` (`Listener`): `refresh`, a loop that collects marker rows. It is proved against the function `MarkerRows`.

Behaviour the model pins down:

- A cancel (-1) in the `list_and_select` panel indexes `todo[-1]`: it jumps to the last record. On an empty list it is an `IndexError`.
- The actions panel's Jump opens the same line as `list_and_select`, but it selects the 0-based row `line_number`. That is one row below the record's line.
- `refresh` does not call `add_regions` at all when the project's list is missing or empty. So the last record's marker stays after that record is deleted. An unsaved view with a non-empty list gets an empty marker set.
- The stored name is `file_name.replace(directory + '/', '', 1)`. The cut is not anchored at the start of the name. A file outside the project whose path contains `directory + "/"` loses that part (`RelativeNameCutsInside` for `/q/p/a.py` under `/p`, `RelativeNameCutsInsideNotFound` in general). Joining the result back onto the directory then does not give the file.

Two behaviours of the code worth stating plainly:

- Deleting a record that is no longer stored raises `ValueError` from `list.remove` (simple_todo.py:112) and saves nothing.
- A cancel in `list_and_select` selects the last record, because its callback indexes `todo[index]` unguarded (simple_todo.py:84).

Host facilities become parameters or outputs:

- The view's file name (`None` for an unsaved buffer) is a parameter.
- The cursor's 0-based row is a parameter.
- The window's folders are a parameter (empty when the view has no window).
- The text typed into the input panel and the index picked in a quick panel are parameters.
- A panel is modelled by its list of rows.
- A jump is modelled by the `path:line:column` handed to `open_file` and the 0-based row then selected.
- The markers are modelled by the list of rows handed to `add_regions`.

## Model

| member | source | states |
|---|---|---|
| `PyStr.Find` | simple_todo.py:45 | the result is the first index where the pattern occurs, or `None` when it occurs nowhere |
| `PyStr.ReplaceFirst` | simple_todo.py:45 | with no occurrence the string is unchanged; otherwise exactly the first occurrence is replaced and everything before and after it is kept |
| `PyStr.Strip` | simple_todo.py:56 | the result neither starts nor ends with whitespace; it is the infix of the input that begins after the leading whitespace, and only whitespace lies after it |
| `PyStr.LeadingSpaces` | simple_todo.py:56 | the count covers only whitespace and stops at the first character that is not whitespace |
| `PyStr.TrailingSpaces` | simple_todo.py:56 | the count covers only whitespace at the end and stops at the last character that is not whitespace |
| `PyStr.NatToString` | simple_todo.py:74 | the rendering of a line number is a non-empty string of decimal digits with no leading zero |
| `PyStr.ParseNatToString` | simple_todo.py:74 | parsing the decimal rendering of a natural number gives that number back |
| `PyStr.ParseIntToString` | simple_todo.py:74 | the rendering of any integer, negative ones included, parses back to that integer |
| `PosixPath.JoinShape` | simple_todo.py:24 | the joined path ends with the second part and is the second part when that is absolute; otherwise it is the first part followed by the second, with a `/` between them exactly when the first part is non-empty and does not already end in `/` |
| `PyList.Index` | simple_todo.py:84 | indexing succeeds exactly for `-len <= i < len`, counting negative indices from the end, and is an `IndexError` otherwise |
| `PyList.InsertPosition` | simple_todo.py:46 | the insert position follows Python's clamping: in range it is the index, negatives count from the end, and out-of-range indices go to the nearer end |
| `PyList.Insert` | simple_todo.py:46-50 | the list grows by one, the new element sits at the insert position, and the old elements keep their order before and after it |
| `PyList.InsertAtFront` | simple_todo.py:46-50 | inserting at 0 puts the element first, followed by the whole old list |
| `PyList.RemoveFirstAt` | simple_todo.py:112 | removal cuts out exactly the element at the first index of the removed value, keeping all others in order |
| `PyList.FirstIndexExists` | simple_todo.py:112 | every value present in a list has a first index |
| `PyList.RemoveFirstPresent` | simple_todo.py:112 | removing a present value shortens the list by one and takes away one copy of it and nothing else |
| `PyList.Remove` | simple_todo.py:112 | `list.remove` raises `ValueError` exactly when the value is absent and otherwise yields the list without its first equal element |
| `Todo.DefaultText` | simple_todo.py:54-58 | an empty selection offers no text; a non-empty one offers the selection with the surrounding whitespace cut off |
| `Todo.RelativeNameInProject` | simple_todo.py:45 | a file under `directory + "/"` is stored by the rest of its path, and prefix plus stored name rebuilds the file name |
| `Todo.RelativeNameNoOccurrence` | simple_todo.py:45 | a file name not containing `directory + "/"` is stored unchanged |
| `Todo.JoinRelativeNameInProject` | simple_todo.py:45 | for a file under the project, joining the stored name onto the directory gives the file back, which is how markers and jumps find it |
| `Todo.JoinRelativeNameOutside` | simple_todo.py:45 | for an absolute file name not containing `directory + "/"`, joining the stored name gives the file back too |
| `Todo.RelativeNameCutsFirst` | simple_todo.py:45 | the stored name is the file name with exactly its first `directory + "/"` cut out, wherever it occurs |
| `Todo.RelativeNameCutsInsideNotFound` | simple_todo.py:45 | whenever the first `directory + "/"` in an absolute file name does not start it, joining the stored name back onto the directory does not give the file |
| `Todo.RelativeNameCutsInside` | simple_todo.py:45 | the directory is cut from the middle of an outside path too (`/q/p/a.py` under `/p` becomes `/qa.py`), and that file is not found again |
| `Todo.LocationDetermines` | simple_todo.py:74 | the secondary label `file_name:line_number` starts with the file name and a colon, and the rest parses back to the line number |
| `Todo.Labels` | simple_todo.py:94 | one panel row per record, in stored order, each built from its record |
| `Todo.ListMenu` | simple_todo.py:74 | the `list` panel has one row more than there are records, "+ New" first, and record `i` on row `i + 1` |
| `Todo.ListOnDone` | simple_todo.py:68-72 | row 0 starts an add, a row `i` between 1 and the record count opens the actions of the record shown on that row, a negative index does nothing, and a larger index is an `IndexError` |
| `Todo.ListAndSelectMenu` | simple_todo.py:94 | the `list_and_select` panel has exactly one row per record, in stored order |
| `Todo.ListAndSelectJump` | simple_todo.py:85-88 | this jump opens the record's file name joined onto the project directory, at the record's line number, and selects the 0-based row `line_number - 1` |
| `Todo.ListAndSelectOnDone` | simple_todo.py:83-88 | the callback succeeds exactly for Python-valid indices; a row jumps to its record; a cancel (-1) jumps to the last record, or is an `IndexError` on an empty list |
| `Todo.ActionsMenu` | simple_todo.py:116-117 | the actions panel is Back, Jump with the record's text and location, and Delete, in that order |
| `Todo.ActionsJump` | simple_todo.py:102-105 | this jump opens the record's file name joined onto the project directory, at the record's line number, and selects the 0-based row `line_number` |
| `Todo.ActionsOnDone` | simple_todo.py:98-114 | 0 is Back, 1 is Jump, 2 is Delete, anything else does nothing, and each choice matches the title on the row it picks |
| `Todo.ActionsJumpOneRowLower` | simple_todo.py:101-105 | both jumps open the same path and line, but the actions jump selects one row lower than `list_and_select` |
| `Todo.AddThenListAndSelectJump` | simple_todo.py:43-51 | a record added from a file under the project jumps back, through `list_and_select`, to that file and the cursor's row |
| `TodoStore.SaveThenLoad` | simple_todo.py:127-129 | writing a list for a directory and loading it gives that list in the same order, and other directories load as before |
| `TodoStore.LoadMissing` | simple_todo.py:120-125 | a directory with no entry loads as the empty list |
| `TodoStore.Settings.constructor` | simple_todo.py:131-132 | a fresh settings object holds what its file holds |
| `TodoStore.Settings.Get` | simple_todo.py:122 | `get` yields a value exactly for stored keys, and then the stored one |
| `TodoStore.Settings.Set` | simple_todo.py:128 | `set` replaces one key's entry and leaves the file alone |
| `TodoStore.Settings.Save` | simple_todo.py:129 | `save_settings` makes the file hold what the object holds |
| `Command.RunFlow` | simple_todo.py:31-40 | `run` starts the add, list or list-and-select flow for exactly those mode strings, and nothing for any other |
| `Command.AddedPrepends` | simple_todo.py:44-51 | the list written by add is one longer, has the new record first with line number cursor row + 1 (so at least 1), and keeps the old records after it in order |
| `Command.ScenarioAdded` | simple_todo.py:44-51 | adding "fix bug" with the cursor on row 4 of `/proj/a.py` to an empty project stores exactly the record `{fix bug, a.py, 5}` |
| `Command.ScenarioMenu` | simple_todo.py:74 | the `list` panel for that record is "+ New" followed by the row `fix bug` / `a.py:5` |
| `Command.TodoCommand.constructor` | simple_todo.py:32-33 | the command works on the window's first folder and the shared settings |
| `Command.TodoCommand.LoadTodo` | simple_todo.py:120-125 | `load_todo` returns the project's stored list, or the empty list when there is none |
| `Command.TodoCommand.SaveTodo` | simple_todo.py:127-129 | `save_todo` replaces only the project's entry and writes the settings out |
| `Command.TodoCommand.List` | simple_todo.py:62-75 | `list` shows the `list` panel of the project's current records, missing ones reading as none |
| `Command.TodoCommand.ListAndSelect` | simple_todo.py:77-95 | `list_and_select` shows one row per current record |
| `Command.TodoCommand.AddDone` | simple_todo.py:43-52 | with an unsaved view it fails with nothing changed; otherwise the new record is put in front of the project's list, only that entry changes, the settings are written out and the updated `list` panel is shown |
| `Command.TodoCommand.DeleteDone` | simple_todo.py:110-114 | an item no longer stored raises `ValueError` and changes nothing; otherwise its first equal record is removed, only that entry changes, the settings are written out and the updated `list` panel is shown |
| `Listener.MarkerRowsSnoc` | simple_todo.py:23-26 | one more loop step appends that record's row exactly when it is anchored, as the `append` in the loop does |
| `Listener.MarkerRowsConcat` | simple_todo.py:22-26 | the marker rows of two lists joined are the rows of the first followed by those of the second, so rows keep list order |
| `Listener.MarkedRowHasRecord` | simple_todo.py:23-26 | every marked row is `line_number - 1` of a record anchored in the view's file |
| `Listener.RecordRowIsMarked` | simple_todo.py:23-26 | every record anchored in the view's file has its row marked |
| `Listener.MarkerRowsMembers` | simple_todo.py:23-26 | a row is marked exactly when some anchored record sits on the line after it |
| `Listener.MarkerRowsBounded` | simple_todo.py:22-26 | there are never more markers than records |
| `Listener.UnsavedViewHasNoMarkers` | simple_todo.py:24 | a view without a file name matches no record |
| `Listener.AddThenMarker` | simple_todo.py:23-26 | a record added from a file under the project is marked in that file on the cursor's row, ahead of the older records' markers |
| `Listener.Refresh` | simple_todo.py:16-28 | with no folder, or a missing or empty list, `add_regions` is not called; otherwise it is called with exactly the rows of the anchored records, in list order; the settings are only read |

## Left out

- Sublime's UI is left out: input and quick panels, `set_timeout` deferral, `add_regions` rendering, `view.line`, `show_at_center` and selection changes. Each is modelled only by the value handed to it.
- `text_point`, `rowcol` and `open_file` with `ENCODED_POSITION` are treated as conversions between rows and positions. The model keeps rows and does not model clamping at the end of a file.
- The settings file on disk is modelled as the `persisted` map. Its JSON format and `load_settings` reading the file are not modelled.
- `add` and the Delete action change the loaded list with `insert` and `remove` before `settings.set` stores it again. The model works on list values; the end state is the same.
- `PosixPath.Join`: follows POSIX `os.path.join` for two parts. It does not model Windows separators or drive letters.
- `window().folders()[0]` with no folder open (an `IndexError`) is not modelled. The command is built with its directory.
- `view.sel()[0]` with no selection is not modelled.
- The listener's `__init__`, `on_load` and `on_activated` are host dispatch. Each only calls `refresh`.
- Stored values are typed. A `line_number` that `int()` could not convert, or a settings value that is not a list, is not modelled.
- `Todo.DefaultText`: `view.substr` is a parameter. The model trims Python's whitespace code points only.
