/**
 * The event listener's `refresh`: on opening or focusing a view, mark the
 * rows of the records stored for that view's file.
 */
module Listener {
  import opened Wrappers
  import opened Todo
  import opened TodoStore
  import PosixPath

  /**
   * The record is anchored in the view's file: `view.file_name()` equals the
   * record's name joined onto the project directory. An unsaved view has no
   * file name, and `None` equals no path.
   */
  predicate Anchored(directory: string, viewFile: Option<string>, it: Item) {
    viewFile == Some(PosixPath.Join(directory, it.fileName))
  }

  /** The 0-based rows `line_number - 1` of the anchored records, in list order. */
  function MarkerRows(directory: string, viewFile: Option<string>, todo: seq<Item>): seq<int> {
    if todo == [] then []
    else
      (if Anchored(directory, viewFile, todo[0]) then [todo[0].lineNumber - 1] else [])
      + MarkerRows(directory, viewFile, todo[1..])
  }

  /** Proof helper: unfolds `MarkerRows` on a list written as `[it] + rest`. */
  lemma MarkerRowsCons(directory: string, viewFile: Option<string>, it: Item, rest: seq<Item>)
    ensures MarkerRows(directory, viewFile, [it] + rest)
            == (if Anchored(directory, viewFile, it) then [it.lineNumber - 1] else [])
               + MarkerRows(directory, viewFile, rest)
  {
    assert ([it] + rest)[0] == it;
    assert ([it] + rest)[1..] == rest;
  }

  /** The rows of a list split in two are the rows of its first part followed by those of its second. */
  lemma {:induction false} MarkerRowsConcat(directory: string, viewFile: Option<string>, a: seq<Item>, b: seq<Item>)
    ensures MarkerRows(directory, viewFile, a + b)
            == MarkerRows(directory, viewFile, a) + MarkerRows(directory, viewFile, b)
  {
    if a == [] {
      assert a + b == b;
    } else {
      var x, rest := a[0], a[1..];
      assert a + b == [x] + (rest + b);
      assert a == [x] + rest;
      MarkerRowsCons(directory, viewFile, x, rest + b);
      MarkerRowsCons(directory, viewFile, x, rest);
      MarkerRowsConcat(directory, viewFile, rest, b);
      var head := if Anchored(directory, viewFile, x) then [x.lineNumber - 1] else [];
      assert head + (MarkerRows(directory, viewFile, rest) + MarkerRows(directory, viewFile, b))
          == (head + MarkerRows(directory, viewFile, rest)) + MarkerRows(directory, viewFile, b);
    }
  }

  /** Taking one more record of the list adds that record's row, if it is anchored. */
  lemma MarkerRowsSnoc(directory: string, viewFile: Option<string>, todo: seq<Item>, i: nat)
    requires i < |todo|
    ensures MarkerRows(directory, viewFile, todo[..i + 1])
            == MarkerRows(directory, viewFile, todo[..i])
               + (if Anchored(directory, viewFile, todo[i]) then [todo[i].lineNumber - 1] else [])
  {
    assert todo[..i + 1] == todo[..i] + [todo[i]];
    MarkerRowsConcat(directory, viewFile, todo[..i], [todo[i]]);
    assert [todo[i]][1..] == [];
  }

  /** Record `i` of `todo` is anchored in the view's file and sits on the line after `row`. */
  predicate MarksRow(directory: string, viewFile: Option<string>, todo: seq<Item>, i: int, row: int) {
    0 <= i < |todo| && Anchored(directory, viewFile, todo[i]) && row == todo[i].lineNumber - 1
  }

  /** Every marked row comes from an anchored record... */
  lemma {:induction false} MarkedRowHasRecord(directory: string, viewFile: Option<string>, todo: seq<Item>, row: int)
    returns (i: int)
    requires row in MarkerRows(directory, viewFile, todo)
    ensures MarksRow(directory, viewFile, todo, i, row)
  {
    if Anchored(directory, viewFile, todo[0]) && row == todo[0].lineNumber - 1 {
      i := 0;
    } else {
      var k := MarkedRowHasRecord(directory, viewFile, todo[1..], row);
      i := k + 1;
    }
  }

  /** ...and every anchored record has its row marked. */
  lemma {:induction false} RecordRowIsMarked(directory: string, viewFile: Option<string>, todo: seq<Item>, i: int, row: int)
    requires MarksRow(directory, viewFile, todo, i, row)
    ensures row in MarkerRows(directory, viewFile, todo)
  {
    if i > 0 {
      RecordRowIsMarked(directory, viewFile, todo[1..], i - 1, row);
    }
  }

  /** A row is marked exactly when some anchored record sits on the line after it. */
  lemma MarkerRowsMembers(directory: string, viewFile: Option<string>, todo: seq<Item>, row: int)
    ensures row in MarkerRows(directory, viewFile, todo) <==> exists i :: MarksRow(directory, viewFile, todo, i, row)
  {
    if row in MarkerRows(directory, viewFile, todo) {
      var i := MarkedRowHasRecord(directory, viewFile, todo, row);
    }
    if exists i :: MarksRow(directory, viewFile, todo, i, row) {
      var i :| MarksRow(directory, viewFile, todo, i, row);
      RecordRowIsMarked(directory, viewFile, todo, i, row);
    }
  }

  /** There are never more marks than records. */
  lemma {:induction false} MarkerRowsBounded(directory: string, viewFile: Option<string>, todo: seq<Item>)
    ensures |MarkerRows(directory, viewFile, todo)| <= |todo|
  {
    if todo != [] {
      MarkerRowsBounded(directory, viewFile, todo[1..]);
    }
  }

  /** An unsaved view matches no record, so its marks are set to none at all. */
  lemma {:induction false} UnsavedViewHasNoMarkers(directory: string, todo: seq<Item>)
    ensures MarkerRows(directory, None, todo) == []
  {
    if todo != [] {
      UnsavedViewHasNoMarkers(directory, todo[1..]);
    }
  }

  /**
   * A record just added from a file under the project is marked, in that
   * file, on the row the cursor was on, ahead of the marks of the older records.
   */
  lemma AddThenMarker(directory: string, fileName: string, text: string, cursorRow: nat, todo: seq<Item>)
    requires InProject(directory, fileName)
    ensures MarkerRows(directory, Some(fileName), [NewItem(text, RelativeName(directory, fileName), cursorRow)] + todo)
            == [cursorRow] + MarkerRows(directory, Some(fileName), todo)
  {
    var it := NewItem(text, RelativeName(directory, fileName), cursorRow);
    JoinRelativeNameInProject(directory, fileName);
    assert ([it] + todo)[1..] == todo;
  }

  /**
   * `refresh(view)` for a window with `folders` open (none when the view has
   * no window) showing `viewFile`: the rows handed to `add_regions`, or
   * `None` when it is not called at all, which leaves the old marks in place.
   * It only reads the settings.
   */
  method Refresh(settings: Settings, folders: seq<string>, viewFile: Option<string>) returns (regions: Option<seq<int>>)
    ensures folders == [] ==> regions == None
    ensures folders != [] ==> (regions == None <==> Stored(settings.entries, folders[0]) == [])
    ensures regions.Some? ==>
              folders != [] && regions.value == MarkerRows(folders[0], viewFile, Stored(settings.entries, folders[0]))
  {
    if folders == [] {
      return None;
    }
    var directory := folders[0];
    var found := settings.Get(directory);
    if found == None || found.value == [] {
      return None;
    }
    var todo := found.value;
    assert todo == Stored(settings.entries, directory);
    var rows := [];
    for i := 0 to |todo|
      invariant rows == MarkerRows(directory, viewFile, todo[..i])
    {
      MarkerRowsSnoc(directory, viewFile, todo, i);
      if viewFile == Some(PosixPath.Join(directory, todo[i].fileName)) {
        rows := rows + [todo[i].lineNumber - 1];
      }
    }
    assert todo[..|todo|] == todo;
    regions := Some(rows);
  }
}
