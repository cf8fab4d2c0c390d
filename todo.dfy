/**
 * The values the TODO command works with: the stored records, the
 * quick-panel rows built from them, what a selection in each panel leads
 * to, and where a jump lands.
 */
module Todo {
  import opened Wrappers
  import PyStr
  import PyList
  import PosixPath

  /** One stored TODO record, the dictionary `{"text", "file_name", "line_number"}`. */
  datatype Item = Item(text: string, fileName: string, lineNumber: int)

  /** One quick-panel row, the pair `[title, detail]`. */
  datatype Entry = Entry(title: string, detail: string)

  /** Where `open_file` is sent (`path:line:column`) and the 0-based row then selected. */
  datatype Jump = Jump(path: string, line: int, column: int, row: int)

  // ----- Adding a record

  /** The text offered in the input panel: the stripped selection, or nothing for a bare cursor. */
  function DefaultText(selBegin: int, selEnd: int, selected: string): (t: string)
    ensures selBegin == selEnd ==> t == ""
    ensures t == [] || (!PyStr.IsSpace(t[0]) && !PyStr.IsSpace(t[|t| - 1]))
    ensures selBegin != selEnd ==> PyStr.IsTrimmedAt(selected, PyStr.LeadingSpaces(selected), t)
  {
    if selBegin != selEnd then PyStr.Strip(selected) else ""
  }

  /** The file name stored on add: the first occurrence of `directory + "/"` cut out. */
  function RelativeName(directory: string, fileName: string): string {
    PyStr.ReplaceFirst(fileName, directory + "/", "")
  }

  /** `fileName` lies under `directory` and `directory` is written without a trailing `/`. */
  predicate InProject(directory: string, fileName: string) {
    var n := |directory|;
    n > 0 && directory[n - 1] != '/'
    && n + 1 < |fileName| && fileName[..n + 1] == directory + "/" && fileName[n + 1] != '/'
  }

  /** A file under the project is stored by the rest of its path after `directory + "/"`. */
  lemma RelativeNameInProject(directory: string, fileName: string)
    requires |directory| + 1 <= |fileName| && fileName[..|directory| + 1] == directory + "/"
    ensures RelativeName(directory, fileName) == fileName[|directory| + 1..]
    ensures directory + "/" + RelativeName(directory, fileName) == fileName
  {
    assert PyStr.IsFirstOccurrence(fileName, directory + "/", 0);
    assert fileName == fileName[..|directory| + 1] + fileName[|directory| + 1..];
  }

  /** A file name that does not contain `directory + "/"` is stored as it is. */
  lemma RelativeNameNoOccurrence(directory: string, fileName: string)
    requires forall j: nat :: !PyStr.OccursAt(fileName, directory + "/", j)
    ensures RelativeName(directory, fileName) == fileName
  {
  }

  /** Joining the stored name back onto the project finds the file again, inside the project... */
  lemma JoinRelativeNameInProject(directory: string, fileName: string)
    requires InProject(directory, fileName)
    ensures PosixPath.Join(directory, RelativeName(directory, fileName)) == fileName
  {
    RelativeNameInProject(directory, fileName);
  }

  /** ...and for an absolute path that does not contain `directory + "/"` at all. */
  lemma JoinRelativeNameOutside(directory: string, fileName: string)
    requires PosixPath.IsAbsolute(fileName)
    requires forall j: nat :: !PyStr.OccursAt(fileName, directory + "/", j)
    ensures PosixPath.Join(directory, RelativeName(directory, fileName)) == fileName
  {
  }

  /** The stored name is the file name with its first `directory + "/"` cut out, wherever that is. */
  lemma RelativeNameCutsFirst(directory: string, fileName: string, k: nat)
    requires PyStr.IsFirstOccurrence(fileName, directory + "/", k)
    ensures RelativeName(directory, fileName) == fileName[..k] + fileName[k + |directory| + 1..]
  {
    assert fileName[..k] + "" == fileName[..k];
  }

  /**
   * The cut is not anchored at the start: a file outside the project whose
   * path contains `directory + "/"` loses that part, and joining it back
   * does not give the file. Here `/q/p/a.py` under `/p` is stored as `/qa.py`.
   */
  lemma RelativeNameCutsInside(directory: string, fileName: string)
    requires directory == "/p" && fileName == "/q/p/a.py"
    ensures RelativeName(directory, fileName) == "/qa.py"
    ensures PosixPath.Join(directory, RelativeName(directory, fileName)) != fileName
  {
    CutsInsideOccurrence();
    RelativeNameCutsFirst(directory, fileName, 2);
    CutsInsidePieces();
  }

  /**
   * In general: when the first `directory + "/"` in an absolute file name
   * does not start it, the cut keeps the leading `/` and shortens the name,
   * so joining the stored name back onto the directory never gives the file.
   */
  lemma RelativeNameCutsInsideNotFound(directory: string, fileName: string, k: nat)
    requires PosixPath.IsAbsolute(fileName)
    requires k > 0 && PyStr.IsFirstOccurrence(fileName, directory + "/", k)
    ensures PosixPath.Join(directory, RelativeName(directory, fileName)) != fileName
  {
    RelativeNameCutsFirst(directory, fileName, k);
    var r := RelativeName(directory, fileName);
    assert r[0] == fileName[0];
    assert PosixPath.IsAbsolute(r);
    assert |r| < |fileName|;
  }

  lemma CutsInsidePieces()
    ensures "/q/p/a.py"[..2] + "/q/p/a.py"[2 + 3..] == "/qa.py"
  {
    var s := "/q/p/a.py";
    assert s[..2] == "/q";
    assert s[5..] == "a.py";
  }

  /** Where `/p/` first occurs in `/q/p/a.py`. */
  lemma CutsInsideOccurrence()
    ensures PyStr.IsFirstOccurrence("/q/p/a.py", "/p/", 2)
  {
    var s, pat := "/q/p/a.py", "/p/";
    assert !PyStr.OccursAt(s, pat, 0) by { assert s[0..3][1] == 'q' != pat[1]; }
    assert !PyStr.OccursAt(s, pat, 1) by { assert s[1..4][0] == 'q' != pat[0]; }
    assert PyStr.OccursAt(s, pat, 2) by { assert s[2..5] == pat; }
  }

  /** The record `add` stores: the cursor's 0-based row becomes a 1-based line number. */
  function NewItem(text: string, relName: string, cursorRow: nat): Item {
    Item(text, relName, cursorRow + 1)
  }

  // ----- Labels and menus

  /** The secondary label `"%s:%s" % (file_name, int(line_number))`. */
  function Location(it: Item): string {
    it.fileName + ":" + PyStr.IntToString(it.lineNumber)
  }

  /** The secondary label gives back the file name and the line number it was built from. */
  lemma LocationDetermines(it: Item)
    ensures var loc, n := Location(it), |it.fileName|;
            n < |loc| && loc[..n] == it.fileName && loc[n] == ':'
            && var digits := loc[n + 1..];
               PyStr.IsIntLiteral(digits) && PyStr.ParseInt(digits) == it.lineNumber
  {
    var loc, n := Location(it), |it.fileName|;
    assert loc[n + 1..] == PyStr.IntToString(it.lineNumber);
    PyStr.ParseIntToString(it.lineNumber);
  }

  function Label(it: Item): Entry {
    Entry(it.text, Location(it))
  }

  /** One row per record, in stored order. */
  function Labels(todo: seq<Item>): (menu: seq<Entry>)
    ensures |menu| == |todo|
    ensures forall i :: 0 <= i < |todo| ==> menu[i] == Label(todo[i])
  {
    seq(|todo|, i requires 0 <= i < |todo| => Label(todo[i]))
  }

  const NewEntry := Entry("+ New", "")

  /** The `list` panel: a "+ New" row, then one row per record, so record `i` sits at row `i + 1`. */
  function ListMenu(todo: seq<Item>): (menu: seq<Entry>)
    ensures |menu| == |todo| + 1
    ensures menu[0] == NewEntry
    ensures forall i :: 1 <= i < |menu| ==> menu[i] == Label(todo[i - 1])
  {
    seq(|todo| + 1, i requires 0 <= i <= |todo| => if i == 0 then NewEntry else Label(todo[i - 1]))
  }

  /** What a selection in the `list` panel leads to. */
  datatype ListChoice = AddNew | ShowActions(item: Item) | Dismissed | Failed(error: PyError)

  /**
   * The `list` callback: row 0 starts an add, row `i >= 1` opens the actions
   * of the record shown on that row, a cancel (-1) does nothing, and a row
   * past the records is Python's `IndexError`.
   */
  function ListOnDone(todo: seq<Item>, index: int): (c: ListChoice)
    ensures c == AddNew <==> index == 0
    ensures c == Dismissed <==> index < 0
    ensures c.ShowActions? <==> 1 <= index <= |todo|
    ensures c.ShowActions? ==> c.item == todo[index - 1] && ListMenu(todo)[index] == Label(c.item)
    ensures c.Failed? <==> index > |todo|
    ensures c.Failed? ==> c.error == IndexError
  {
    if index == 0 then AddNew
    else if index >= 1 then
      match PyList.Index(todo, index - 1)
      case Ok(it) => ShowActions(it)
      case Err(e) => Failed(e)
    else Dismissed
  }

  /** The `list_and_select` panel: one row per record and nothing else. */
  function ListAndSelectMenu(todo: seq<Item>): (menu: seq<Entry>)
    ensures |menu| == |todo|
    ensures forall i :: 0 <= i < |todo| ==> menu[i] == Label(todo[i])
  {
    Labels(todo)
  }

  /** The jump of `list_and_select`: open the record's file, joined onto the project, at its line, select the 0-based row `line_number - 1`. */
  function ListAndSelectJump(directory: string, it: Item): (j: Jump)
    ensures j.path == PosixPath.Join(directory, it.fileName)
    ensures j.line == it.lineNumber && j.row == it.lineNumber - 1 && j.column == 0
  {
    var row := it.lineNumber - 1;
    Jump(PosixPath.Join(directory, it.fileName), row + 1, 0, row)
  }

  /**
   * The `list_and_select` callback indexes `todo[index]` without a guard:
   * a cancel (-1) jumps to the last record, and on an empty list it is an
   * `IndexError`.
   */
  function ListAndSelectOnDone(directory: string, todo: seq<Item>, index: int): (r: Result<Jump>)
    ensures r.Ok? <==> -|todo| <= index < |todo|
    ensures 0 <= index < |todo| ==> r == Ok(ListAndSelectJump(directory, todo[index]))
    ensures index == -1 && todo != [] ==> r == Ok(ListAndSelectJump(directory, todo[|todo| - 1]))
    ensures index == -1 && todo == [] ==> r == Err(IndexError)
  {
    match PyList.Index(todo, index)
    case Ok(it) => Ok(ListAndSelectJump(directory, it))
    case Err(e) => Err(e)
  }

  /** The actions panel for one record. */
  function ActionsMenu(it: Item): (menu: seq<Entry>)
    ensures |menu| == 3
    ensures menu[0] == Entry("< Back", "") && menu[2] == Entry("- Delete", "")
    ensures menu[1].title == "> Jump" && menu[1].detail == it.text + " - " + Location(it)
  {
    [Entry("< Back", ""), Entry("> Jump", it.text + " - " + Location(it)), Entry("- Delete", "")]
  }

  /** What a selection in the actions panel leads to. */
  datatype Action = Back | JumpTo(jump: Jump) | Delete | Dismiss

  /** The jump of the actions panel: open the record's file, joined onto the project, at its line and select the 0-based row `line_number`. */
  function ActionsJump(directory: string, it: Item): (j: Jump)
    ensures j.path == PosixPath.Join(directory, it.fileName)
    ensures j.line == it.lineNumber && j.row == it.lineNumber && j.column == 0
  {
    var row := it.lineNumber;
    Jump(PosixPath.Join(directory, it.fileName), row, 0, row)
  }

  /** The actions callback: 0 goes back, 1 jumps, 2 deletes, anything else (a cancel) does nothing. */
  function ActionsOnDone(directory: string, it: Item, index: int): (a: Action)
    ensures a == Back <==> index == 0
    ensures a.JumpTo? <==> index == 1
    ensures a == Delete <==> index == 2
    ensures a == Dismiss <==> !(0 <= index < 3)
    ensures a.JumpTo? ==> a.jump == ActionsJump(directory, it)
    ensures a == Back ==> ActionsMenu(it)[index].title == "< Back"
    ensures a.JumpTo? ==> ActionsMenu(it)[index].title == "> Jump"
    ensures a == Delete ==> ActionsMenu(it)[index].title == "- Delete"
  {
    if index == 0 then Back
    else if index == 1 then JumpTo(ActionsJump(directory, it))
    else if index == 2 then Delete
    else Dismiss
  }

  /** Both jumps open the same file at the same line, but the actions jump selects one row lower. */
  lemma ActionsJumpOneRowLower(directory: string, it: Item)
    ensures ActionsJump(directory, it).path == ListAndSelectJump(directory, it).path
    ensures ActionsJump(directory, it).line == ListAndSelectJump(directory, it).line
    ensures ActionsJump(directory, it).row == ListAndSelectJump(directory, it).row + 1
  {
  }

  /**
   * A record added from a file under the project, jumped to through
   * `list_and_select`, opens that file and selects the row the cursor was on.
   */
  lemma AddThenListAndSelectJump(directory: string, fileName: string, text: string, cursorRow: nat)
    requires InProject(directory, fileName)
    ensures var j := ListAndSelectJump(directory, NewItem(text, RelativeName(directory, fileName), cursorRow));
            j.path == fileName && j.row == cursorRow && j.line == cursorRow + 1
  {
    JoinRelativeNameInProject(directory, fileName);
  }
}
