/**
 * The `simple_todo` text command: its `add`, `list`, `list_and_select` and
 * `actions` flows over the settings of the window's first folder.
 */
module Command {
  import opened Wrappers
  import opened Todo
  import opened TodoStore
  import PyList

  /** The flows `run` starts, chosen by its `mode` argument. */
  datatype Flow = AddFlow | ListFlow | ListAndSelectFlow

  /** `run(edit, mode)`: an unknown mode starts nothing. */
  function RunFlow(mode: string): (f: Option<Flow>)
    ensures f == Some(AddFlow) <==> mode == "add"
    ensures f == Some(ListFlow) <==> mode == "list"
    ensures f == Some(ListAndSelectFlow) <==> mode == "list_and_select"
    ensures f.None? <==> mode !in {"add", "list", "list_and_select"}
  {
    if mode == "add" then Some(AddFlow)
    else if mode == "list" then Some(ListFlow)
    else if mode == "list_and_select" then Some(ListAndSelectFlow)
    else None
  }

  /** The list `add` writes back: the new record inserted at the front. */
  function Added(todo: seq<Item>, text: string, relName: string, cursorRow: nat): seq<Item> {
    PyList.Insert(todo, 0, NewItem(text, relName, cursorRow))
  }

  /**
   * Adding puts exactly one record in front, with a line number of at least
   * 1, and keeps every earlier record after it in its old order.
   */
  lemma AddedPrepends(todo: seq<Item>, text: string, relName: string, cursorRow: nat)
    ensures var r := Added(todo, text, relName, cursorRow);
            |r| == |todo| + 1
            && r[0] == Item(text, relName, cursorRow + 1)
            && r[0].lineNumber >= 1
            && r[1..] == todo
  {
    PyList.InsertAtFront(todo, NewItem(text, relName, cursorRow));
  }

  class TodoCommand {
    /** `self.window.folders()[0]`, the project the records belong to. */
    const directory: string
    const settings: Settings

    constructor (directory: string, settings: Settings)
      ensures this.directory == directory && this.settings == settings
    {
      this.directory := directory;
      this.settings := settings;
    }

    /** `load_todo`: the project's records, or none when it has no entry. */
    method LoadTodo() returns (todo: seq<Item>)
      ensures todo == Stored(settings.entries, directory)
    {
      var found := settings.Get(directory);
      match found {
        case None => todo := [];
        case Some(t) => todo := t;
      }
    }

    /** `save_todo`: the project's entry becomes `todo` and the settings are written out. */
    method SaveTodo(todo: seq<Item>)
      modifies settings
      ensures settings.entries == old(settings.entries)[directory := todo]
      ensures settings.persisted == settings.entries
    {
      settings.Set(directory, todo);
      settings.Save();
    }

    /** `list`: the panel shown for the project's current records. */
    method List() returns (menu: seq<Entry>)
      ensures menu == ListMenu(Stored(settings.entries, directory))
    {
      var todo := LoadTodo();
      menu := ListMenu(todo);
    }

    /** `list_and_select`: the panel of the project's current records. */
    method ListAndSelect() returns (menu: seq<Entry>)
      ensures menu == ListAndSelectMenu(Stored(settings.entries, directory))
    {
      var todo := LoadTodo();
      menu := ListAndSelectMenu(todo);
    }

    /**
     * `add`'s callback, for the text the user confirmed, the view's file name
     * (`None` for an unsaved buffer, which makes `.replace` fail) and the row
     * of the cursor. On success it shows the `list` panel again.
     */
    method AddDone(text: string, viewFile: Option<string>, cursorRow: nat) returns (r: Result<seq<Entry>>)
      modifies settings
      ensures viewFile.None? ==> r == Err(AttributeError) && unchanged(settings)
      ensures viewFile.Some? ==>
                var todo := Added(old(Stored(settings.entries, directory)), text,
                                  RelativeName(directory, viewFile.value), cursorRow);
                && settings.entries == old(settings.entries)[directory := todo]
                && settings.persisted == settings.entries
                && r == Ok(ListMenu(todo))
    {
      var todo := LoadTodo();
      if viewFile.None? {
        return Err(AttributeError);
      }
      var fileName := RelativeName(directory, viewFile.value);
      todo := PyList.Insert(todo, 0, NewItem(text, fileName, cursorRow));
      SaveTodo(todo);
      var menu := List();
      r := Ok(menu);
    }

    /**
     * The Delete choice of the actions panel: the first record equal to `item`
     * is removed and the `list` panel shown again; when there is none,
     * `list.remove` raises `ValueError` and nothing is saved.
     */
    method DeleteDone(item: Item) returns (r: Result<seq<Entry>>)
      modifies settings
      ensures item !in old(Stored(settings.entries, directory)) ==>
                r == Err(ValueError) && unchanged(settings)
      ensures item in old(Stored(settings.entries, directory)) ==>
                var todo := PyList.RemoveFirst(old(Stored(settings.entries, directory)), item);
                && settings.entries == old(settings.entries)[directory := todo]
                && settings.persisted == settings.entries
                && r == Ok(ListMenu(todo))
    {
      var todo := LoadTodo();
      var removed := PyList.Remove(todo, item);
      match removed {
        case Err(e) =>
          r := Err(e);
        case Ok(rest) =>
          SaveTodo(rest);
          var menu := List();
          r := Ok(menu);
      }
    }
  }

  /** The `list` panel for the single record "fix bug" at `a.py:5`. */
  lemma ScenarioMenu()
    ensures ListMenu([Item("fix bug", "a.py", 5)]) == [NewEntry, Entry("fix bug", "a.py:5")]
  {
    var menu := ListMenu([Item("fix bug", "a.py", 5)]);
    assert PyStr.IntToString(5) == "5";
    assert menu[1] == Entry("fix bug", "a.py:5");
    assert |menu| == 2;
  }

  /** The record stored when "fix bug" is added with the cursor on row 4 of `/proj/a.py`. */
  lemma ScenarioAdded(directory: string, fileName: string)
    requires directory == "/proj" && fileName == "/proj/a.py"
    ensures Added([], "fix bug", RelativeName(directory, fileName), 4) == [Item("fix bug", "a.py", 5)]
  {
    RelativeNameInProject(directory, fileName);
    assert fileName[|directory| + 1..] == "a.py";
    PyList.InsertAtFront([], NewItem("fix bug", "a.py", 4));
  }

  /**
   * Adding "fix bug" on the fifth line of `/proj/a.py` lists exactly that
   * record as `a.py:5`; deleting it leaves only the "+ New" row.
   */
  method AddListDeleteScenario() {
    var directory, fileName := "/proj", "/proj/a.py";
    var settings := new Settings(map[]);
    var command := new TodoCommand(directory, settings);
    var added := command.AddDone("fix bug", Some(fileName), 4);
    var todo := [Item("fix bug", "a.py", 5)];
    ScenarioAdded(directory, fileName);
    ScenarioMenu();
    assert added == Ok([NewEntry, Entry("fix bug", "a.py:5")]);
    assert Stored(settings.entries, directory) == todo;
    var deleted := command.DeleteDone(Item("fix bug", "a.py", 5));
    assert PyList.RemoveFirst(todo, Item("fix bug", "a.py", 5)) == [];
    assert |ListMenu([])| == 1;
    assert ListMenu([]) == [NewEntry];
    assert deleted == Ok([NewEntry]);
  }
}
