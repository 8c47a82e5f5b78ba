/**
 * The to-do list object: an ordered list of records bound to a backing
 * file, changed in place by add, mark and edit, each of which ends by
 * writing the whole list back. The file itself is not modelled: what was
 * read from it is a `StoredFile` value, and every write is recorded, as a
 * snapshot of the whole list, in the log `writes`.
 */
module TodoLists {
  import opened TodoItems

  /** What reading the backing file produced. */
  datatype StoredFile = Missing | Malformed | Parsed(items: seq<TodoItem>)

  /** The list a `TodoList` starts from: a missing or malformed file reads
      as the empty list, so the next save replaces a malformed file with only
      the records added or changed since. */
  function LoadTodos(file: StoredFile): (r: seq<TodoItem>)
    ensures file.Parsed? ==> r == file.items
    ensures !file.Parsed? ==> r == []
  {
    match file
    case Parsed(items) => items
    case _ => []
  }

  /** What listing shows: a "no todos" notice, or the records in order. */
  datatype Listing = NoTodosFound | Entries(items: seq<TodoItem>)

  class TodoList {
    const filename: string
    /** The records, in storage order. */
    var todos: seq<TodoItem>
    /** Every list written to the backing file so far, oldest first. */
    var writes: seq<seq<TodoItem>>

    constructor (filename: string, file: StoredFile)
      ensures this.filename == filename
      ensures todos == LoadTodos(file)
      ensures writes == []
    {
      this.filename := filename;
      todos := LoadTodos(file);
      writes := [];
    }

    /** Writes the whole current list to the backing file. */
    method SaveTodos()
      modifies this
      ensures todos == old(todos)
      ensures writes == old(writes) + [todos]
    {
      writes := writes + [todos];
    }

    /** Appends a record with id length + 1 and status "incomplete", then
        saves. */
    method AddTodo(topic: Option<string>, description: Option<string>, createdAt: string)
      modifies this
      ensures todos == Added(old(todos), topic, description, createdAt)
      ensures Numbered(old(todos)) ==> Numbered(todos)
      ensures writes == old(writes) + [todos]
    {
      var item := TodoItem(|todos| + 1, topic, description, Incomplete, createdAt);
      todos := todos + [item];
      if Numbered(old(todos)) {
        AddedPreservesNumbering(old(todos), topic, description, createdAt);
      }
      SaveTodos();
    }

    /** Sets the status of the first record with id `id` and saves; reports
        `found == false`, and changes and saves nothing, when there is none. */
    method MarkTodo(id: int, status: Option<string>) returns (found: bool)
      modifies this
      ensures found <==> exists k :: 0 <= k < |old(todos)| && old(todos)[k].id == id
      ensures todos == Marked(old(todos), id, status)
      ensures |todos| == |old(todos)|
      ensures !found ==> todos == old(todos)
      ensures Numbered(old(todos)) ==> Numbered(todos)
      ensures writes == if found then old(writes) + [todos] else old(writes)
    {
      var i := 0;
      while i < |todos|
        invariant 0 <= i <= |todos|
        invariant todos == old(todos) && writes == old(writes)
        invariant forall k :: 0 <= k < i ==> todos[k].id != id
      {
        if todos[i].id == id {
          assert FirstMatch(todos, id) == Some(i);
          todos := todos[i := todos[i].(status := status)];
          if Numbered(old(todos)) {
            MarkedPreservesNumbering(old(todos), id, status);
          }
          SaveTodos();
          return true;
        }
        i := i + 1;
      }
      return false;
    }

    /** Replaces the topic and the description of the first record with id
        `id`, each only when the new value is truthy, and saves even when
        neither changed; reports `found == false`, and changes and saves
        nothing, when there is no such record. */
    method EditTodo(id: int, topic: Option<string>, description: Option<string>) returns (found: bool)
      modifies this
      ensures found <==> exists k :: 0 <= k < |old(todos)| && old(todos)[k].id == id
      ensures todos == Edited(old(todos), id, topic, description)
      ensures |todos| == |old(todos)|
      ensures !found ==> todos == old(todos)
      ensures Numbered(old(todos)) ==> Numbered(todos)
      ensures writes == if found then old(writes) + [todos] else old(writes)
    {
      var i := 0;
      while i < |todos|
        invariant 0 <= i <= |todos|
        invariant todos == old(todos) && writes == old(writes)
        invariant forall k :: 0 <= k < i ==> todos[k].id != id
      {
        if todos[i].id == id {
          assert FirstMatch(todos, id) == Some(i);
          var item := todos[i];
          if Truthy(topic) {
            item := item.(topic := topic);
          }
          if Truthy(description) {
            item := item.(description := description);
          }
          todos := todos[i := item];
          if Numbered(old(todos)) {
            EditedPreservesNumbering(old(todos), id, topic, description);
          }
          SaveTodos();
          return true;
        }
        i := i + 1;
      }
      return false;
    }

    /** Shows the records in storage order, or the "no todos" notice exactly
        when the list is empty; changes nothing. */
    method ListTodos() returns (shown: Listing)
      ensures shown.NoTodosFound? <==> todos == []
      ensures shown.Entries? ==> shown.items == todos
    {
      if todos == [] {
        return NoTodosFound;
      }
      var out: seq<TodoItem> := [];
      var i := 0;
      while i < |todos|
        invariant 0 <= i <= |todos|
        invariant out == todos[..i]
      {
        out := out + [todos[i]];
        i := i + 1;
      }
      return Entries(out);
    }
  }

  /** Two adds on an empty list, then marking id 2 complete: the mark finds
      the record, the first record is still incomplete, the second is
      complete, and three writes were made. */
  method AddTwiceThenMark(firstAt: string, secondAt: string) returns (found: bool, shown: Listing, writeCount: nat)
    ensures found
    ensures shown.Entries? && |shown.items| == 2
    ensures shown.items[0].id == 1 && shown.items[0].status == Incomplete
    ensures shown.items[1].id == 2 && shown.items[1].status == Some("complete")
    ensures writeCount == 3
  {
    var list := new TodoList("todos.json", Missing);
    list.AddTodo(Some("CS101"), Some("HW1"), firstAt);
    list.AddTodo(Some("CS101"), Some("HW2"), secondAt);
    NumberedLookup(list.todos, 2);
    found := list.MarkTodo(2, Some("complete"));
    shown := list.ListTodos();
    writeCount := |list.writes|;
  }

  /** An add on a list read from a malformed file: the one write holds only
      the new record, so whatever the file held before is lost. */
  method AddAfterMalformedFile(topic: Option<string>, description: Option<string>, createdAt: string)
    returns (written: seq<seq<TodoItem>>)
    ensures written == [[TodoItem(1, topic, description, Incomplete, createdAt)]]
  {
    var list := new TodoList("todos.json", Malformed);
    list.AddTodo(topic, description, createdAt);
    written := list.writes;
  }
}
