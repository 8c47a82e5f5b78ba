# To-do list CLI: the list and its operations

This project models the in-memory to-do list of a small command-line task
tracker (`Lee_Joshua_todo.py`). A `TodoList` is bound to a backing JSON file.
It holds an ordered list of records, each with an id, a topic, a description,
a status and a creation timestamp. Three operations change the list in place:

- `add_todo` appends a record. Its id is the current length plus one and its
  status is `"incomplete"`.
- `mark_todo` overwrites the status of the first record with a given id.
- `edit_todo` overwrites the topic and/or description of that record, each only
  when the new value is truthy.

Each successful change ends by writing the whole list back to the file.
`list_todos` shows the records in storage order and changes nothing.

Layout:

- `items.dfy` (module `TodoItems`) holds the record datatype and the pure
  specification of the three changes on a `seq<TodoItem>`: `FirstMatch`,
  `Added`, `Marked` and `Edited`. It also holds the lemmas about id numbering,
  about order, and about runs of adds.
- `todo_list.dfy` (module `TodoLists`) holds the class `TodoList`. Its field
  `todos` is the list and is reassigned in place. The methods keep the source's
  linear-search loops with early return, and each is proved against the
  functions above. Every call of `save_todos` is recorded in the field
  `writes` as a snapshot of the whole list, so the contracts say exactly when
  a save happens and what it writes.

`topic`, `description` and `status` are `Option<string>`, because an omitted
command-line flag arrives as `None`. A `mark` without `--status` stores that
`None` as the record's status, which the file then holds as JSON `null`.
"Truthy" means present and non-empty. The creation timestamp is a parameter of `AddTodo` rather than a clock read.

## Model

| member | source | states |
|---|---|---|
| `TodoItems.FirstMatch` | Lee_Joshua_todo.py:65-66 | the search both loops perform: the index returned holds the id and no earlier record does; nothing is returned exactly when no record has the id |
| `TodoItems.Added` | Lee_Joshua_todo.py:58-60 | appending keeps every earlier record, grows the list by one, and the new record has id = old length + 1, status "incomplete" and the given topic, description and timestamp |
| `TodoItems.Marked` | Lee_Joshua_todo.py:64-71 | with a match, only the status (which may be absent) of the first matching record changes (id, topic, description and timestamp stay, all other records stay); without one the list is unchanged; the length never changes |
| `TodoItems.Edited` | Lee_Joshua_todo.py:73-83 | with a match, the first matching record gets the new topic if it is truthy and otherwise keeps its own, and likewise for the description; id, status and timestamp stay, all other records stay; without a match the list is unchanged |
| `TodoItems.NumberedLookup` | Lee_Joshua_todo.py:59 | when every record at index k has id k + 1, ids are unique and id n is found exactly when 1 <= n <= length, at index n - 1 |
| `TodoItems.AddedPreservesNumbering` | Lee_Joshua_todo.py:59-60 | appending preserves "the record at index k has id k + 1" |
| `TodoItems.MarkedPreservesNumbering` | Lee_Joshua_todo.py:64-70 | re-statusing preserves "the record at index k has id k + 1" |
| `TodoItems.EditedPreservesNumbering` | Lee_Joshua_todo.py:73-82 | editing preserves "the record at index k has id k + 1" |
| `TodoItems.MarkAndEditKeepOrder` | Lee_Joshua_todo.py:64-83 | mark and edit keep every position's id and timestamp, so the order of records never changes |
| `TodoItems.AddAllAppends` | Lee_Joshua_todo.py:58-60 | a run of adds appends one record per add; the k-th gets id old length + k + 1, status "incomplete" and its own fields, and the earlier records are untouched |
| `TodoItems.AddsFromEmptyAreNumbered` | Lee_Joshua_todo.py:59 | starting from an empty list, the n-th add produces id n |
| `TodoLists.LoadTodos` | Lee_Joshua_todo.py:40-49 | the list starts as the parsed file contents, or empty when the file is missing or malformed |
| `TodoLists.TodoList.constructor` | Lee_Joshua_todo.py:36-38 | a new list holds what was loaded and has written nothing yet |
| `TodoLists.TodoList.SaveTodos` | Lee_Joshua_todo.py:51-54 | a save writes the whole current list and leaves it unchanged |
| `TodoLists.TodoList.AddTodo` | Lee_Joshua_todo.py:58-61 | the new list is `Added` of the old one, numbering is preserved, and exactly one save of the new list follows |
| `TodoLists.TodoList.MarkTodo` | Lee_Joshua_todo.py:64-71 | reports found exactly when some record has the id; the new list is `Marked` of the old one; one save follows when found and none otherwise; numbering is preserved |
| `TodoLists.TodoList.EditTodo` | Lee_Joshua_todo.py:73-83 | reports found exactly when some record has the id; the new list is `Edited` of the old one; one save follows when found, even if neither field changed, and none otherwise; numbering is preserved |
| `TodoLists.TodoList.ListTodos` | Lee_Joshua_todo.py:85-95 | changes nothing; shows "no todos" exactly when the list is empty, and otherwise the records in storage order |
| `TodoLists.AddTwiceThenMark` | Lee_Joshua_todo.py:58-70 | two adds on an empty list then marking id 2 "complete" reports found and leaves record 1 "incomplete" and record 2 "complete", after three writes |
| `TodoLists.AddAfterMalformedFile` | Lee_Joshua_todo.py:47-61 | after a malformed file reads as empty, the one write an add makes holds only the new record with id 1, so the file's earlier contents are lost |

## Left out

- File reading and JSON decoding (`load_todos`, lines 40-49): the constructor receives what the read produced as a `StoredFile` value. A file that parses but does not hold a list of records with the expected keys is not modelled.
- File writing and JSON encoding (`save_todos`, lines 51-56): a save appends a snapshot of the list to the `writes` log. A failed write (`IOError`, which the source only reports) is not distinguished from a successful one. After a malformed file was read as empty, the next write replaces it with the new list alone (see `AddAfterMalformedFile`).
- The wall clock (line 59): the creation timestamp is a parameter.
- Terminal output (every `print`): replaced by the `found` result of mark and edit and by the `Listing` value of list. The field-by-field print format of `list_todos` is not modelled.
- `TodoLists.TodoList.MarkTodo`, `TodoLists.TodoList.EditTodo`: the id is an `int`. When the `--id` flag is omitted the source passes `None`, which equals no stored id; that behaves like an id no record has.
- `TodoLists.TodoList.MarkTodo`: accepts any status, present or absent, as the source does. Only the command-line parser restricts the values, and it lets an absent status through.
- `main` (lines 97-117), the argument parsing and dispatch, is not modelled. As written it has four defects. The `add` command is compared against `"addd"` at line 110, so it never reaches `add_todo`. The status choices at line 105 contain `"incompletr"`. The `--list-name` option (line 101) is parsed but unused, so only `--filename` selects the backing file (line 108). The `--status` option has no default (line 105), so `mark` without it stores a null status (modelled as `None`).
- Concurrent runs against the same file are not modelled.
