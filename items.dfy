/**
 * The records of the to-do list and the pure specification of the three
 * operations that change the list: appending a record, re-statusing the
 * first record with a given id and editing the first record with a given id.
 * The class in todo_list.dfy is proved against these functions.
 */
module TodoItems {

  datatype Option<+T> = None | Some(value: T)

  /** One to-do record. `topic`, `description` and `status` are absent when
      the command line did not supply them (a status set that way is stored
      as null). */
  datatype TodoItem = TodoItem(
    id: int,
    topic: Option<string>,
    description: Option<string>,
    status: Option<string>,
    createdAt: string)

  /** The status every new record starts with. */
  const Incomplete: Option<string> := Some("incomplete")

  /** Truthiness of an optional string: present and non-empty. */
  predicate Truthy(s: Option<string>) {
    s.Some? && s.value != ""
  }

  /** The index of the first record whose id is `id`, if there is one. */
  function FirstMatch(todos: seq<TodoItem>, id: int): (r: Option<nat>)
    ensures r.Some? ==> r.value < |todos| && todos[r.value].id == id
    ensures r.Some? ==> forall k :: 0 <= k < r.value ==> todos[k].id != id
    ensures r.None? <==> forall k :: 0 <= k < |todos| ==> todos[k].id != id
  {
    if todos == [] then None
    else if todos[0].id == id then Some(0)
    else match FirstMatch(todos[1..], id)
      case None => None
      case Some(i) => Some(i + 1)
  }

  /** The list after appending a fresh record: its id is one more than the
      current length and its status is "incomplete". */
  function Added(todos: seq<TodoItem>, topic: Option<string>, description: Option<string>, createdAt: string): (r: seq<TodoItem>)
    ensures |r| == |todos| + 1 && r[..|todos|] == todos
    ensures r[|todos|].id == |todos| + 1 && r[|todos|].status == Incomplete
    ensures r[|todos|].topic == topic && r[|todos|].description == description
    ensures r[|todos|].createdAt == createdAt
  {
    todos + [TodoItem(|todos| + 1, topic, description, Incomplete, createdAt)]
  }

  /** The list after setting the status of the first record with id `id`. */
  function Marked(todos: seq<TodoItem>, id: int, status: Option<string>): (r: seq<TodoItem>)
    ensures |r| == |todos|
    ensures FirstMatch(todos, id).None? ==> r == todos
    ensures FirstMatch(todos, id).Some? ==>
      var i := FirstMatch(todos, id).value;
      && r[i].status == status
      && r[i].id == todos[i].id
      && r[i].topic == todos[i].topic
      && r[i].description == todos[i].description
      && r[i].createdAt == todos[i].createdAt
      && forall k :: 0 <= k < |todos| && k != i ==> r[k] == todos[k]
  {
    match FirstMatch(todos, id)
    case None => todos
    case Some(i) => todos[i := todos[i].(status := status)]
  }

  /** A record after an edit: each of topic and description is replaced only
      when the new value is truthy. */
  function EditedItem(item: TodoItem, topic: Option<string>, description: Option<string>): TodoItem {
    item.(topic := if Truthy(topic) then topic else item.topic,
          description := if Truthy(description) then description else item.description)
  }

  /** The list after editing the first record with id `id`. */
  function Edited(todos: seq<TodoItem>, id: int, topic: Option<string>, description: Option<string>): (r: seq<TodoItem>)
    ensures |r| == |todos|
    ensures FirstMatch(todos, id).None? ==> r == todos
    ensures FirstMatch(todos, id).Some? ==>
      var i := FirstMatch(todos, id).value;
      && (Truthy(topic) ==> r[i].topic == topic)
      && (!Truthy(topic) ==> r[i].topic == todos[i].topic)
      && (Truthy(description) ==> r[i].description == description)
      && (!Truthy(description) ==> r[i].description == todos[i].description)
      && r[i].id == todos[i].id
      && r[i].status == todos[i].status
      && r[i].createdAt == todos[i].createdAt
      && forall k :: 0 <= k < |todos| && k != i ==> r[k] == todos[k]
  {
    match FirstMatch(todos, id)
    case None => todos
    case Some(i) => todos[i := EditedItem(todos[i], topic, description)]
  }

  /** Every record sits at the position its id names: the record at index k
      has id k + 1. */
  predicate Numbered(todos: seq<TodoItem>) {
    forall k :: 0 <= k < |todos| ==> todos[k].id == k + 1
  }

  /** On a numbered list ids are unique, and the record with id `id` is found
      exactly when 1 <= id <= length, at index id - 1. */
  lemma NumberedLookup(todos: seq<TodoItem>, id: int)
    requires Numbered(todos)
    ensures forall j, k :: 0 <= j < |todos| && 0 <= k < |todos| && todos[j].id == todos[k].id ==> j == k
    ensures FirstMatch(todos, id) == if 1 <= id <= |todos| then Some(id - 1) else None
  {
    if 1 <= id <= |todos| {
      assert todos[id - 1].id == id;
    }
  }

  /** Appending keeps a list numbered. */
  lemma AddedPreservesNumbering(todos: seq<TodoItem>, topic: Option<string>, description: Option<string>, createdAt: string)
    requires Numbered(todos)
    ensures Numbered(Added(todos, topic, description, createdAt))
  {
  }

  /** Re-statusing keeps a list numbered. */
  lemma MarkedPreservesNumbering(todos: seq<TodoItem>, id: int, status: Option<string>)
    requires Numbered(todos)
    ensures Numbered(Marked(todos, id, status))
  {
  }

  /** Editing keeps a list numbered. */
  lemma EditedPreservesNumbering(todos: seq<TodoItem>, id: int, topic: Option<string>, description: Option<string>)
    requires Numbered(todos)
    ensures Numbered(Edited(todos, id, topic, description))
  {
  }

  /** Re-statusing and editing keep every record at its position: the ids and
      creation times, in order, are those of the list before. */
  lemma MarkAndEditKeepOrder(todos: seq<TodoItem>, id: int, status: Option<string>,
                             topic: Option<string>, description: Option<string>)
    ensures var m := Marked(todos, id, status);
      forall k :: 0 <= k < |todos| ==> m[k].id == todos[k].id && m[k].createdAt == todos[k].createdAt
    ensures var e := Edited(todos, id, topic, description);
      forall k :: 0 <= k < |todos| ==> e[k].id == todos[k].id && e[k].createdAt == todos[k].createdAt
  {
  }

  /** The arguments of one add command. */
  datatype AddRequest = AddRequest(topic: Option<string>, description: Option<string>, createdAt: string)

  /** The list after a run of add commands, in order. */
  function AddAll(todos: seq<TodoItem>, requests: seq<AddRequest>): seq<TodoItem>
    decreases |requests|
  {
    if requests == [] then todos
    else AddAll(Added(todos, requests[0].topic, requests[0].description, requests[0].createdAt), requests[1..])
  }

  /** A run of adds appends one record per request, the k-th of which gets
      id |todos| + k + 1, status "incomplete" and the request's fields;
      the records already there are untouched. */
  lemma {:induction false} AddAllAppends(todos: seq<TodoItem>, requests: seq<AddRequest>)
    ensures var r := AddAll(todos, requests);
      && |r| == |todos| + |requests|
      && r[..|todos|] == todos
      && forall k :: 0 <= k < |requests| ==>
           r[|todos| + k] == TodoItem(|todos| + k + 1, requests[k].topic, requests[k].description,
                                      Incomplete, requests[k].createdAt)
    decreases |requests|
  {
    if requests != [] {
      var next := Added(todos, requests[0].topic, requests[0].description, requests[0].createdAt);
      AddAllAppends(next, requests[1..]);
      var r := AddAll(todos, requests);
      assert r == AddAll(next, requests[1..]);
      assert r[..|todos|] == r[..|next|][..|todos|];
      forall k | 0 <= k < |requests|
        ensures r[|todos| + k] == TodoItem(|todos| + k + 1, requests[k].topic, requests[k].description,
                                           Incomplete, requests[k].createdAt)
      {
        if k == 0 {
          assert r[|todos|] == r[..|next|][|todos|] == next[|todos|];
        } else {
          assert requests[1..][k - 1] == requests[k];
          assert r[|next| + (k - 1)] == r[|todos| + k];
        }
      }
    }
  }

  /** Starting from an empty list, the n-th add produces id n, so the list
      built by adds alone is numbered. */
  lemma AddsFromEmptyAreNumbered(requests: seq<AddRequest>)
    ensures |AddAll([], requests)| == |requests|
    ensures Numbered(AddAll([], requests))
  {
    AddAllAppends([], requests);
    var r := AddAll([], requests);
    forall k | 0 <= k < |r| ensures r[k].id == k + 1 {
      var q := requests[k];
      assert r[0 + k] == TodoItem(0 + k + 1, q.topic, q.description, Incomplete, q.createdAt);
    }
  }
}
