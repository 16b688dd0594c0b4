/**
  `TodoService`: operations on a caller-owned list of records, changed in
  place. Create, update, delete and list-all return the list they were
  given; mark-complete returns nothing. Update, delete and mark-complete are
  keyed by id: each acts on the first record with that id and silently does
  nothing when there is none.

  The pure functions on `seq<Todo>` say what each operation does to the
  list's values; the methods do it to the objects and are proved against
  those functions.
 */
module TodoService {
  import opened Wrappers
  import opened TodoModel

  // ---------------------------------------------------------------------------
  // The operations on values

  /** Where `FirstOrDefault(x => x.Id == id)` finds its record, if anywhere. */
  function FirstIndex(rs: seq<Todo>, id: int32): (r: Option<nat>)
    ensures r.Some? ==> r.value < |rs| && rs[r.value].id == id
    ensures r.Some? ==> forall j :: 0 <= j < r.value ==> rs[j].id != id
    ensures r.None? <==> forall j :: 0 <= j < |rs| ==> rs[j].id != id
  {
    if rs == [] then None
    else if rs[0].id == id then Some(0)
    else match FirstIndex(rs[1..], id)
      case None => None
      case Some(k) => Some(k + 1)
  }

  /** `k` is the position of the first record with `id`. */
  predicate IsFirst(rs: seq<Todo>, id: int32, k: nat) {
    k < |rs| && rs[k].id == id && forall j :: 0 <= j < k ==> rs[j].id != id
  }

  predicate Absent(rs: seq<Todo>, id: int32) {
    forall j :: 0 <= j < |rs| ==> rs[j].id != id
  }

  function Update(rs: seq<Todo>, id: int32, newDescription: Option<string>, now: DateTime): seq<Todo> {
    match FirstIndex(rs, id)
    case None => rs
    case Some(k) => rs[k := rs[k].(taskDescription := newDescription, dateTimeCreated := now)]
  }

  function Delete(rs: seq<Todo>, id: int32): seq<Todo> {
    match FirstIndex(rs, id)
    case None => rs
    case Some(k) => rs[..k] + rs[k + 1..]
  }

  function Create(rs: seq<Todo>, id: int32, taskDescription: Option<string>, now: DateTime): seq<Todo> {
    rs + [Todo(id, taskDescription, now, false)]
  }

  function MarkComplete(rs: seq<Todo>, id: int32, isComplete: bool): seq<Todo> {
    match FirstIndex(rs, id)
    case None => rs
    case Some(k) => rs[k := rs[k].(isComplete := isComplete)]
  }

  function Ids(rs: seq<Todo>): (ids: seq<int32>)
    ensures |ids| == |rs| && forall i :: 0 <= i < |rs| ==> ids[i] == rs[i].id
  {
    seq(|rs|, i requires 0 <= i < |rs| => rs[i].id)
  }

  // ---------------------------------------------------------------------------
  // What the operations do

  lemma FirstIndexIsFirst(rs: seq<Todo>, id: int32, k: nat)
    requires IsFirst(rs, id, k)
    ensures FirstIndex(rs, id) == Some(k)
  {
  }

  /**
    Updating a present id changes only the first record with that id: its
    description and time stamp take the new values, its id and completion
    flag stay, and every other record and the length stay.
   */
  lemma UpdatePresent(rs: seq<Todo>, id: int32, d: Option<string>, now: DateTime, k: nat)
    requires IsFirst(rs, id, k)
    ensures var r := Update(rs, id, d, now);
      && |r| == |rs|
      && r[k].taskDescription == d && r[k].dateTimeCreated == now
      && r[k].id == rs[k].id && r[k].isComplete == rs[k].isComplete
      && forall i :: 0 <= i < |rs| && i != k ==> r[i] == rs[i]
  {
    FirstIndexIsFirst(rs, id, k);
  }

  /** Updating an absent id leaves the list as it was. */
  lemma UpdateAbsent(rs: seq<Todo>, id: int32, d: Option<string>, now: DateTime)
    requires Absent(rs, id)
    ensures Update(rs, id, d, now) == rs
  {
  }

  /**
    Deleting a present id removes exactly the first record with that id; the
    others keep their order, later records with the same id included.
   */
  lemma DeletePresent(rs: seq<Todo>, id: int32, k: nat)
    requires IsFirst(rs, id, k)
    ensures var r := Delete(rs, id);
      && |r| == |rs| - 1
      && r == rs[..k] + rs[k + 1..]
      && multiset(r) + multiset{rs[k]} == multiset(rs)
  {
    FirstIndexIsFirst(rs, id, k);
    assert rs == rs[..k] + [rs[k]] + rs[k + 1..];
  }

  /** Deleting an absent id leaves the list as it was. */
  lemma DeleteAbsent(rs: seq<Todo>, id: int32)
    requires Absent(rs, id)
    ensures Delete(rs, id) == rs
  {
  }

  /** Deleting removes one occurrence of the id and keeps all later ones. */
  lemma DeleteKeepsLaterDuplicates(rs: seq<Todo>, id: int32, k: nat, j: nat)
    requires IsFirst(rs, id, k) && k < j < |rs|
    ensures Delete(rs, id)[j - 1] == rs[j]
  {
    DeletePresent(rs, id, k);
  }

  /** Marking a present id sets the flag of its first record and nothing else. */
  lemma MarkCompletePresent(rs: seq<Todo>, id: int32, isComplete: bool, k: nat)
    requires IsFirst(rs, id, k)
    ensures var r := MarkComplete(rs, id, isComplete);
      && |r| == |rs|
      && r[k] == rs[k].(isComplete := isComplete)
      && forall i :: 0 <= i < |rs| && i != k ==> r[i] == rs[i]
  {
    FirstIndexIsFirst(rs, id, k);
  }

  /** Marking an absent id is a no-op, not a failure. */
  lemma MarkCompleteAbsent(rs: seq<Todo>, id: int32, isComplete: bool)
    requires Absent(rs, id)
    ensures MarkComplete(rs, id, isComplete) == rs
  {
  }

  /**
    Creating appends exactly one record at the end with the given
    description, the given time, the flag cleared and the given id; earlier
    records stay.
   */
  lemma CreateAppends(rs: seq<Todo>, id: int32, d: Option<string>, now: DateTime)
    ensures var r := Create(rs, id, d, now);
      && |r| == |rs| + 1 && r[..|rs|] == rs
      && r[|rs|].id == id && r[|rs|].taskDescription == d
      && r[|rs|].dateTimeCreated == now && !r[|rs|].isComplete
  {
  }

  /** Update keeps every record's id, in place. */
  lemma UpdateKeepsIds(rs: seq<Todo>, id: int32, d: Option<string>, now: DateTime)
    ensures Ids(Update(rs, id, d, now)) == Ids(rs)
  {
  }

  /** Marking keeps every record's id, in place. */
  lemma MarkCompleteKeepsIds(rs: seq<Todo>, id: int32, isComplete: bool)
    ensures Ids(MarkComplete(rs, id, isComplete)) == Ids(rs)
  {
  }

  /** Deleting drops the id of the removed record and keeps the others in order. */
  lemma DeleteKeepsIds(rs: seq<Todo>, id: int32, k: nat)
    requires IsFirst(rs, id, k)
    ensures Ids(Delete(rs, id)) == Ids(rs)[..k] + Ids(rs)[k + 1..]
  {
    DeletePresent(rs, id, k);
  }

  /**
    Creation does not look at the ids already in the list: a list loaded
    from a file can hold the id the counter hands out next.
   */
  lemma CreateMayDuplicateId(now: DateTime)
    ensures var rs := [Todo(1, Some("loaded"), now, false)];
      var r := Create(rs, 1, Some("new"), now);
      r[0].id == r[1].id
  {
  }

  // ---------------------------------------------------------------------------
  // The operations on the caller's list

  /** `ListAllTodoItems`: hands back the very list it was given. */
  method ListAllTodoItems(list: TodoList) returns (r: TodoList)
    ensures r == list
  {
    r := list;
  }

  /**
    `UpdateTodoItem`: the first record with `id`, if any, gets the new
    description and `now` as its `DateTimeCreated`; nothing else changes.
   */
  method UpdateTodoItem(list: TodoList, id: int32, newDescription: Option<string>, now: DateTime) returns (r: TodoList)
    modifies list.items
    ensures r == list && list.items == old(list.items)
    ensures match FirstIndex(old(Values(list.items)), id)
      case None => forall o :: o in list.items ==> unchanged(o)
      case Some(k) =>
        && list.items[k].taskDescription == newDescription && list.items[k].dateTimeCreated == now
        && list.items[k].id == old(list.items[k].id) && list.items[k].isComplete == old(list.items[k].isComplete)
        && forall o :: o in list.items && o != list.items[k] ==> unchanged(o)
    ensures Distinct(list.items) ==> Values(list.items) == Update(old(Values(list.items)), id, newDescription, now)
  {
    ghost var before := Values(list.items);
    var found := FirstIndex(Values(list.items), id);
    if found.Some? {
      var k := found.value;
      var item := list.items[k];
      item.taskDescription := newDescription;
      item.dateTimeCreated := now;
      if Distinct(list.items) {
        UpdatePresent(before, id, newDescription, now, k);
        forall i | 0 <= i < |list.items| && i != k
          ensures Values(list.items)[i] == before[i]
        {
          assert list.items[i] != item;
        }
      }
    }
    r := list;
  }

  /** `List<T>.Remove(x)`: drops the first element equal to `x`, if any. */
  function RemoveFirst<T(==)>(s: seq<T>, x: T): seq<T> {
    if s == [] then [] else if s[0] == x then s[1..] else [s[0]] + RemoveFirst(s[1..], x)
  }

  /** Removing a record object that does not occur before index k removes index k. */
  lemma {:induction false} RemoveFirstAt<T>(s: seq<T>, k: nat)
    requires k < |s| && forall j :: 0 <= j < k ==> s[j] != s[k]
    ensures RemoveFirst(s, s[k]) == s[..k] + s[k + 1..]
  {
    if k > 0 {
      RemoveFirstAt(s[1..], k - 1);
      assert s[1..][..k - 1] + s[1..][k..] == s[1..k] + s[k + 1..];
      assert [s[0]] + s[1..k] == s[..k];
    }
  }

  lemma ValuesOfRemoval(items: seq<TodoItem>, k: nat)
    requires k < |items|
    ensures Values(items[..k] + items[k + 1..]) == Values(items)[..k] + Values(items)[k + 1..]
  {
    var s, v := items[..k] + items[k + 1..], Values(items);
    forall i | 0 <= i < |s|
      ensures Values(s)[i] == (v[..k] + v[k + 1..])[i]
    {
      if i < k {
        assert s[i] == items[i];
      } else {
        assert s[i] == items[i + 1];
      }
    }
  }

  /**
    `DeleteTodoItem`: removes the first record with `id`, if any; the record
    objects themselves are untouched.
   */
  method DeleteTodoItem(list: TodoList, id: int32) returns (r: TodoList)
    modifies list
    ensures r == list
    ensures list.items == match FirstIndex(old(Values(list.items)), id)
      case None => old(list.items)
      case Some(k) => old(list.items[..k] + list.items[k + 1..])
    ensures Values(list.items) == Delete(old(Values(list.items)), id)
  {
    var found := FirstIndex(Values(list.items), id);
    if found.Some? {
      var item := list.items[found.value];
      RemoveFirstAt(list.items, found.value);
      ValuesOfRemoval(list.items, found.value);
      list.items := RemoveFirst(list.items, item);
    }
    r := list;
  }

  /**
    `CreateTodoItem`: constructs a record (which draws its id from the
    counter), gives it the description and `now`, and appends it.
   */
  method CreateTodoItem(list: TodoList, taskDescription: Option<string>, now: DateTime, counter: IdCounter)
    returns (r: TodoList)
    modifies list, counter
    ensures r == list
    ensures |list.items| == |old(list.items)| + 1 && list.items[..|old(list.items)|] == old(list.items)
    ensures fresh(list.items[|old(list.items)|])
    ensures Values(list.items) == Create(old(Values(list.items)), old(counter.nextId), taskDescription, now)
    ensures counter.nextId == Increment(old(counter.nextId))
    ensures Distinct(old(list.items)) ==> Distinct(list.items)
  {
    var newListItem := new TodoItem(counter);
    newListItem.taskDescription := taskDescription;
    newListItem.dateTimeCreated := now;
    list.items := list.items + [newListItem];
    r := list;
  }

  /** `MarkTodoComplete`: sets the flag of the first record with `id`, if any. */
  method MarkTodoComplete(list: TodoList, id: int32, isComplete: bool)
    modifies list.items
    ensures list.items == old(list.items)
    ensures match FirstIndex(old(Values(list.items)), id)
      case None => forall o :: o in list.items ==> unchanged(o)
      case Some(k) =>
        && list.items[k].isComplete == isComplete
        && list.items[k].id == old(list.items[k].id)
        && list.items[k].taskDescription == old(list.items[k].taskDescription)
        && list.items[k].dateTimeCreated == old(list.items[k].dateTimeCreated)
        && forall o :: o in list.items && o != list.items[k] ==> unchanged(o)
    ensures Distinct(list.items) ==> Values(list.items) == MarkComplete(old(Values(list.items)), id, isComplete)
  {
    ghost var before := Values(list.items);
    var found := FirstIndex(Values(list.items), id);
    if found.Some? {
      var k := found.value;
      var item := list.items[k];
      item.isComplete := isComplete;
      if Distinct(list.items) {
        MarkCompletePresent(before, id, isComplete, k);
        forall i | 0 <= i < |list.items| && i != k
          ensures Values(list.items)[i] == before[i]
        {
          assert list.items[i] != item;
        }
      }
    }
  }
}
