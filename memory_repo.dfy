/**
 * The in-memory todo repository (internal/repo/memory/todo.go): a counter that
 * hands out IDs and an insertion-ordered sequence of records.
 */
module MemoryRepo {
  import opened Wrappers
  import opened Entity
  import opened Errors

  /** The record `Create` builds: the next ID, not completed, both stamps set to now. */
  function NewTodo(id: int, title: string, description: string, now: Time): (t: Todo)
    ensures t.id == id && t.title == title && t.description == description
    ensures !t.isCompleted
    ensures t.createdAt == now && t.updatedAt == now
  {
    Todo(id, title, description, false, now, now)
  }

  /**
   * The record `Update` leaves behind: every present patch field replaces its field,
   * every absent one keeps it, and the update time is always re-stamped.
   */
  function Patch(t: Todo, input: UpdateTodoInput, now: Time): (r: Todo)
    ensures r.id == t.id && r.createdAt == t.createdAt && r.updatedAt == now
    ensures input.title.Some? ==> r.title == input.title.value
    ensures input.title.None? ==> r.title == t.title
    ensures input.description.Some? ==> r.description == input.description.value
    ensures input.description.None? ==> r.description == t.description
    ensures input.isCompleted.Some? ==> r.isCompleted == input.isCompleted.value
    ensures input.isCompleted.None? ==> r.isCompleted == t.isCompleted
  {
    Todo(
      t.id,
      match input.title case Some(v) => v case None => t.title,
      match input.description case Some(v) => v case None => t.description,
      match input.isCompleted case Some(v) => v case None => t.isCompleted,
      t.createdAt,
      now)
  }

  /**
   * The position `slices.IndexFunc` reports for the first record with the given ID,
   * or -1 when no record has it.
   */
  function FirstIndex(s: seq<Todo>, id: int): (r: int)
    ensures -1 <= r < |s|
    ensures r == -1 <==> forall k :: 0 <= k < |s| ==> s[k].id != id
    ensures 0 <= r ==> s[r].id == id && forall k :: 0 <= k < r ==> s[k].id != id
  {
    if |s| == 0 then -1
    else if s[0].id == id then 0
    else
      var k := FirstIndex(s[1..], id);
      if k == -1 then -1 else k + 1
  }

  /** The repository's invariant: IDs increase along the store and all lie in [1, counter). */
  predicate StoreInvariant(s: seq<Todo>, counter: int)
    ensures StoreInvariant(s, counter) ==>
      forall i, j :: 0 <= i < |s| && 0 <= j < |s| && s[i].id == s[j].id ==> i == j
    ensures StoreInvariant(s, counter) ==> forall i :: 0 <= i < |s| ==> s[i].id != counter
  {
    && 1 <= counter
    && (forall i, j :: 0 <= i < j < |s| ==> s[i].id < s[j].id)
    && (forall i :: 0 <= i < |s| ==> 1 <= s[i].id < counter)
  }

  /** Patching one record keeps the repository's invariant: IDs are never touched. */
  lemma PatchKeepsInvariant(s: seq<Todo>, counter: int, i: int, input: UpdateTodoInput, now: Time)
    requires 0 <= i < |s|
    requires StoreInvariant(s, counter)
    ensures StoreInvariant(s[i := Patch(s[i], input, now)], counter)
  {
  }

  /** An empty patch changes nothing but the update time, which it still re-stamps. */
  lemma EmptyPatchOnlyRestamps(t: Todo, now: Time)
    ensures Patch(t, EmptyInput, now) == t.(updatedAt := now)
  {
  }

  /** In a valid store IDs are unique: every record is the first (and only) one carrying its ID. */
  lemma LookupFindsOwnPosition(s: seq<Todo>, counter: int, i: int)
    requires StoreInvariant(s, counter)
    requires 0 <= i < |s|
    ensures FirstIndex(s, s[i].id) == i
  {
  }

  /** After a create, looking up the ID it handed out finds the record just appended. */
  lemma LookupAfterCreate(s: seq<Todo>, counter: int, title: string, description: string, now: Time)
    requires StoreInvariant(s, counter)
    ensures FirstIndex(s + [NewTodo(counter, title, description, now)], counter) == |s|
    ensures StoreInvariant(s + [NewTodo(counter, title, description, now)], counter + 1)
  {
    var s' := s + [NewTodo(counter, title, description, now)];
    assert s'[|s|].id == counter;
    assert forall k :: 0 <= k < |s| ==> s'[k] == s[k];
  }

  /** The linear scan of `slices.IndexFunc(r.store, func(todo) bool { return todo.ID == id })`. */
  method IndexById(s: seq<Todo>, id: int) returns (idx: int)
    ensures idx == FirstIndex(s, id)
  {
    idx := 0;
    while idx < |s|
      invariant 0 <= idx <= |s|
      invariant forall k :: 0 <= k < idx ==> s[k].id != id
    {
      if s[idx].id == id {
        return;
      }
      idx := idx + 1;
    }
    idx := -1;
  }

  class TodoRepo {
    var idCounter: int
    var store: seq<Todo>

    /** The object invariant; in particular the next ID to hand out is not yet in use. */
    ghost predicate Valid()
      reads this
      ensures Valid() ==> 1 <= idCounter
      ensures Valid() ==> forall k :: 0 <= k < |store| ==> store[k].id != idCounter
    {
      StoreInvariant(store, idCounter)
    }

    /** NewTodoRepo: the counter starts at 1 and the store is empty. */
    constructor ()
      ensures idCounter == 1 && store == []
      ensures Valid()
    {
      idCounter := 1;
      store := [];
    }

    /** Stores a new record under the next ID; it never fails. */
    method Create(title: string, description: string, now: Time) returns (todo: Todo, err: Option<Error>)
      requires Valid()
      modifies this
      ensures todo.id == old(idCounter)
      ensures todo.title == title && todo.description == description
      ensures !todo.isCompleted && todo.createdAt == now && todo.updatedAt == now
      ensures err == None
      ensures store == old(store) + [todo]
      ensures idCounter == old(idCounter) + 1
      ensures Valid()
    {
      todo := NewTodo(idCounter, title, description, now);
      store := store + [todo];
      idCounter := idCounter + 1;
      err := None;
    }

    /** Every stored record, in insertion order; it never fails. */
    method List() returns (todos: seq<Todo>, err: Option<Error>)
      ensures todos == store && err == None
    {
      todos := store;
      err := None;
    }

    /** The first record with the given ID, or the repository's NotFound when there is none. */
    method Get(id: int) returns (todo: Option<Todo>, err: Option<Error>)
      ensures err == Some(RepoNotFound) <==> forall k :: 0 <= k < |store| ==> store[k].id != id
      ensures err == None <==> todo.Some?
      ensures todo.Some? ==> todo.value == store[FirstIndex(store, id)]
      ensures todo.None? ==> err == Some(RepoNotFound)
    {
      var idx := IndexById(store, id);
      if idx == -1 {
        return None, Some(RepoNotFound);
      }
      return Some(store[idx]), None;
    }

    /**
     * Applies a sparse patch to the first record with the given ID, in place, and
     * re-stamps its update time; returns the repository's NotFound when there is none.
     */
    method Update(id: int, input: UpdateTodoInput, now: Time) returns (err: Option<Error>)
      requires Valid()
      modifies this
      ensures idCounter == old(idCounter)
      ensures var i := FirstIndex(old(store), id);
        if i == -1 then err == Some(RepoNotFound) && store == old(store)
        else err == None && store == old(store)[i := Patch(old(store)[i], input, now)]
      ensures Valid()
    {
      var idx := IndexById(store, id);
      if idx == -1 {
        return Some(RepoNotFound);
      }
      var todo := store[idx];
      if input.title.Some? {
        todo := todo.(title := input.title.value);
      }
      if input.description.Some? {
        todo := todo.(description := input.description.value);
      }
      if input.isCompleted.Some? {
        todo := todo.(isCompleted := input.isCompleted.value);
      }
      todo := todo.(updatedAt := now);
      PatchKeepsInvariant(store, idCounter, idx, input, now);
      store := store[idx := todo];
      err := None;
    }
  }

  /** A fresh repository hands out ID 1 to its first record (the repository's create test). */
  method FirstCreate(title: string, description: string, now: Time) returns (todo: Todo, err: Option<Error>)
    ensures todo == Todo(1, title, description, false, now, now)
    ensures err == None
  {
    var repo := new TodoRepo();
    todo, err := repo.Create(title, description, now);
  }

  /**
   * Create ("A", "B"), patch only the title to "C", then get: the title changed, the
   * description and completion flag did not, and only the update time moved.
   */
  method CreatePatchGet(created: Time, updated: Time) returns (got: Option<Todo>, err: Option<Error>)
    ensures got == Some(Todo(1, "C", "B", false, created, updated))
    ensures err == None
  {
    var repo := new TodoRepo();
    var todo, _ := repo.Create("A", "B", created);
    assert FirstIndex(repo.store, todo.id) == 0;
    var _ := repo.Update(todo.id, UpdateTodoInput(Some("C"), None, None), updated);
    assert FirstIndex(repo.store, todo.id) == 0;
    got, err := repo.Get(todo.id);
  }
}
