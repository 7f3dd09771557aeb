/**
 * The todo service (internal/service/todo/todo.go): a thin layer over the repository
 * whose only behaviour is to re-signal the repository's NotFound as the service's own.
 */
module TodoService {
  import opened Wrappers
  import opened Entity
  import opened Errors
  import opened MemoryRepo

  /** The repository reported NotFound: `errors.Is(err, repo.ErrNotFound)` (false for a nil error). */
  predicate IsRepoNotFound(err: Option<Error>)
    ensures IsRepoNotFound(err) ==> err.Some?
    ensures err == Some(RepoNotFound) ==> IsRepoNotFound(err)
    ensures err.Some? && err.value.Wrapped? && Is(err.value.cause, RepoNotFound) ==> IsRepoNotFound(err)
    ensures err == Some(ServiceNotFound) ==> !IsRepoNotFound(err)
  {
    err.Some? && Is(err.value, RepoNotFound)
  }

  /**
   * The boundary rule: a repository NotFound becomes the service's NotFound, every
   * other error is handed on as it is, and nil stays nil.
   */
  function TranslateError(err: Option<Error>): (r: Option<Error>)
    ensures r.None? <==> err.None?
    ensures !IsRepoNotFound(err) ==> r == err
    ensures r == Some(ServiceNotFound) <==> IsRepoNotFound(err) || err == Some(ServiceNotFound)
    ensures !IsRepoNotFound(r)
  {
    match err
    case None => None
    case Some(e) => if Is(e, RepoNotFound) then Some(ServiceNotFound) else Some(e)
  }

  /**
   * The reply of `Service.Create` to the repository's (todo, err) reply: both are handed
   * back as they are; no error, not even the repository's NotFound, is translated.
   */
  function CreateReply(todo: Option<Todo>, err: Option<Error>): (r: (Option<Todo>, Option<Error>))
    ensures r.1 == err
    ensures r.0 == todo
  {
    (todo, err)
  }

  /**
   * The reply of `Service.List` to the repository's (todos, err) reply: both are handed
   * back as they are; no error, not even the repository's NotFound, is translated.
   */
  function ListReply(todos: seq<Todo>, err: Option<Error>): (r: (seq<Todo>, Option<Error>))
    ensures r.1 == err
    ensures r.0 == todos
  {
    (todos, err)
  }

  /**
   * Create and List forward a repository failure unchanged, whereas Get translates the
   * repository's NotFound: the layers differ exactly on that one error.
   */
  lemma ForwardingDiffersFromGetOnlyOnNotFound(todo: Option<Todo>, todos: seq<Todo>, err: Option<Error>)
    ensures CreateReply(todo, err).1 == GetReply(todo, err).1 <==> !IsRepoNotFound(err)
    ensures ListReply(todos, err).1 == GetReply(todo, err).1 <==> !IsRepoNotFound(err)
  {
  }

  /** The reply of `Service.Get` to the repository's (todo, err) reply. */
  function GetReply(todo: Option<Todo>, err: Option<Error>): (r: (Option<Todo>, Option<Error>))
    ensures r.1 == TranslateError(err)
    ensures err.Some? ==> r.0 == None
    ensures err.None? ==> r.0 == todo
  {
    if IsRepoNotFound(err) then (None, Some(ServiceNotFound))
    else if err.Some? then (None, err)
    else (todo, None)
  }

  /** The reply of `Service.Update` to the repository's error. */
  function UpdateReply(err: Option<Error>): (r: Option<Error>)
    ensures r == TranslateError(err)
  {
    if IsRepoNotFound(err) then Some(ServiceNotFound)
    else if err.Some? then err
    else None
  }

  /** The reply of `Service.Delete` to the repository's error. */
  function DeleteReply(err: Option<Error>): (r: Option<Error>)
    ensures r == TranslateError(err)
  {
    if IsRepoNotFound(err) then Some(ServiceNotFound)
    else if err.Some? then err
    else None
  }

  /**
   * For a repository that reports NotFound only through its own sentinel (as the
   * in-memory one does), Get, Update and Delete answer with the service's NotFound
   * exactly when the repository said NotFound, and never expose the repository's.
   */
  lemma NotFoundIffRepoNotFound(todo: Option<Todo>, err: Option<Error>)
    requires err != Some(ServiceNotFound)
    ensures GetReply(todo, err).1 == Some(ServiceNotFound) <==> IsRepoNotFound(err)
    ensures UpdateReply(err) == Some(ServiceNotFound) <==> IsRepoNotFound(err)
    ensures DeleteReply(err) == Some(ServiceNotFound) <==> IsRepoNotFound(err)
    ensures !IsRepoNotFound(GetReply(todo, err).1)
    ensures !IsRepoNotFound(UpdateReply(err)) && !IsRepoNotFound(DeleteReply(err))
  {
  }

  class Service {
    const repo: TodoRepo

    /** NewService: a service over the given repository. */
    constructor (repo: TodoRepo)
      ensures this.repo == repo
    {
      this.repo := repo;
    }

    /** Forwards to the repository's Create and hands back its record and error. */
    method Create(title: string, description: string, now: Time) returns (todo: Option<Todo>, err: Option<Error>)
      requires repo.Valid()
      modifies repo
      ensures todo == Some(NewTodo(old(repo.idCounter), title, description, now))
      ensures err == None
      ensures repo.store == old(repo.store) + [todo.value]
      ensures repo.idCounter == old(repo.idCounter) + 1
      ensures repo.Valid()
    {
      var t, e := repo.Create(title, description, now);
      var reply := CreateReply(Some(t), e);
      todo, err := reply.0, reply.1;
    }

    /** Forwards to the repository's List and hands back its records and error. */
    method List() returns (todos: seq<Todo>, err: Option<Error>)
      ensures todos == repo.store && err == None
    {
      var t, e := repo.List();
      var reply := ListReply(t, e);
      todos, err := reply.0, reply.1;
    }

    /** The first record with the ID, or the service's NotFound when the repository has none. */
    method Get(id: int) returns (todo: Option<Todo>, err: Option<Error>)
      ensures var i := FirstIndex(repo.store, id);
        if i == -1 then todo == None && err == Some(ServiceNotFound)
        else todo == Some(repo.store[i]) && err == None
    {
      var t, e := repo.Get(id);
      var reply := GetReply(t, e);
      todo, err := reply.0, reply.1;
    }

    /** Patches the record with the ID, or answers the service's NotFound and changes nothing. */
    method Update(id: int, input: UpdateTodoInput, now: Time) returns (err: Option<Error>)
      requires repo.Valid()
      modifies repo
      ensures repo.idCounter == old(repo.idCounter)
      ensures var i := FirstIndex(old(repo.store), id);
        if i == -1 then err == Some(ServiceNotFound) && repo.store == old(repo.store)
        else err == None && repo.store == old(repo.store)[i := Patch(old(repo.store)[i], input, now)]
      ensures repo.Valid()
    {
      var e := repo.Update(id, input, now);
      err := UpdateReply(e);
    }
  }

  /**
   * Through the service: create "buy milk" / "2%" (it gets ID 1, not completed, both
   * stamps equal), mark it completed, then get it back; a get of an ID never handed
   * out answers the service's NotFound.
   */
  method BuyMilk(created: Time, updated: Time)
    returns (first: Option<Todo>, got: Option<Todo>, missing: Option<Error>)
    ensures first == Some(Todo(1, "buy milk", "2%", false, created, created))
    ensures got == Some(Todo(1, "buy milk", "2%", true, created, updated))
    ensures missing == Some(ServiceNotFound)
  {
    var repo := new TodoRepo();
    var service := new Service(repo);
    var err;
    first, err := service.Create("buy milk", "2%", created);
    err := service.Update(first.value.id, UpdateTodoInput(None, None, Some(true)), updated);
    assert FirstIndex(repo.store, first.value.id) == 0;
    got, err := service.Get(first.value.id);
    var none;
    none, missing := service.Get(2);
  }
}
