# Todo storage and service, modelled in Dafny

This project models the storage layer and the service layer of a small todo CRUD
application written in Go.

- **The in-memory repository** is the class `MemoryRepo.TodoRepo`. It holds an
  `idCounter` that starts at 1 and an insertion-ordered `store` of `Todo` records.
  - `Create` hands out the counter as the new record's ID, stamps both timestamps with
    the current time, appends the record and increments the counter.
  - `List` returns the store.
  - `Get` and `Update` find the first record with the requested ID by a linear scan
    (`IndexById`, proved equal to the function `FirstIndex`).
  - `Update` applies a sparse patch (`Patch`): a present field overwrites, an absent
    field is kept, and the update time is always re-stamped.
- **The object invariant** `Valid()` says that IDs strictly increase along the store
  and all lie in `[1, idCounter)`. The constructor establishes it, and `Create` and
  `Update` preserve it.
- **The service** (`TodoService`) forwards to the repository.
  - In `Get`, `Update` and `Delete`, an error for which `errors.Is(err, repo.ErrNotFound)`
    holds becomes the service's own NotFound. Every other error passes through
    unchanged, and a nil error stays nil.
  - `Create` and `List` hand the repository's reply back untranslated (`CreateReply`,
    `ListReply`).
  - These rules are modelled for any repository reply, as pure functions. `GetReply`'s
    error, `UpdateReply` and `DeleteReply` are proved equal to `TranslateError`.
  - The class `TodoService.Service` wires the service to the in-memory repository.

Go's `error` is `Option<Error>`, where `None` is nil. A nil-able pointer is also an
`Option`. The clock is a `now: Time` parameter of `Create` and `Update`.

## Model

| member | source | states |
|---|---|---|
| `MemoryRepo.TodoRepo.constructor` | internal/repo/memory/todo.go:18-22 | a new repository has counter 1, an empty store, and satisfies the invariant that the other methods require and keep |
| `MemoryRepo.TodoRepo.Create` | internal/repo/memory/todo.go:24-37 | the record gets the old counter as ID, the given title and description, is not completed, and has both stamps equal to now; the store gains exactly that record at the end; the counter goes up by one; the error is nil; the invariant is preserved |
| `MemoryRepo.TodoRepo.List` | internal/repo/memory/todo.go:39-41 | returns exactly the stored sequence in insertion order, with a nil error |
| `MemoryRepo.TodoRepo.Get` | internal/repo/memory/todo.go:43-53 | returns the repository's NotFound if and only if no stored record has the ID; otherwise returns the record at the first matching index with a nil error; the store is not changed |
| `MemoryRepo.TodoRepo.Update` | internal/repo/memory/todo.go:55-73 | on an absent ID: returns NotFound, and the store and counter are unchanged; on a present ID: only the first matching record is replaced by its patched version, and the length, every other record and the counter are unchanged; the invariant is preserved |
| `MemoryRepo.NewTodo` | internal/repo/memory/todo.go:26-33 | the created record carries the given ID, title and description, is not completed, and has both stamps equal to now |
| `MemoryRepo.StoreInvariant` | internal/repo/memory/todo.go:27-35 | a store satisfying the invariant has unique IDs, and none of them equals the counter, the next ID to hand out |
| `MemoryRepo.TodoRepo.Valid` | internal/repo/memory/todo.go:20-35 | the class invariant over `idCounter` and `store`: the counter is at least 1, and no stored record already carries the ID the next `Create` will hand out |
| `MemoryRepo.IndexById` | internal/repo/memory/todo.go:44-46 | the linear scan returns exactly the position `FirstIndex` specifies |
| `MemoryRepo.FirstIndex` | internal/repo/memory/todo.go:44-50 | -1 exactly when no record has the ID; otherwise an in-range index whose record has the ID, with no earlier record having it |
| `MemoryRepo.Patch` | internal/repo/memory/todo.go:62-71 | each present patch field overwrites its field and each absent one keeps it; the ID and creation time are kept; the update time becomes now |
| `MemoryRepo.EmptyPatchOnlyRestamps` | internal/repo/memory/todo.go:71 | a patch with no fields present still re-stamps the update time and changes nothing else |
| `MemoryRepo.PatchKeepsInvariant` | internal/repo/memory/todo.go:62-71 | patching any one record keeps IDs increasing and within `[1, counter)` |
| `MemoryRepo.LookupFindsOwnPosition` | internal/repo/memory/todo.go:27 | in a store satisfying the invariant, IDs are unique: the lookup of each record's ID finds that record's own position |
| `MemoryRepo.LookupAfterCreate` | internal/repo/memory/todo.go:27-35 | after a create, looking up the new ID finds the appended record, and the invariant holds with the incremented counter |
| `MemoryRepo.FirstCreate` | internal/repo/memory/todo_test.go:37-63 | the first create on a new repository returns ID 1, the given title and description, not completed, both stamps equal to now, and a nil error |
| `MemoryRepo.CreatePatchGet` | internal/repo/memory/todo.go:55-73 | create("A", "B"), then an update patching only the title to "C", then a get, yields title "C", description "B", not completed, the original creation time and the new update time |
| `Errors.Is` | internal/service/todo/todo.go:31 | Go's `errors.Is`: an error matches itself, and an error matches a different target only if it wraps a cause |
| `TodoService.IsRepoNotFound` | internal/service/todo/todo.go:40 | the test the service applies to the repository's error: a nil error never matches; the repository's NotFound matches, and so does any error wrapping it; the service's own NotFound does not |
| `TodoService.TranslateError` | internal/service/todo/todo.go:40-45 | a nil error stays nil and a non-nil one stays non-nil; any error that is not the repository's NotFound passes through unchanged; the result is the service's NotFound exactly when the input was the repository's NotFound (or already the service's); the repository's NotFound never comes out |
| `TodoService.CreateReply` | internal/service/todo/todo.go:21-23 | the repository's todo and error come back unchanged, so a repository failure is forwarded as it is, with no translation, not even of the repository's NotFound |
| `TodoService.ListReply` | internal/service/todo/todo.go:25-27 | the repository's records and error come back unchanged, so a repository failure is forwarded as it is, with no translation, not even of the repository's NotFound |
| `TodoService.ForwardingDiffersFromGetOnlyOnNotFound` | internal/service/todo/todo.go:21-37 | Create and List give back the same error as Get for every repository error except the repository's NotFound, which only Get translates |
| `TodoService.GetReply` | internal/service/todo/todo.go:29-37 | the error is translated as by `TranslateError`; on any error the todo is nil; on success the repository's todo is returned as it is |
| `TodoService.UpdateReply` | internal/service/todo/todo.go:39-46 | the error is translated exactly as by `TranslateError` |
| `TodoService.DeleteReply` | internal/service/todo/todo.go:48-55 | the error is translated exactly as by `TranslateError` |
| `TodoService.NotFoundIffRepoNotFound` | internal/service/todo/todo.go:31-50 | for a repository that does not itself answer with the service's NotFound, Get, Update and Delete answer with the service's NotFound exactly when the repository answered with its own; none of the three exposes the repository's NotFound |
| `TodoService.Service.constructor` | internal/service/todo/todo.go:15-19 | the service holds the given repository |
| `TodoService.Service.Create` | internal/service/todo/todo.go:21-23 | returns the repository's new record, as a non-nil todo, and its nil error, through `CreateReply`; the repository's state changes as its `Create` says, and the invariant is kept |
| `TodoService.Service.List` | internal/service/todo/todo.go:25-27 | returns the repository's sequence and nil error unchanged, through `ListReply` |
| `TodoService.Service.Get` | internal/service/todo/todo.go:29-37 | returns the service's NotFound with a nil todo when the repository has no record with the ID; otherwise returns the first matching record with a nil error |
| `TodoService.Service.Update` | internal/service/todo/todo.go:39-46 | on an absent ID: returns the service's NotFound and changes nothing; on a present ID: the repository's patch is applied and the error is nil; the counter and the invariant are kept |
| `TodoService.BuyMilk` | internal/service/todo/todo.go:21-46 | create "buy milk"/"2%" through the service: the record has ID 1, is not completed, and has equal stamps; after patching only the completion flag, a get shows it completed with the title unchanged; a get of an unused ID answers the service's NotFound |

## Left out

- The HTTP handlers, router and ping endpoint are left out. They are request binding, JSON encoding and status codes inside a web framework that is not part of this model.
- Process wiring and server start-up are left out because they are I/O.
- The wall clock is not modelled. `timeNow` is replaced by a `now` parameter. The code never compares timestamps, so the model makes no claim that `UpdatedAt >= CreatedAt`.
- Aliasing is not modelled. `List` returns the live slice and `Get` returns a pointer into the store. The model returns value copies and says nothing about mutation through the returned values.
- Repository delete is not modelled. The in-memory repository has no `Delete` method, and the repository interface declares only `Create`. For that reason, `Service.Delete` is modelled only as `DeleteReply`, its translation of an arbitrary repository outcome. No removal behaviour is modelled, because the code has none.
- Arbitrary repositories are not modelled as objects. The service's Go field is an interface, which tests fill with mocks. The model's `Service` class wraps the in-memory repository. Other repositories' replies, failures included, are covered by the pure reply functions `CreateReply`, `ListReply`, `GetReply`, `UpdateReply` and `DeleteReply`.
- Pointer identity is not modelled. The repository's `Create` returns a value and the service's `Create` returns a pointer. The model's service returns `Some` of that value.
- `MemoryRepo.TodoRepo.Create` uses an unbounded counter. Go's `int` is 32 or 64 bits wide, depending on the platform. `idCounter++` would wrap after 2^31 − 1 or 2^63 − 1 creates. The store's memory runs out long before either.
- `errors.Is` is modelled only as walking a single chain of wrapped causes. Custom `Is` methods and multi-error unwrapping are not modelled. Errors compare structurally, whereas Go compares `errors.New` values by identity.
- Concurrency is not modelled. The store is unsynchronised, and calls are assumed to be sequential.
