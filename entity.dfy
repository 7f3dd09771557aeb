/** The records shared by every layer of the todo application (internal/entity/todo.go). */
module Entity {
  import opened Wrappers

  /** A wall-clock instant. The clock itself is not modelled: callers pass "now" in. */
  type Time = int

  /** One todo item as the repository stores it. */
  datatype Todo = Todo(
    id: int,
    title: string,
    description: string,
    isCompleted: bool,
    createdAt: Time,
    updatedAt: Time)

  /** A sparse patch: None leaves the field as it is, Some(v) overwrites it with v. */
  datatype UpdateTodoInput = UpdateTodoInput(
    title: Option<string>,
    description: Option<string>,
    isCompleted: Option<bool>)

  /** The patch that changes no field. */
  const EmptyInput := UpdateTodoInput(None, None, None)
}
