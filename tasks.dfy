/**
 The task record shared by the three components, and the abstract results
 that stand in for the hosted store's replies.
 */
module Tasks {

  datatype Option<+T> = None | Some(value: T)

  type Id = string

  /** The three values a task's status can take; no other is representable. */
  datatype Status = Todo | InProgress | Done

  /** One row of the "tasks" table, as the client receives it. */
  datatype Task = Task(
    id: Id,
    title: string,
    description: Option<string>,  // None is the store's null
    status: Status,
    ownerId: Id,
    createdAt: string,
    updatedAt: string)

  /** The reply to a delete or an update: the store either accepts or reports an error. */
  datatype Outcome = Ok | Err

  /** JavaScript truthiness of a `string | null` value: null and "" are falsy. */
  predicate IsTruthy(d: Option<string>) {
    d.Some? && d.value != ""
  }

  /** The fields an update writes; the identifier is the key, never a written field. */
  datatype UpdatePayload = UpdatePayload(title: string, description: Option<string>, status: Status)

  /** An update request: the payload, keyed by the task's identifier. */
  datatype UpdateRequest = UpdateRequest(id: Id, payload: UpdatePayload)

  /** A delete request, keyed by the task's identifier. */
  datatype DeleteRequest = DeleteRequest(id: Id)

  /**
   The partial write the store performs for an accepted update: the three
   payload fields are replaced and every other column is kept.
   */
  function ApplyUpdate(t: Task, p: UpdatePayload): (u: Task)
    ensures u.id == t.id && u.ownerId == t.ownerId && u.createdAt == t.createdAt
    ensures u.title == p.title && u.description == p.description && u.status == p.status
  {
    t.(title := p.title, description := p.description, status := p.status)
  }
}
