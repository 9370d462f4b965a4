/** Whole request sequences, and what the two browser forms do to the table
    once their body reaches the handlers. */
module Scenarios {
  import opened Js
  import opened TaskStore
  import opened TaskController
  import FrontEnd

  /** Create, read, update, delete, read again: 201, 200 with the created
      record, 200 with only the status changed, 204, then 404. */
  lemma Lifecycle(tb: Table, now: nat)
    requires ValidTable(tb)
    ensures
      var created := Create(tb, NoFields.(title := Str("Buy milk"), priority := Str("low")), now, true);
      var id := tb.nextId;
      var read := GetById(created.table, id, true);
      var updated := Update(created.table, id, NoFields.(status := Str("in_progress")), true);
      var deleted := Delete(updated.table, id, true);
      && created.response.status == 201
      && created.response.body.task.id == id
      && read == Response(200, created.response.body)
      && updated.response.status == 200
      && updated.response.body.task == created.response.body.task.(status := Str("in_progress"))
      && updated.response.body.task.title == Str("Buy milk")
      && deleted.response == Response(204, NoContent)
      && GetById(deleted.table, id, true) == Response(404, ErrorBody(NotFound))
      && deleted.table.rows == tb.rows
  {
  }

  /** Submitting the add form with an empty title is refused with 400 and
      stores nothing, whether or not the store is reachable. */
  lemma AddFormNeedsTitle(tb: Table, form: FrontEnd.FormFields, now: nat, storeUp: bool)
    requires ValidTable(tb) && form.title == Str("")
    ensures Create(tb, FrontEnd.TaskData(form), now, storeUp) ==
      Outcome(tb, Response(400, ErrorBody(TitleRequired)))
  {
  }

  /** Submitting the edit form: an emptied title keeps the stored one, the
      description is always replaced (an emptied one by ""), and an emptied
      due date clears the stored one to null. */
  lemma EditFormUpdate(tb: Table, id: nat, form: FrontEnd.FormFields)
    requires ValidTable(tb) && id in tb.rows
    requires form.description != Undefined
    ensures var o := Update(tb, id, FrontEnd.TaskData(form), true);
      && o.response.status == 200
      && o.table.rows[id].title == (if Truthy(form.title) then form.title else tb.rows[id].title)
      && o.table.rows[id].description == form.description
      && o.table.rows[id].dueDate == (if Truthy(form.dueDate) then form.dueDate else Null)
  {
  }
}
