/** Properties of the task handlers that relate several requests, or a
    request and the partial-update rule. */
module TaskProperties {
  import opened Js
  import opened TaskStore
  import opened TaskController

  /** Composes two update bodies: the second one's supplied fields win. */
  function Then(first: TaskFields, second: TaskFields): TaskFields {
    TaskFields(
      Or(second.title, first.title),
      IfDefined(second.description, first.description),
      Or(second.status, first.status),
      IfDefined(second.dueDate, first.dueDate),
      Or(second.priority, first.priority))
  }

  /** A body that supplies nothing leaves a task as it was. */
  lemma MergeNothing(t: Task)
    ensures Merge(t, NoFields) == t
  {
  }

  /** Sending the same update twice has the effect of sending it once. */
  lemma MergeIdempotent(t: Task, fields: TaskFields)
    ensures Merge(Merge(t, fields), fields) == Merge(t, fields)
  {
  }

  /** Two updates in a row act as the single update that combines them. */
  lemma MergeSequence(t: Task, first: TaskFields, second: TaskFields)
    ensures Merge(Merge(t, first), second) == Merge(t, Then(first, second))
  {
  }

  /** An update whose body supplies only a (truthy) status changes the
      status of that task and nothing else in the table. */
  lemma UpdateStatusOnly(tb: Table, id: nat, s: JsValue)
    requires ValidTable(tb) && id in tb.rows && Truthy(s)
    ensures var o := Update(tb, id, NoFields.(status := s), true);
      && o.response.status == 200
      && o.table == Table(tb.rows[id := tb.rows[id].(status := s)], tb.nextId)
  {
  }

  /** A successful create is read back unchanged by id. */
  lemma CreateThenGet(tb: Table, fields: TaskFields, now: nat)
    requires ValidTable(tb) && Truthy(fields.title)
    ensures var o := Create(tb, fields, now, true);
      GetById(o.table, tb.nextId, true) == Response(200, o.response.body)
  {
  }

  /** Deleting the task just created gives back the rows there were before;
      only the id counter has moved on. */
  lemma CreateThenDelete(tb: Table, fields: TaskFields, now: nat)
    requires ValidTable(tb) && Truthy(fields.title)
    ensures var created := Create(tb, fields, now, true);
      var deleted := Delete(created.table, tb.nextId, true);
      && deleted.response.status == 204
      && deleted.table.rows == tb.rows
      && deleted.table.nextId == tb.nextId + 1
  {
  }

  /** After a delete, reading the id gives 404, a second delete gives 404
      and changes nothing. */
  lemma DeleteThenGone(tb: Table, id: nat)
    requires ValidTable(tb) && id in tb.rows
    ensures var first := Delete(tb, id, true);
      && first.response == Response(204, NoContent)
      && GetById(first.table, id, true).status == 404
      && Delete(first.table, id, true) == Outcome(first.table, Response(404, ErrorBody(NotFound)))
  {
  }

  /** Ids are never handed out twice: a task created after a delete never
      gets the deleted id. */
  lemma IdsNotReused(tb: Table, id: nat, fields: TaskFields, now: nat)
    requires ValidTable(tb) && id in tb.rows && Truthy(fields.title)
    ensures var after := Delete(tb, id, true).table;
      var created := Create(after, fields, now, true);
      created.response.body.task.id != id
  {
  }

  /** Two tasks created one after the other, with the clock moving forward,
      are listed newest first. */
  lemma ListedNewestFirst(a: TaskFields, b: TaskFields, t1: nat, t2: nat)
    requires Truthy(a.title) && Truthy(b.title) && t1 < t2
    ensures var first := Create(Table(map[], 0), a, t1, true);
      var second := Create(first.table, b, t2, true);
      GetAll(second.table, true) ==
        Response(200, TaskList([second.response.body.task, first.response.body.task]))
  {
    var first := Create(Table(map[], 0), a, t1, true);
    var second := Create(first.table, b, t2, true);
    var ta, tb := first.response.body.task, second.response.body.task;
    var rows := second.table.rows;
    assert rows == map[0 := ta, 1 := tb] && second.table.nextId == 2;
    assert RowsBelow(rows, 1) == [ta] by {
      assert RowsBelow(rows, 0) == [];
    }
    assert RowsBelow(rows, 2) == [ta, tb];
    assert [ta, tb][1..] == [tb];
    assert SortNewestFirst([tb]) == [tb] by {
      assert [tb][1..] == [];
    }
    assert InsertNewestFirst(ta, [tb]) == [tb, ta] by {
      assert [tb][1..] == [];
    }
    assert FindAll(second.table) == [tb, ta];
  }
}
