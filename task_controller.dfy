/** The five request handlers of the task API, each specified by a
    function: the read handlers (`GetAll`, `GetById`) map the table to a
    response; `Create`, `Update` and `Delete` map it to a response and the
    new table. The class `TaskService` holds the shared table and runs the
    handlers in place, each method proved to agree with its function.
    `storeUp == false` stands for the store throwing, which every handler
    turns into a 500. */
module TaskController {
  import opened Js
  import opened TaskStore

  datatype Body =
    | TaskBody(task: Task)
    | TaskList(tasks: seq<Task>)
    | ErrorBody(error: string)
    | NoContent

  datatype Response = Response(status: nat, body: Body)

  /** What a handler leaves behind: the table and the response sent. */
  datatype Outcome = Outcome(table: Table, response: Response)

  const NotFound := "Tâche non trouvée"
  const TitleRequired := "Le titre est obligatoire"
  const ListFailed := "Erreur lors de la récupération des tâches"
  const GetFailed := "Erreur lors de la récupération de la tâche"
  const CreateFailed := "Erreur lors de la création de la tâche"
  const UpdateFailed := "Erreur lors de la mise à jour de la tâche"
  const DeleteFailed := "Erreur lors de la suppression de la tâche"

  /** Every stored task has a truthy (for a string: non-empty) title. */
  predicate TitlesPresent(tb: Table) {
    forall id | id in tb.rows :: Truthy(tb.rows[id].title)
  }

  /** The invariant the handlers keep. */
  predicate ValidTable(tb: Table) {
    Keyed(tb) && TitlesPresent(tb)
  }

  /** The partial update applied by `updateTask`: title, status and priority
      fall back to the stored value when the supplied one is falsy;
      description and due date are replaced by anything but `undefined`, so
      `null` and `""` clear them. */
  function Merge(t: Task, fields: TaskFields): (r: Task)
    ensures r.id == t.id && r.createdAt == t.createdAt
    ensures Truthy(t.title) ==> Truthy(r.title)
    ensures r.title == (if Truthy(fields.title) then fields.title else t.title)
    ensures r.status == (if Truthy(fields.status) then fields.status else t.status)
    ensures r.priority == (if Truthy(fields.priority) then fields.priority else t.priority)
    ensures r.description == (if fields.description == Undefined then t.description else fields.description)
    ensures r.dueDate == (if fields.dueDate == Undefined then t.dueDate else fields.dueDate)
  {
    t.(title := Or(fields.title, t.title),
       description := IfDefined(fields.description, t.description),
       status := Or(fields.status, t.status),
       dueDate := IfDefined(fields.dueDate, t.dueDate),
       priority := Or(fields.priority, t.priority))
  }

  /** `GET /tasks`: every stored task exactly once, newest first. */
  function GetAll(tb: Table, storeUp: bool): (r: Response)
    requires ValidTable(tb)
    ensures !storeUp ==> r == Response(500, ErrorBody(ListFailed))
    ensures storeUp ==> r.status == 200 && r.body.TaskList?
    ensures storeUp ==> NewestFirst(r.body.tasks)
    ensures storeUp ==> multiset(r.body.tasks) == multiset(tb.rows.Values)
  {
    if !storeUp then Response(500, ErrorBody(ListFailed))
    else Response(200, TaskList(FindAll(tb)))
  }

  /** `GET /tasks/:id`: the stored record, or 404 when the id is absent. */
  function GetById(tb: Table, id: nat, storeUp: bool): (r: Response)
    requires ValidTable(tb)
    ensures r.status == 200 <==> storeUp && id in tb.rows
    ensures r.status == 200 ==> r.body == TaskBody(tb.rows[id]) && r.body.task.id == id
    ensures storeUp && id !in tb.rows ==> r == Response(404, ErrorBody(NotFound))
    ensures !storeUp ==> r == Response(500, ErrorBody(GetFailed))
  {
    if !storeUp then Response(500, ErrorBody(GetFailed))
    else if id !in tb.rows then Response(404, ErrorBody(NotFound))
    else Response(200, TaskBody(tb.rows[id]))
  }

  /** `POST /tasks`: a falsy title is refused with 400 before the store is
      touched; otherwise a new row under a fresh id carries the supplied
      fields. */
  function Create(tb: Table, fields: TaskFields, now: nat, storeUp: bool): (o: Outcome)
    requires ValidTable(tb)
    ensures ValidTable(o.table)
    ensures !Truthy(fields.title) ==> o == Outcome(tb, Response(400, ErrorBody(TitleRequired)))
    ensures Truthy(fields.title) && !storeUp ==> o == Outcome(tb, Response(500, ErrorBody(CreateFailed)))
    ensures o.response.status == 201 <==> Truthy(fields.title) && storeUp
    ensures o.response.status == 201 ==>
      var t := Task(tb.nextId, fields.title, fields.description, fields.status,
                    fields.dueDate, fields.priority, now);
      && tb.nextId !in tb.rows
      && o.response.body == TaskBody(t)
      && o.table.rows == tb.rows[tb.nextId := t]
      && o.table.nextId > tb.nextId
  {
    if !Truthy(fields.title) then
      Outcome(tb, Response(400, ErrorBody(TitleRequired)))
    else if !storeUp then
      Outcome(tb, Response(500, ErrorBody(CreateFailed)))
    else
      var t := Task(tb.nextId, fields.title, fields.description, fields.status,
                    fields.dueDate, fields.priority, now);
      Outcome(Table(tb.rows[tb.nextId := t], tb.nextId + 1), Response(201, TaskBody(t)))
  }

  /** `PUT /tasks/:id`: 404 when the id is absent; otherwise the stored row
      is replaced by its merge with the supplied fields and returned. */
  function Update(tb: Table, id: nat, fields: TaskFields, storeUp: bool): (o: Outcome)
    requires ValidTable(tb)
    ensures ValidTable(o.table)
    ensures o.response.status == 200 <==> storeUp && id in tb.rows
    ensures storeUp && id !in tb.rows ==> o == Outcome(tb, Response(404, ErrorBody(NotFound)))
    ensures !storeUp ==> o == Outcome(tb, Response(500, ErrorBody(UpdateFailed)))
    ensures o.response.status == 200 ==>
      && o.table == Table(tb.rows[id := Merge(tb.rows[id], fields)], tb.nextId)
      && o.response.body == TaskBody(o.table.rows[id])
  {
    if !storeUp then
      Outcome(tb, Response(500, ErrorBody(UpdateFailed)))
    else if id !in tb.rows then
      Outcome(tb, Response(404, ErrorBody(NotFound)))
    else
      var t := Merge(tb.rows[id], fields);
      Outcome(Table(tb.rows[id := t], tb.nextId), Response(200, TaskBody(t)))
  }

  /** `DELETE /tasks/:id`: 404 when the id is absent; otherwise the row is
      removed for good and 204 is sent with no body. */
  function Delete(tb: Table, id: nat, storeUp: bool): (o: Outcome)
    requires ValidTable(tb)
    ensures ValidTable(o.table)
    ensures o.response.status == 204 <==> storeUp && id in tb.rows
    ensures o.response.status == 204 ==>
      o == Outcome(Table(tb.rows - {id}, tb.nextId), Response(204, NoContent))
    ensures storeUp && id !in tb.rows ==> o == Outcome(tb, Response(404, ErrorBody(NotFound)))
    ensures !storeUp ==> o == Outcome(tb, Response(500, ErrorBody(DeleteFailed)))
  {
    if !storeUp then
      Outcome(tb, Response(500, ErrorBody(DeleteFailed)))
    else if id !in tb.rows then
      Outcome(tb, Response(404, ErrorBody(NotFound)))
    else
      Outcome(Table(tb.rows - {id}, tb.nextId), Response(204, NoContent))
  }

  /** The shared task table and the handlers that run against it. */
  class TaskService {
    var rows: map<nat, Task>
    var nextId: nat

    function Snapshot(): Table
      reads this
    {
      Table(rows, nextId)
    }

    ghost predicate Valid()
      reads this
    {
      ValidTable(Snapshot())
    }

    constructor ()
      ensures Valid()
      ensures rows == map[] && nextId == 0
    {
      rows := map[];
      nextId := 0;
    }

    method GetAllTasks(storeUp: bool) returns (res: Response)
      requires Valid()
      ensures res == GetAll(Snapshot(), storeUp)
    {
      if !storeUp {
        return Response(500, ErrorBody(ListFailed));
      }
      var tasks := FindAll(Snapshot());
      res := Response(200, TaskList(tasks));
    }

    method GetTaskById(id: nat, storeUp: bool) returns (res: Response)
      requires Valid()
      ensures res == GetById(Snapshot(), id, storeUp)
    {
      if !storeUp {
        return Response(500, ErrorBody(GetFailed));
      }
      if id !in rows {
        return Response(404, ErrorBody(NotFound));
      }
      res := Response(200, TaskBody(rows[id]));
    }

    method CreateTask(fields: TaskFields, now: nat, storeUp: bool) returns (res: Response)
      requires Valid()
      modifies this
      ensures Valid()
      ensures Outcome(Snapshot(), res) == Create(old(Snapshot()), fields, now, storeUp)
    {
      if !Truthy(fields.title) {
        return Response(400, ErrorBody(TitleRequired));
      }
      if !storeUp {
        return Response(500, ErrorBody(CreateFailed));
      }
      var task := Task(nextId, fields.title, fields.description, fields.status,
                       fields.dueDate, fields.priority, now);
      rows := rows[nextId := task];
      nextId := nextId + 1;
      res := Response(201, TaskBody(task));
    }

    method UpdateTask(id: nat, fields: TaskFields, storeUp: bool) returns (res: Response)
      requires Valid()
      modifies this
      ensures Valid()
      ensures Outcome(Snapshot(), res) == Update(old(Snapshot()), id, fields, storeUp)
    {
      if !storeUp {
        return Response(500, ErrorBody(UpdateFailed));
      }
      if id !in rows {
        return Response(404, ErrorBody(NotFound));
      }
      var task := Merge(rows[id], fields);
      rows := rows[id := task];
      res := Response(200, TaskBody(task));
    }

    method DeleteTask(id: nat, storeUp: bool) returns (res: Response)
      requires Valid()
      modifies this
      ensures Valid()
      ensures Outcome(Snapshot(), res) == Delete(old(Snapshot()), id, storeUp)
    {
      if !storeUp {
        return Response(500, ErrorBody(DeleteFailed));
      }
      if id !in rows {
        return Response(404, ErrorBody(NotFound));
      }
      rows := rows - {id};
      res := Response(204, NoContent);
    }
  }
}
