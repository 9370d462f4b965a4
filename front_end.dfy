/** The browser script's logic once `fetch`, the DOM and the locale
    formatter are taken away: the French labels for statuses and
    priorities, the status filter and placeholder of the task list, the
    missing-date label, and the body the two forms send. */
module FrontEnd {
  import opened Js

  const StatusLabels: map<string, string> :=
    map["todo" := "À faire", "in_progress" := "En cours", "done" := "Terminé"]
  const PriorityLabels: map<string, string> :=
    map["low" := "Basse", "medium" := "Moyenne", "high" := "Haute"]

  const NoTasksFound := "Aucune tâche trouvée"
  const NoDescription := "Aucune description"
  const NoDate := "Non définie"
  const AllStatuses := "all"

  /** A task as the browser receives it in JSON. */
  datatype TaskJson = TaskJson(
    id: JsValue,
    title: JsValue,
    description: JsValue,
    status: JsValue,
    priority: JsValue,
    dueDate: JsValue,
    createdAt: JsValue)

  /** `labels[v]`: the label of a known string key, `undefined` otherwise. */
  function Lookup(labels: map<string, string>, v: JsValue): JsValue {
    if v.Str? && v.s in labels then Str(labels[v.s]) else Undefined
  }

  /** `translateStatus`: the French label of a known status, any other
      value unchanged. */
  function TranslateStatus(status: JsValue): (r: JsValue)
    ensures status == Str("todo") ==> r == Str("À faire")
    ensures status == Str("in_progress") ==> r == Str("En cours")
    ensures status == Str("done") ==> r == Str("Terminé")
    ensures status !in {Str("todo"), Str("in_progress"), Str("done")} ==> r == status
  {
    Or(Lookup(StatusLabels, status), status)
  }

  /** `translatePriority`: the French label of a known priority, any other
      value unchanged. */
  function TranslatePriority(priority: JsValue): (r: JsValue)
    ensures priority == Str("low") ==> r == Str("Basse")
    ensures priority == Str("medium") ==> r == Str("Moyenne")
    ensures priority == Str("high") ==> r == Str("Haute")
    ensures priority !in {Str("low"), Str("medium"), Str("high")} ==> r == priority
  {
    Or(Lookup(PriorityLabels, priority), priority)
  }

  /** What `formatDate` shows: the missing-date label, or a date rendered
      by the browser's French locale formatter (not modelled). */
  datatype DateText = Text(text: string) | LocaleDate(date: JsValue)

  function FormatDate(date: JsValue): (r: DateText)
    ensures r == Text(NoDate) <==> !Truthy(date)
    ensures Truthy(date) ==> r == LocaleDate(date)
  {
    if !Truthy(date) then Text(NoDate) else LocaleDate(date)
  }

  /** `tasks.filter(task => task.status === status)`. */
  function WithStatus(tasks: seq<TaskJson>, status: string): (r: seq<TaskJson>)
    ensures |r| <= |tasks|
    ensures forall t | t in r :: t in tasks && t.status == Str(status)
    ensures forall t | t in tasks && t.status == Str(status) :: t in r
  {
    if tasks == [] then []
    else
      assert forall t | t in tasks[1..] :: t in tasks;
      (if tasks[0].status == Str(status) then [tasks[0]] else []) + WithStatus(tasks[1..], status)
  }

  /** The tasks `displayTasks` lists for a filter value. */
  function Filtered(tasks: seq<TaskJson>, filter: string): (r: seq<TaskJson>)
    ensures filter == AllStatuses ==> r == tasks
    ensures filter != AllStatuses ==> r == WithStatus(tasks, filter)
    ensures |r| <= |tasks|
  {
    if filter == AllStatuses then tasks else WithStatus(tasks, filter)
  }

  /** One entry of the task list. */
  datatype ListItem =
    | Placeholder(text: string)
    | TaskItem(
        id: JsValue,
        title: JsValue,
        description: JsValue,
        status: JsValue,
        priority: JsValue,
        created: DateText,
        due: DateText)

  /** The entry built for one task: its id and title as they are, its
      description or `Aucune description` when that is falsy, the French
      status and priority labels, and both dates through `formatDate`. */
  function Render(t: TaskJson): (r: ListItem)
    ensures r.TaskItem? && r.id == t.id && r.title == t.title
    ensures Truthy(t.description) ==> r.description == t.description
    ensures !Truthy(t.description) ==> r.description == Str(NoDescription)
    ensures r.status == TranslateStatus(t.status) && r.priority == TranslatePriority(t.priority)
    ensures r.created == FormatDate(t.createdAt) && r.due == FormatDate(t.dueDate)
  {
    TaskItem(t.id, t.title, Or(t.description, Str(NoDescription)),
             TranslateStatus(t.status), TranslatePriority(t.priority),
             FormatDate(t.createdAt), FormatDate(t.dueDate))
  }

  function RenderAll(tasks: seq<TaskJson>): (items: seq<ListItem>)
    ensures |items| == |tasks|
    ensures forall i | 0 <= i < |tasks| :: items[i] == Render(tasks[i])
  {
    if tasks == [] then []
    else RenderAll(tasks[..|tasks| - 1]) + [Render(tasks[|tasks| - 1])]
  }

  /** The list `displayTasks` leaves on the page. */
  function Items(tasks: seq<TaskJson>, filter: string): (items: seq<ListItem>)
    ensures |items| >= 1
    ensures Filtered(tasks, filter) == [] <==> items == [Placeholder(NoTasksFound)]
    ensures Filtered(tasks, filter) != [] ==>
      |items| == |Filtered(tasks, filter)| &&
      forall i | 0 <= i < |items| :: items[i] == Render(Filtered(tasks, filter)[i])
  {
    var shown := Filtered(tasks, filter);
    if shown == [] then [Placeholder(NoTasksFound)] else RenderAll(shown)
  }

  /** The `<ul>` element that holds the task list. */
  class TasksList {
    var items: seq<ListItem>

    constructor ()
      ensures items == []
    {
      items := [];
    }

    /** `displayTasks(tasks, filter)`: empties the list, then shows the
        placeholder or appends one entry per shown task, in order. */
    method DisplayTasks(tasks: seq<TaskJson>, filter: string)
      modifies this
      ensures items == Items(tasks, filter)
    {
      items := [];
      var shown := Filtered(tasks, filter);
      if |shown| == 0 {
        items := [Placeholder(NoTasksFound)];
        return;
      }
      var i := 0;
      while i < |shown|
        invariant 0 <= i <= |shown|
        invariant items == RenderAll(shown[..i])
      {
        assert shown[..i + 1][..i] == shown[..i];
        items := items + [Render(shown[i])];
        i := i + 1;
      }
      assert shown[..|shown|] == shown;
    }
  }

  /** A task is shown exactly when it is in the input and the filter is
      `'all'` or equals its status. */
  lemma FilteredMembers(tasks: seq<TaskJson>, filter: string, t: TaskJson)
    ensures t in Filtered(tasks, filter) <==>
      t in tasks && (filter == AllStatuses || t.status == Str(filter))
  {
  }

  /** Filtering a concatenation filters each part and keeps them in order,
      so the shown tasks keep their relative order. */
  lemma {:induction false} WithStatusSplits(a: seq<TaskJson>, b: seq<TaskJson>, status: string)
    ensures WithStatus(a + b, status) == WithStatus(a, status) + WithStatus(b, status)
  {
    if a == [] {
      assert a + b == b;
    } else {
      var head := if a[0].status == Str(status) then [a[0]] else [];
      assert (a + b)[1..] == a[1..] + b;
      calc {
        WithStatus(a + b, status);
        head + WithStatus(a[1..] + b, status);
        { WithStatusSplits(a[1..], b, status); }
        head + (WithStatus(a[1..], status) + WithStatus(b, status));
        (head + WithStatus(a[1..], status)) + WithStatus(b, status);
        WithStatus(a, status) + WithStatus(b, status);
      }
    }
  }

  /** A single task is kept exactly when its status equals the filter. */
  lemma WithStatusSingle(t: TaskJson, status: string)
    ensures WithStatus([t], status) == if t.status == Str(status) then [t] else []
  {
    assert [t][1..] == [];
  }

  /** What `formData.get(name)` returns: the field's text, or `null`. */
  datatype FormFields = FormFields(
    title: JsValue,
    description: JsValue,
    status: JsValue,
    dueDate: JsValue,
    priority: JsValue)

  /** The body both forms send: every field as entered, except that an
      empty due date is sent as `null`. */
  function TaskData(form: FormFields): (body: TaskFields)
    ensures body.title == form.title && body.description == form.description
    ensures body.status == form.status && body.priority == form.priority
    ensures Truthy(form.dueDate) ==> body.dueDate == form.dueDate
    ensures !Truthy(form.dueDate) ==> body.dueDate == Null
    ensures body.dueDate != Undefined
  {
    TaskFields(form.title, form.description, form.status, Or(form.dueDate, Null), form.priority)
  }
}
