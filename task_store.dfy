/** The `Task` table as the handlers see it: rows keyed by a store-assigned
    id, a source of fresh ids, and `findAll` ordered by `createdAt`
    descending. The relational store itself is not modelled; this is the
    in-memory table it stands for. */
module TaskStore {
  import opened Js

  /** One stored row. `createdAt` is the store's clock reading at insertion. */
  datatype Task = Task(
    id: nat,
    title: JsValue,
    description: JsValue,
    status: JsValue,
    dueDate: JsValue,
    priority: JsValue,
    createdAt: nat)

  /** The table: rows by primary key, and the next id the store hands out. */
  datatype Table = Table(rows: map<nat, Task>, nextId: nat)

  /** Every row sits under its own id, and every id is below `nextId`, so
      `nextId` is always fresh. */
  predicate Keyed(tb: Table) {
    forall id | id in tb.rows :: tb.rows[id].id == id && id < tb.nextId
  }

  /** Most recently created first. */
  predicate NewestFirst(s: seq<Task>) {
    forall i, j | 0 <= i < j < |s| :: s[i].createdAt >= s[j].createdAt
  }

  /** The rows whose id is below `n`, in increasing id order. */
  function RowsBelow(rows: map<nat, Task>, n: nat): seq<Task> {
    if n == 0 then []
    else RowsBelow(rows, n - 1) + (if n - 1 in rows then [rows[n - 1]] else [])
  }

  /** The set of rows whose id is below `n`. */
  ghost function ValuesBelow(rows: map<nat, Task>, n: nat): set<Task> {
    set id | id in rows && id < n :: rows[id]
  }

  /** Places `t` in a newest-first sequence, before every row that is not
      newer than it. */
  function InsertNewestFirst(t: Task, s: seq<Task>): (r: seq<Task>)
    requires NewestFirst(s)
    ensures NewestFirst(r)
    ensures multiset(r) == multiset(s) + multiset{t}
  {
    if s == [] || t.createdAt >= s[0].createdAt then
      [t] + s
    else
      var rest := InsertNewestFirst(t, s[1..]);
      assert s == [s[0]] + s[1..];
      NoNewerThan(rest, s[1..], t, s[0].createdAt);
      [s[0]] + rest
  }

  /** A rearrangement of `s` plus `t`, where neither `t` nor any row of `s`
      is newer than `bound`, has no row newer than `bound`. */
  lemma NoNewerThan(rest: seq<Task>, s: seq<Task>, t: Task, bound: nat)
    requires multiset(rest) == multiset(s) + multiset{t}
    requires t.createdAt <= bound
    requires forall k | 0 <= k < |s| :: s[k].createdAt <= bound
    ensures forall k | 0 <= k < |rest| :: rest[k].createdAt <= bound
  {
    forall k | 0 <= k < |rest| ensures rest[k].createdAt <= bound {
      assert rest[k] in multiset(rest);
      if rest[k] != t {
        assert rest[k] in multiset(s);
        assert rest[k] in s;
      }
    }
  }

  /** Sorts rows newest first; rows created at the same instant keep their
      relative order. */
  function SortNewestFirst(s: seq<Task>): (r: seq<Task>)
    ensures NewestFirst(r)
    ensures multiset(r) == multiset(s)
  {
    if s == [] then []
    else
      assert s == [s[0]] + s[1..];
      InsertNewestFirst(s[0], SortNewestFirst(s[1..]))
  }

  lemma {:induction false} RowsBelowHoldsEachRowOnce(rows: map<nat, Task>, n: nat)
    requires forall id | id in rows :: rows[id].id == id
    ensures multiset(RowsBelow(rows, n)) == multiset(ValuesBelow(rows, n))
  {
    if n > 0 {
      RowsBelowHoldsEachRowOnce(rows, n - 1);
      if n - 1 in rows {
        var t := rows[n - 1];
        assert ValuesBelow(rows, n) == ValuesBelow(rows, n - 1) + {t};
        assert t !in ValuesBelow(rows, n - 1);
      } else {
        assert ValuesBelow(rows, n) == ValuesBelow(rows, n - 1);
      }
    }
  }

  /** `Task.findAll({ order: [['createdAt', 'DESC']] })`: every stored row
      exactly once, newest first. */
  function FindAll(tb: Table): (r: seq<Task>)
    requires Keyed(tb)
    ensures NewestFirst(r)
    ensures multiset(r) == multiset(tb.rows.Values)
  {
    var rows := RowsBelow(tb.rows, tb.nextId);
    RowsBelowHoldsEachRowOnce(tb.rows, tb.nextId);
    assert ValuesBelow(tb.rows, tb.nextId) == tb.rows.Values;
    SortNewestFirst(rows)
  }
}
