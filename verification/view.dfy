/**
 The list `renderTodos` draws: the tasks that pass the active filter button,
 in list order (script.js, lines 139-142).
 */
module View {
  import opened Seqs
  import opened Todos

  /** The three filter buttons (`data-filter` = all, active, completed). */
  datatype Filter = All | Active | Completed

  /** The task passes the filter. */
  predicate Shows(f: Filter, t: Todo) {
    f == All || (f == Active && !t.completed) || (f == Completed && t.completed)
  }

  /** The tasks drawn under filter `f`: an order-preserving subsequence of the list
      holding each task that passes the filter as often as the list holds it. */
  function Visible(todos: seq<Todo>, f: Filter): (r: seq<Todo>)
    ensures IsSubsequence(r, todos)
    ensures forall t :: t in r <==> t in todos && Shows(f, t)
    ensures forall t :: multiset(r)[t] == if Shows(f, t) then multiset(todos)[t] else 0
  {
    var shows := (t: Todo) => Shows(f, t);
    KeepIsSubsequence(todos, shows);
    Keep(todos, shows)
  }

  /** `all` draws the whole list. */
  lemma VisibleAll(todos: seq<Todo>)
    ensures Visible(todos, All) == todos
  {
    KeepAllOf(todos, (t: Todo) => Shows(All, t));
  }

  /** `active` draws exactly the open tasks, `completed` exactly the done ones. */
  lemma VisibleActiveCompleted(todos: seq<Todo>, t: Todo)
    ensures t in Visible(todos, Active) <==> t in todos && !t.completed
    ensures t in Visible(todos, Completed) <==> t in todos && t.completed
  {
  }

  /** Every task is drawn under exactly one of `active` and `completed`. */
  lemma ActivePlusCompleted(todos: seq<Todo>)
    ensures |Visible(todos, Active)| + |Visible(todos, Completed)| == |todos|
  {
    KeepSplitsLength(todos, (t: Todo) => Shows(Active, t), (t: Todo) => Shows(Completed, t));
  }

  /** The filtered view is a fixed point of its own filter. */
  lemma VisibleIdempotent(todos: seq<Todo>, f: Filter)
    ensures Visible(Visible(todos, f), f) == Visible(todos, f)
  {
    KeepIdempotent(todos, (t: Todo) => Shows(f, t));
  }

}
