/**
 The `drop` handler (script.js, lines 240-246): after a drag, the list is rebuilt
 from the rows on screen, top to bottom. Each row is mapped back to a task by
 looking for the first task whose text equals the row's text; rows that match
 nothing are dropped. A row's text is `None` when it has no text span, which is
 the case for the row whose text is being edited.

 The row order comes from the drag-over handler's geometry, which is not modelled:
 `rows` is any sequence of rendered row texts. A row's text is taken to be the
 task's text exactly (markup in a task's text is not modelled).

 The rebuild is written once for any key; `ByText` is the handler as written and
 `ById` the same rebuild keyed by the task id.
 */
module Reorder {
  import opened Optional
  import opened Seqs
  import opened Todos
  import opened View

  /** The first task whose key equals `k`, as `todos.find` returns it. */
  function Lookup<K(==)>(todos: seq<Todo>, key: Todo -> K, row: Option<K>): (r: Option<Todo>)
    ensures r.Some? <==> row.Some? && exists i :: 0 <= i < |todos| && key(todos[i]) == row.value
    ensures r.Some? ==> exists i :: (0 <= i < |todos| && todos[i] == r.value
      && key(todos[i]) == row.value && forall j :: 0 <= j < i ==> key(todos[j]) != row.value)
  {
    match row
    case None => None
    case Some(k) =>
      match FirstIndex(todos, (t: Todo) => key(t) == k)
      case None => None
      case Some(i) => Some(todos[i])
  }

  /** The rebuilt list: the task each row maps to, in row order, misses left out. */
  function Rebuild<K(==)>(todos: seq<Todo>, key: Todo -> K, rows: seq<Option<K>>): (r: seq<Todo>)
    ensures |r| <= |rows|
    ensures forall t :: t in r ==> t in todos && Some(key(t)) in rows
  {
    if rows == [] then []
    else
      match Lookup(todos, key, rows[0])
      case None => Rebuild(todos, key, rows[1..])
      case Some(t) => [t] + Rebuild(todos, key, rows[1..])
  }

  /** Every row's key belongs to some task. */
  predicate AllRowsMatch<K(==)>(todos: seq<Todo>, key: Todo -> K, rows: seq<Option<K>>) {
    forall n :: 0 <= n < |rows| ==> Lookup(todos, key, rows[n]).Some?
  }

  /** When every row matches, row n becomes the first task with row n's key. */
  lemma {:induction false} RebuildMatched<K>(todos: seq<Todo>, key: Todo -> K, rows: seq<Option<K>>)
    requires AllRowsMatch(todos, key, rows)
    ensures |Rebuild(todos, key, rows)| == |rows|
    ensures forall n :: 0 <= n < |rows| ==> Rebuild(todos, key, rows)[n] == Lookup(todos, key, rows[n]).value
  {
    if rows != [] {
      assert Lookup(todos, key, rows[0]).Some?;
      forall n | 0 <= n < |rows| - 1 ensures Lookup(todos, key, rows[1..][n]).Some? {
        assert rows[1..][n] == rows[n + 1];
      }
      RebuildMatched(todos, key, rows[1..]);
    }
  }

  /** Rebuilding from two runs of rows concatenates the two rebuilds. */
  lemma {:induction false} RebuildAppend<K>(todos: seq<Todo>, key: Todo -> K, a: seq<Option<K>>, b: seq<Option<K>>)
    ensures Rebuild(todos, key, a + b) == Rebuild(todos, key, a) + Rebuild(todos, key, b)
  {
    if a == [] {
      assert a + b == b;
    } else {
      assert (a + b)[0] == a[0];
      assert (a + b)[1..] == a[1..] + b;
      RebuildAppend(todos, key, a[1..], b);
    }
  }

  /** The multiset of rebuilt tasks depends only on the multiset of rows. */
  lemma {:induction false} RebuildMultiset<K>(todos: seq<Todo>, key: Todo -> K, a: seq<Option<K>>, b: seq<Option<K>>)
    requires multiset(a) == multiset(b)
    ensures multiset(Rebuild(todos, key, a)) == multiset(Rebuild(todos, key, b))
    decreases |a|
  {
    if a != [] {
      var x := a[0];
      assert x in multiset(b);
      var j :| 0 <= j < |b| && b[j] == x;
      var b' := b[..j] + b[j + 1..];
      assert b == b[..j] + [x] + b[j + 1..];
      assert a == [x] + a[1..];
      assert multiset(a[1..]) == multiset(a) - multiset{x};
      assert multiset(b') == multiset(b) - multiset{x};
      RebuildMultiset(todos, key, a[1..], b');
      RebuildAppend(todos, key, [x], a[1..]);
      RebuildAppend(todos, key, b[..j] + [x], b[j + 1..]);
      RebuildAppend(todos, key, b[..j], [x]);
      RebuildAppend(todos, key, b[..j], b[j + 1..]);
    }
  }

  /** A row without a text span (the one being edited) contributes no task. */
  lemma RebuildSkipsEditedRow<K>(todos: seq<Todo>, key: Todo -> K, a: seq<Option<K>>, b: seq<Option<K>>)
    ensures Rebuild(todos, key, a + [None] + b) == Rebuild(todos, key, a) + Rebuild(todos, key, b)
  {
    var edited: seq<Option<K>> := [None];
    assert edited[1..] == [];
    assert Lookup(todos, key, edited[0]) == None;
    assert Rebuild(todos, key, edited) == Rebuild(todos, key, []) == [];
    RebuildAppend(todos, key, a, edited);
    assert Rebuild(todos, key, a + edited) == Rebuild(todos, key, a);
    RebuildAppend(todos, key, a + edited, b);
  }

  /** The rows a list renders to, keyed by `key`, in list order. */
  function Rows<K>(todos: seq<Todo>, key: Todo -> K): (rows: seq<Option<K>>)
    ensures |rows| == |todos|
    ensures forall i :: 0 <= i < |todos| ==> rows[i] == Some(key(todos[i]))
  {
    seq(|todos|, i requires 0 <= i < |todos| => Some(key(todos[i])))
  }

  /** No two tasks share a key. */
  predicate DistinctKeys<K(==)>(todos: seq<Todo>, key: Todo -> K) {
    forall i, j :: 0 <= i < j < |todos| ==> key(todos[i]) != key(todos[j])
  }

  /** Rebuilding from a list's own rows, in list order, gives the list back
      when no two of its tasks share a key. */
  lemma RebuildOwnRows<K>(todos: seq<Todo>, key: Todo -> K)
    requires DistinctKeys(todos, key)
    ensures Rebuild(todos, key, Rows(todos, key)) == todos
  {
    var rows := Rows(todos, key);
    forall n | 0 <= n < |rows| ensures Lookup(todos, key, rows[n]) == Some(todos[n]) {
      var r := Lookup(todos, key, rows[n]);
      assert key(todos[n]) == rows[n].value;
      var i :| 0 <= i < |todos| && todos[i] == r.value && key(todos[i]) == rows[n].value
        && forall j :: 0 <= j < i ==> key(todos[j]) != rows[n].value;
      assert i == n;
    }
    RebuildMatched(todos, key, rows);
  }

  /** When no two tasks share a key and the rows are the list's own rows in any
      order, the rebuilt list is a permutation of the old one. */
  lemma RebuildPermutes<K>(todos: seq<Todo>, key: Todo -> K, rows: seq<Option<K>>)
    requires DistinctKeys(todos, key)
    requires multiset(rows) == multiset(Rows(todos, key))
    ensures multiset(Rebuild(todos, key, rows)) == multiset(todos)
  {
    RebuildMultiset(todos, key, rows, Rows(todos, key));
    RebuildOwnRows(todos, key);
  }

  /** The text shown on a task's row. */
  function TextOf(t: Todo): string {
    t.text
  }

  /** The handler as written: rows are matched to tasks by their text. */
  function ByText(todos: seq<Todo>, rows: seq<Option<string>>): (r: seq<Todo>)
    ensures |r| <= |rows|
    ensures forall t :: t in r ==> t in todos && Some(t.text) in rows
  {
    Rebuild(todos, TextOf, rows)
  }

  /** When every task is on screen and no two share a text, a drop permutes the list. */
  lemma ByTextPermutes(todos: seq<Todo>, rows: seq<Option<string>>)
    requires DistinctKeys(todos, TextOf)
    requires multiset(rows) == multiset(Rows(todos, TextOf))
    ensures multiset(ByText(todos, rows)) == multiset(todos)
  {
    RebuildPermutes(todos, TextOf, rows);
  }

  /** A task hidden by the filter, whose text no shown task has, is lost by a drop. */
  lemma ByTextDropsHidden(todos: seq<Todo>, f: Filter, rows: seq<Option<string>>, t: Todo)
    requires multiset(rows) == multiset(Rows(Visible(todos, f), TextOf))
    requires !Shows(f, t)
    requires forall v :: v in Visible(todos, f) ==> v.text != t.text
    ensures t !in ByText(todos, rows)
  {
    var shown := Rows(Visible(todos, f), TextOf);
    forall i | 0 <= i < |shown| ensures shown[i] != Some(t.text) {
      assert Visible(todos, f)[i] in Visible(todos, f);
    }
    assert Some(t.text) !in multiset(shown);
  }

  /** Two tasks with the same text: dragging them collapses both rows onto the first
      task, so the second task is lost and the first appears twice, under one id. */
  lemma ByTextCollapsesDuplicates()
    ensures var a := Todo(1, "x", false, None, "");
            var b := Todo(2, "x", true, None, "");
            && ByText([a, b], Rows([b, a], TextOf)) == [a, a]
            && !UniqueIds(ByText([a, b], Rows([b, a], TextOf)))
  {
    var a := Todo(1, "x", false, None, "");
    var b := Todo(2, "x", true, None, "");
    var rows := Rows([b, a], TextOf);
    assert rows == [Some("x"), Some("x")];
    assert Lookup([a, b], TextOf, Some("x")) == Some(a);
    RebuildMatched([a, b], TextOf, rows);
  }

  /** The id of a task, as a row would carry it. */
  function IdOf(t: Todo): int {
    t.id
  }

  /** The rebuild keyed by id: each row carries its task's id. */
  function ById(todos: seq<Todo>, rows: seq<Option<int>>): (r: seq<Todo>)
    ensures |r| <= |rows|
    ensures forall t :: t in r ==> t in todos && Some(t.id) in rows
  {
    Rebuild(todos, IdOf, rows)
  }

  /** Keyed by id, a drop of every row of a list with unique ids, in any order, permutes the list
      and keeps ids unique. */
  lemma ByIdPermutes(todos: seq<Todo>, rows: seq<Option<int>>)
    requires UniqueIds(todos)
    requires multiset(rows) == multiset(Rows(todos, IdOf))
    ensures multiset(ById(todos, rows)) == multiset(todos)
    ensures UniqueIds(ById(todos, rows))
  {
    RebuildPermutes(todos, IdOf, rows);
    UniqueIdsPermutation(todos, ById(todos, rows));
  }

}
