/**
 The task record and the whole-list invariants the store is meant to keep.
 Source: the object literal built by `addTodo` (script.js, lines 124-130).
 */
module Todos {
  import opened Optional
  import opened Seqs
  import Text

  /** One task. `date` is `None` where the source stores `null`. */
  datatype Todo = Todo(id: int, text: string, completed: bool, date: Option<string>, category: string)

  /** No two tasks of the list share an id. */
  predicate UniqueIds(todos: seq<Todo>) {
    forall i, j :: 0 <= i < j < |todos| ==> todos[i].id != todos[j].id
  }

  /** A subsequence of a list with unique ids has unique ids. */
  lemma {:induction false} UniqueIdsSubsequence(r: seq<Todo>, todos: seq<Todo>)
    requires UniqueIds(todos)
    requires IsSubsequence(r, todos)
    ensures UniqueIds(r)
    decreases |todos|
  {
    if r != [] {
      if r[0] == todos[0] {
        UniqueIdsSubsequence(r[1..], todos[1..]);
        forall j | 0 < j < |r| ensures r[0].id != r[j].id {
          assert r[j] in r[1..];
          SubsequenceMember(r[1..], todos[1..], r[j]);
        }
      } else {
        UniqueIdsSubsequence(r, todos[1..]);
      }
    }
  }

  /** With unique ids, no task occurs twice. */
  lemma {:induction false} UniqueIdsOnce(todos: seq<Todo>, t: Todo)
    requires UniqueIds(todos)
    ensures multiset(todos)[t] <= 1
  {
    if todos != [] {
      assert todos == [todos[0]] + todos[1..];
      UniqueIdsOnce(todos[1..], t);
      if t == todos[0] {
        assert forall k :: 0 <= k < |todos[1..]| ==> todos[1..][k] != t by {
          forall k | 0 <= k < |todos[1..]| ensures todos[1..][k] != t {
            assert todos[1..][k] == todos[k + 1];
          }
        }
        assert t !in todos[1..];
      }
    }
  }

  /** Two entries of a list holding the same task make it occur at least twice. */
  lemma RepeatedTwice(r: seq<Todo>, i: int, j: int)
    requires 0 <= i < j < |r| && r[i] == r[j]
    ensures multiset(r)[r[i]] >= 2
  {
    assert r == r[..j] + r[j..];
    assert r[i] in r[..j];
    assert r[j..][0] == r[j];
    assert r[j] in r[j..];
  }

  /** A permutation of a list with unique ids has unique ids. */
  lemma UniqueIdsPermutation(a: seq<Todo>, b: seq<Todo>)
    requires UniqueIds(a)
    requires multiset(b) == multiset(a)
    ensures UniqueIds(b)
  {
    forall i, j | 0 <= i < j < |b| ensures b[i].id != b[j].id {
      if b[i].id == b[j].id {
        assert b[i] in multiset(a) && b[j] in multiset(a);
        var p :| 0 <= p < |a| && a[p] == b[i];
        var q :| 0 <= q < |a| && a[q] == b[j];
        assert p == q;
        RepeatedTwice(b, i, j);
        UniqueIdsOnce(a, b[i]);
        assert false;
      }
    }
  }

  /** Some task of the list has this id. */
  predicate HasId(todos: seq<Todo>, id: int) {
    exists i :: 0 <= i < |todos| && todos[i].id == id
  }

  /** No task's text is empty or white space only. */
  predicate NonBlankTexts(todos: seq<Todo>) {
    forall i :: 0 <= i < |todos| ==> !Text.IsBlank(todos[i].text)
  }

  /** The invariant the store keeps between user actions. */
  predicate Valid(todos: seq<Todo>) {
    UniqueIds(todos) && NonBlankTexts(todos)
  }

}
