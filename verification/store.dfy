/**
 The state changes of the task list: `addTodo` with its three typed commands,
 `toggleTodo`, `deleteTodo` and the commit step of `editTodo` (script.js, lines 90-194).
 Every operation is a pure function from the old list to the new one; the id
 (`Date.now()`), the random emoji, the answer to `confirm` and the key pressed in
 the edit box are parameters.
 */
module Store {
  import opened Optional
  import opened Seqs
  import opened Text
  import opened Todos
  import Theme

  /** The decorations `addTodo` puts in front of a new task's text. */
  const Emojis: seq<string> := ["🔥", "✅", "🧠", "🎯", "🚀", "💡", "📅"]

  /** The words typed into the input box that are obeyed instead of added. */
  datatype Command = ClearAll | MotivateMe | RizzUp

  /** The text a command is compared against: the input trimmed and lower-cased. */
  function CommandKey(input: string): (k: string)
    ensures k == [] <==> IsBlank(input)
    ensures |k| <= |input|
    ensures k == [] || (!IsSpace(k[0]) && !IsSpace(k[|k| - 1]))
    ensures forall i :: 0 <= i < |k| ==> !('A' <= k[i] <= 'Z')
  {
    Lower(Trim(input))
  }

  /** The command a key names, if it is one of the three command words. */
  function CommandNamed(key: string): Option<Command> {
    if key == "clear all" then Some(ClearAll)
    else if key == "motivate me" then Some(MotivateMe)
    else if key == "rizz up" then Some(RizzUp)
    else None
  }

  /** The command the input box holds. */
  function ParseCommand(input: string): (c: Option<Command>)
    ensures c.Some? ==> !IsBlank(input)
    ensures c == Some(ClearAll) <==> CommandKey(input) == "clear all"
    ensures c == Some(MotivateMe) <==> CommandKey(input) == "motivate me"
    ensures c == Some(RizzUp) <==> CommandKey(input) == "rizz up"
  {
    CommandNamed(CommandKey(input))
  }

  /** The text a command is compared against does not depend on letter case or padding. */
  lemma CommandKeyNormal(s: string)
    ensures CommandKey(Lower(s)) == CommandKey(s)
    ensures CommandKey(Trim(s)) == CommandKey(s)
  {
    TrimLower(s);
    LowerLower(Trim(s));
    TrimIdempotent(s);
  }

  /** Commands are recognised in any letter case and regardless of surrounding white space. */
  lemma CommandIgnoresCaseAndPadding(s: string)
    ensures ParseCommand(Lower(s)) == ParseCommand(s)
    ensures ParseCommand(Trim(s)) == ParseCommand(s)
  {
    CommandKeyNormal(s);
  }

  /** What `addTodo` did, besides the new list. */
  datatype AddOutcome =
    | Cleared        // "clear all", confirmed: the list was wiped
    | ClearDeclined  // "clear all", not confirmed
    | Motivated      // "motivate me": a new quote is shown
    | Flirted        // "rizz up": the flirty theme is selected
    | Appended       // a new task was added at the end
    | Ignored        // blank input

  datatype AddResult = AddResult(todos: seq<Todo>, outcome: AddOutcome)

  /** The date field as stored: an empty field becomes `null`. */
  function DateField(date: string): (d: Option<string>)
    ensures d.None? <==> date == ""
    ensures d.Some? ==> d.value == date
  {
    if date == "" then None else Some(date)
  }

  /** `addTodo`: obey a command, ignore blank input, otherwise append a new task
      whose text is the chosen emoji, a space and the trimmed input.
      `pick` is the random index into `Emojis`, `confirmed` the answer to `confirm`. */
  function Add(todos: seq<Todo>, input: string, date: string, category: string,
               id: int, pick: nat, confirmed: bool): (r: AddResult)
    requires pick < |Emojis|
    ensures r.outcome == Appended <==> !IsBlank(input) && ParseCommand(input).None?
    ensures r.outcome == Cleared <==> ParseCommand(input) == Some(ClearAll) && confirmed
    ensures r.outcome == ClearDeclined <==> ParseCommand(input) == Some(ClearAll) && !confirmed
    ensures r.outcome == Motivated <==> ParseCommand(input) == Some(MotivateMe)
    ensures r.outcome == Flirted <==> ParseCommand(input) == Some(RizzUp)
    ensures r.outcome == Ignored <==> IsBlank(input)
    ensures r.outcome == Cleared ==> r.todos == []
    ensures r.outcome != Cleared && r.outcome != Appended ==> r.todos == todos
    ensures r.outcome == Appended ==>
      && |r.todos| == |todos| + 1
      && r.todos[..|todos|] == todos
      && r.todos[|todos|].id == id
      && r.todos[|todos|].text == Emojis[pick] + " " + Trim(input)
      && !r.todos[|todos|].completed
      && r.todos[|todos|].date == DateField(date)
      && r.todos[|todos|].category == category
  {
    match ParseCommand(input)
    case Some(ClearAll) => if confirmed then AddResult([], Cleared) else AddResult(todos, ClearDeclined)
    case Some(MotivateMe) => AddResult(todos, Motivated)
    case Some(RizzUp) => AddResult(todos, Flirted)
    case None =>
      var text := Trim(input);
      if text == "" then AddResult(todos, Ignored)
      else AddResult(todos + [Todo(id, Emojis[pick] + " " + text, false, DateField(date), category)], Appended)
  }

  /** The page title `addTodo` sets: "rizz up" reads the flirty theme's title from the
      table directly and selects that theme, so the title agrees with what the theme
      picker would show for it; no other outcome touches the title. */
  function AddTitle(r: AddResult): (t: Option<string>)
    ensures t.Some? <==> r.outcome == Flirted
    ensures t.Some? ==> t == Theme.TitleFor(Theme.FlirtyTheme)
  {
    if r.outcome == Flirted then Some(Theme.Titles[Theme.FlirtyTheme]) else None
  }

  /** "rizz up", typed in any case and padding, leaves the list alone and shows "💖 RizzList". */
  lemma RizzUpShowsFlirtyTitle(todos: seq<Todo>, input: string, date: string, category: string,
                               id: int, pick: nat, confirmed: bool)
    requires pick < |Emojis|
    requires CommandKey(input) == "rizz up"
    ensures Add(todos, input, date, category, id, pick, confirmed).todos == todos
    ensures AddTitle(Add(todos, input, date, category, id, pick, confirmed)) == Some("💖 RizzList")
  {
  }

  /** A decorated text never is blank: every emoji is a non-space character. */
  lemma DecoratedNotBlank(pick: nat, text: string)
    requires pick < |Emojis|
    ensures !IsBlank(Emojis[pick] + " " + text)
  {
    var e := Emojis[pick];
    assert |e| == 1 && !IsSpace(e[0]);
    assert (e + " " + text)[0] == e[0];
  }

  /** A regular add keeps the store's invariant when the new id is fresh. */
  lemma AddKeepsValid(todos: seq<Todo>, input: string, date: string, category: string,
                      id: int, pick: nat, confirmed: bool)
    requires pick < |Emojis|
    requires Valid(todos)
    requires !HasId(todos, id)
    ensures Valid(Add(todos, input, date, category, id, pick, confirmed).todos)
  {
    var r := Add(todos, input, date, category, id, pick, confirmed);
    if r.outcome == Appended {
      var t := r.todos[|todos|];
      DecoratedNotBlank(pick, Trim(input));
      assert r.todos == todos + [t];
    }
  }

  /** `toggleTodo`: flip `completed` on every task with this id. */
  function Toggle(todos: seq<Todo>, id: int): (r: seq<Todo>)
    ensures |r| == |todos|
    ensures forall i :: 0 <= i < |todos| ==>
      && r[i].id == todos[i].id && r[i].text == todos[i].text
      && r[i].date == todos[i].date && r[i].category == todos[i].category
    ensures forall i :: 0 <= i < |todos| ==> (r[i].completed != todos[i].completed <==> todos[i].id == id)
  {
    seq(|todos|, i requires 0 <= i < |todos| =>
      if todos[i].id == id then todos[i].(completed := !todos[i].completed) else todos[i])
  }

  /** Toggling the same id twice restores the list. */
  lemma ToggleInvolution(todos: seq<Todo>, id: int)
    ensures Toggle(Toggle(todos, id), id) == todos
  {
    var r := Toggle(Toggle(todos, id), id);
    forall i | 0 <= i < |todos| ensures r[i] == todos[i] {
    }
  }

  /** Toggling keeps ids unique and texts non-blank. */
  lemma ToggleKeepsValid(todos: seq<Todo>, id: int)
    requires Valid(todos)
    ensures Valid(Toggle(todos, id))
  {
  }

  /** `deleteTodo`: drop every task with this id, keeping the others in order. */
  function Delete(todos: seq<Todo>, id: int): (r: seq<Todo>)
    ensures !HasId(r, id)
    ensures forall t :: multiset(r)[t] == if t.id == id then 0 else multiset(todos)[t]
    ensures IsSubsequence(r, todos)
    ensures !HasId(todos, id) ==> r == todos
  {
    var keep := (t: Todo) => t.id != id;
    KeepIsSubsequence(todos, keep);
    if !HasId(todos, id) then KeepAllOf(todos, keep); Keep(todos, keep)
    else
      var r := Keep(todos, keep);
      assert forall i :: 0 <= i < |r| ==> r[i] in r;
      r
  }

  /** Deleting twice deletes once. */
  lemma DeleteIdempotent(todos: seq<Todo>, id: int)
    ensures Delete(Delete(todos, id), id) == Delete(todos, id)
  {
  }

  /** Deleting keeps ids unique and texts non-blank. */
  lemma DeleteKeepsValid(todos: seq<Todo>, id: int)
    requires Valid(todos)
    ensures Valid(Delete(todos, id))
  {
    var r := Delete(todos, id);
    UniqueIdsSubsequence(r, todos);
    forall i | 0 <= i < |r| ensures !IsBlank(r[i].text) {
      SubsequenceMember(r, todos, r[i]);
    }
  }

  /** The key pressed in the edit box. */
  datatype Key = Enter | Escape | OtherKey

  /** Task `i` is the first one of the list with this id: the one `find` returns. */
  predicate IsFirstWithId(todos: seq<Todo>, i: int, id: int) {
    0 <= i < |todos| && todos[i].id == id && forall j :: 0 <= j < i ==> todos[j].id != id
  }

  /** `editTodo` followed by one key press in its edit box: Enter with a non-blank
      value stores the trimmed value as the text of the first task with this id;
      every other case changes nothing. */
  function Edit(todos: seq<Todo>, id: int, key: Key, value: string): (r: seq<Todo>)
    ensures |r| == |todos|
    ensures key != Enter || IsBlank(value) || !HasId(todos, id) ==> r == todos
    ensures forall i :: 0 <= i < |todos| ==>
      r[i] == if key == Enter && !IsBlank(value) && IsFirstWithId(todos, i, id)
              then todos[i].(text := Trim(value)) else todos[i]
  {
    match FirstIndex(todos, (t: Todo) => t.id == id)
    case None => todos
    case Some(i) =>
      var text := Trim(value);
      if key == Enter && text != "" then todos[i := todos[i].(text := text)] else todos
  }

  /** Committing the same edit twice is the same as committing it once. */
  lemma EditIdempotent(todos: seq<Todo>, id: int, value: string)
    ensures Edit(Edit(todos, id, Enter, value), id, Enter, value) == Edit(todos, id, Enter, value)
  {
    var r1 := Edit(todos, id, Enter, value);
    var r2 := Edit(r1, id, Enter, value);
    if IsBlank(value) || !HasId(todos, id) {
      assert r1 == todos;
    } else {
      forall i | 0 <= i < |todos| ensures r1[i].id == todos[i].id {
      }
      forall i | 0 <= i < |todos| ensures r2[i] == r1[i] {
        assert IsFirstWithId(r1, i, id) <==> IsFirstWithId(todos, i, id);
      }
    }
  }

  /** In a list with unique ids the first task with an id is the only one, so a
      committed edit renames every task carrying the id. */
  lemma EditRenamesEveryWithId(todos: seq<Todo>, id: int, value: string)
    requires UniqueIds(todos)
    requires !IsBlank(value)
    ensures forall i :: 0 <= i < |todos| && todos[i].id == id ==>
      Edit(todos, id, Enter, value)[i] == todos[i].(text := Trim(value))
  {
  }

  /** Editing keeps ids unique and texts non-blank, whatever the key and value. */
  lemma EditKeepsValid(todos: seq<Todo>, id: int, key: Key, value: string)
    requires Valid(todos)
    ensures Valid(Edit(todos, id, key, value))
  {
    var r := Edit(todos, id, key, value);
    forall i | 0 <= i < |r| ensures !IsBlank(r[i].text) {
      if r[i] != todos[i] {
        assert r[i].text == Trim(value);
      }
    }
  }

}
