# SlayList task list — a Dafny model

The to-do widget keeps one piece of state, the ordered list `todos` of task
records (`id`, `text`, `completed`, `date`, `category`), and changes it in
response to the user: adding a task (or obeying one of three typed commands),
toggling, deleting and editing a task, and rebuilding the list after a
drag-and-drop. Around the list it derives the filtered view that is drawn, the
progress percentage with its motivation line and confetti, and the title of the
selected theme.

This project models that state logic of `script.js` as pure functions over
`seq<Todo>` and proves what the code promises about it:

- `optional.dfy` — `Option`, for `null`/`undefined`.
- `seqs.dfy` — `Keep` (`Array.prototype.filter`), `FirstIndex` (`find`), and the
  order-preserving subsequence relation, with their lemmas.
- `text.dfy` — `String.prototype.trim` over the exact white-space set it strips,
  and lower-casing.
- `todos.dfy` — the task record and the list invariant (unique ids, no blank text).
- `store.dfy` — `addTodo` with its commands, `toggleTodo`, `deleteTodo`, the commit
  step of `editTodo`.
- `view.dfy` — the `all`/`active`/`completed` filter of `renderTodos`.
- `progress.dfy` — `updateProgressBar`: rounded percentage, motivation line, confetti.
- `reorder.dfy` — the `drop` handler, written once for any row key; `ByText` is the
  handler as written, `ById` the same rebuild keyed by id.
- `theme.dfy` — the theme id to title lookup.

The values the program takes from its environment are parameters: the new
task's id (`Date.now()`), the index of the random emoji, the answer to
`confirm`, the key pressed in the edit box, the text of the date and category
fields, and the sequence of rows on screen when a drag ends. A row's text is
taken to be its task's text exactly.

Behaviours of the code worth knowing:

- The code shows four motivation lines: 0, below 50, below 100 and 100.
- A drop rebuilds the list by matching row texts, not ids. A task hidden by the filter
  is lost when no shown task has its text (a hidden task with the same text as a shown
  one can instead take that row's place), and tasks with equal texts collapse onto the
  first of them. The collapse breaks the unique-id invariant (see Findings).
- Toggle and delete act on every task with the id. Edit writes the text of the task
  object `find` returns, the first one with the id; in a list with unique ids that is
  the only one.
- A new task's text is prefixed with an emoji and a space, and an empty date is stored
  as `null`.

## Model

| member | source | states |
|---|---|---|
| Text.Trim | script.js:91 | the result is empty exactly when the input is only white space; otherwise it is a factor of the input that neither starts nor ends with white space, and only white space was cut from either end |
| Text.TrimIdempotent | script.js:188-189 | trimming a trimmed text changes nothing, so a committed edit is already in the form `trim` produces |
| Text.Lower | script.js:91 | lower-casing keeps the length, leaves no ASCII capital, turns each capital into the matching small letter and keeps every other character |
| Text.TrimLower | script.js:91 | trimming and lower-casing can be applied in either order with the same result |
| Text.LowerLower | script.js:91 | lower-casing a lower-cased text changes nothing |
| Seqs.Keep | script.js:171 | a filter keeps exactly the elements satisfying the predicate, each as many times as the input holds it, and never grows the list |
| Seqs.KeepIsSubsequence | script.js:140-142 | a filter's result is an order-preserving subsequence of its input |
| Seqs.KeepSplitsLength | script.js:140-142 | the results of filtering by a predicate and by its negation have sizes that add up to the input's |
| Seqs.KeepIdempotent | script.js:171 | filtering twice with one predicate equals filtering once |
| Seqs.FirstIndex | script.js:175 | `find` returns the first index whose element satisfies the predicate, and nothing exactly when no element does |
| Store.CommandKey | script.js:91 | the text a command is compared against is empty exactly for blank input, no longer than the input, neither starts nor ends with white space and holds no capital letter |
| Store.ParseCommand | script.js:91-115 | the input names "clear all", "motivate me" or "rizz up" exactly when its trimmed, lower-cased key is that word (the comparisons at lines 93, 101 and 106, made by `CommandNamed`), and only non-blank input can name one |
| Store.CommandKeyNormal | script.js:91 | the key a command is compared against is the same for the input, its lower-cased form and its trimmed form |
| Store.CommandIgnoresCaseAndPadding | script.js:91-106 | a command is recognised in any letter case and with any surrounding white space |
| Store.DateField | script.js:128 | an empty date field is stored as `null`, any other value as itself |
| Store.Add | script.js:90-135 | a regular add happens exactly when the input is non-blank and not a command; it appends one task at the end (fresh id, not completed, emoji + space + trimmed input, date, category) and keeps every earlier task; "clear all" empties the list exactly when confirmed; blank input, "motivate me", "rizz up" and a declined "clear all" leave the list unchanged |
| Store.AddTitle | script.js:106-114 | the title changes only on "rizz up", and then to the title the theme picker shows for the flirty theme |
| Store.RizzUpShowsFlirtyTitle | script.js:106-114 | "rizz up" in any case and padding leaves the list unchanged and shows "💖 RizzList" |
| Store.DecoratedNotBlank | script.js:123-126 | a new task's text is never blank, whatever the input |
| Store.AddKeepsValid | script.js:124-131 | with a fresh id, add keeps ids unique and texts non-blank |
| Store.Toggle | script.js:166-169 | toggle keeps length, order, ids, texts, dates and categories, and flips `completed` exactly on the tasks with the id |
| Store.ToggleInvolution | script.js:167 | toggling the same id twice gives back the original list |
| Store.ToggleKeepsValid | script.js:167 | toggle keeps ids unique and texts non-blank |
| Store.Delete | script.js:170-173 | delete leaves no task with the id, keeps every other task with its multiplicity in the original order, and is a no-op when the id is absent |
| Store.DeleteIdempotent | script.js:171 | deleting the same id twice equals deleting it once |
| Store.DeleteKeepsValid | script.js:171 | delete keeps ids unique and texts non-blank |
| Store.Edit | script.js:174-193 | Enter with a non-blank value changes only the text of the first task with the id, to the trimmed value; a missing id, a blank value, Escape or any other key leave the list unchanged |
| Store.EditIdempotent | script.js:187-190 | committing the same edit twice equals committing it once |
| Store.EditRenamesEveryWithId | script.js:175-189 | with unique ids, a committed edit renames every task carrying the id |
| Store.EditKeepsValid | script.js:188-189 | edit keeps ids unique and texts non-blank |
| View.Visible | script.js:139-142 | the drawn list is an order-preserving subsequence holding exactly the tasks that pass the filter, each as often as the list holds it |
| View.VisibleAll | script.js:140 | the `all` filter draws the whole list |
| View.VisibleActiveCompleted | script.js:141-142 | `active` draws exactly the open tasks and `completed` exactly the done ones |
| View.ActivePlusCompleted | script.js:140-142 | the sizes of the `active` and `completed` views add up to the list's size |
| View.VisibleIdempotent | script.js:140-142 | filtering the drawn list again by the same filter changes nothing |
| Progress.Percent | script.js:210-212 | the percentage is 0 for an empty list, lies in 0..100, and is the integer nearest to 100 * done / total, halves rounded up |
| Progress.PercentZero | script.js:212-216 | the percentage is 0 exactly when the list is empty or less than half a percent is done |
| Progress.PercentFull | script.js:212-219 | the percentage is 100 exactly when the list is non-empty and at least 99.5 percent is done |
| Progress.PercentEnds | script.js:212 | nothing done reads 0, and everything done in a non-empty list reads 100 |
| Progress.PercentExamples | script.js:212 | 2 of 4 reads 50, 199 of 200 reads 100, 1 of 201 reads 0 |
| Progress.Summarize | script.js:210-212 | done counts the completed tasks, total the list, the percentage is the rounded share of done in total, reading 0 with nothing done and 100 with everything done |
| Progress.MotivationFor | script.js:215-219 | the line depends only on the percentage: "get started" at 0, "making moves" below 50, "almost there" below 100, "did it" at 100 |
| Progress.MotivationText | script.js:216-219 | "YOU DID IT 💥🔥" is shown exactly on the "did it" line and "Let’s get started!" exactly on the "get started" line |
| Progress.MotivationTextDistinct | script.js:216-219 | the four lines show four different texts |
| Progress.Confetti | script.js:221 | confetti fires exactly when the "did it" line is shown |
| Progress.ConfettiForList | script.js:210-221 | confetti fires for a list exactly when it is non-empty and at least 99.5 percent done |
| Reorder.Lookup | script.js:243 | a row maps to a task exactly when it has a text some task has, and then to the first such task |
| Reorder.Rebuild | script.js:241-244 | the rebuilt list has at most one task per row, and each of its tasks is a task of the old list whose key is on some row |
| Reorder.RebuildMatched | script.js:241-244 | when every row matches, row n becomes the first task with row n's key |
| Reorder.RebuildMultiset | script.js:241-245 | which tasks a drop produces, and how often, depends only on which rows there are, not their order |
| Reorder.RebuildSkipsEditedRow | script.js:242-244 | a row whose text span is replaced by the edit box contributes no task |
| Reorder.RebuildOwnRows | script.js:241-245 | rebuilding from a list's own rows in list order gives the list back when no two tasks share a key |
| Reorder.RebuildPermutes | script.js:241-245 | with distinct keys and the list's own rows in any order, the rebuilt list is a permutation of the old one |
| Reorder.ByText | script.js:240-246 | the drop handler as written: at most one task per row, each an old task whose text is on a row |
| Reorder.ByTextPermutes | script.js:241-245 | when every task is on screen and no two share a text, a drop permutes the list |
| Reorder.ByTextDropsHidden | script.js:241-245 | a task hidden by the filter whose text no shown task has is lost by a drop |
| Reorder.ByTextCollapsesDuplicates | script.js:243 | two tasks with one text, dragged, become the first task twice: the second task is lost and ids are no longer unique |
| Reorder.ById | script.js:241-245 | the rebuild keyed by id: at most one task per row, each an old task whose id is on a row |
| Reorder.ByIdPermutes | script.js:241-245 | keyed by id, dropping every row of a list with unique ids in any order permutes the list and keeps ids unique |
| Todos.UniqueIdsPermutation | script.js:245 | a permutation of a list with unique ids has unique ids |
| Theme.TitleFor | script.js:73-81 | an empty selection leaves the title alone, a known theme id shows its title from the table, any other id the default title |
| Theme.TitleIsKnown | script.js:13-18 | every title shown is one of the table's titles or the default |

## Findings

| source | as written | input that shows it | evidently intended | confidence | as-written member | corrected member |
|---|---|---|---|---|---|---|
| script.js:243 | a dropped row is mapped back to the first task with the row's text | two tasks with the same text, both on screen, dragged into any order | each row keeps its own task, so the new list is a permutation of the old one and ids stay unique | high; not executed | Reorder.ByTextCollapsesDuplicates | Reorder.ByIdPermutes |

## Left out

- All document work: looking up elements, building row markup, wiring events, swapping the edit box in and out, and clearing the input fields. A row's text is assumed to equal its task's text; HTML interpretation of a task's text is not modelled. That includes the case where `editTodo` finds no row and fails.
- `localStorage`, `JSON.parse` and `JSON.stringify`: loading, saving, and the saved theme and dark-mode flags. These are storage I/O.
- `Date.now()`, `Math.random` and `confirm` are parameters. The random greeting and quote of the day are not modelled.
- The drag-over geometry (`getBoundingClientRect`, `clientY`). It is floating-point layout; a drop starts from the resulting sequence of rows.
- The `confetti` call itself, theme CSS classes and the dark-mode toggle. These are third-party rendering and UI; the model only decides whether confetti fires.
- Progress.Percent: uses exact rational round-half-up, not the floating-point `Math.round(done/total*100)`. Rounding errors of the float product are not modelled.
- Text.Lower: lower-cases the ASCII letters only. `toLowerCase` covers all of Unicode. Characters are Unicode scalar values, not UTF-16 code units.
- Theme.TitleFor: treats the title table as a plain map. A JavaScript object lookup also finds inherited properties such as `toString`; the selector only offers theme ids, so this is not modelled.
- Store.AddKeepsValid: assumes the new id is fresh. `Date.now()` can repeat (two adds in one millisecond, a clock set back), and then the list gets two tasks with one id.
- Store.Edit: models one key press after the edit box opens. Any re-render removes the edit box, so no later event can reach a stale task.
- Store.Edit: tasks are values, so object identity is not modelled. The code writes the new text into the object `find` returned; after a drop has collapsed two tasks onto one object, that object sits in the list twice and the write renames both entries, while the model renames only the first. With unique ids (the list invariant; a collapsing drop or a repeated `Date.now()` breaks it, and only the collapse makes two entries one object) the two agree.
