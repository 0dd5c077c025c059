/**
 `updateProgressBar` (script.js, lines 208-222): the share of completed tasks as a
 whole percentage, the motivation line chosen from it, and whether confetti fires.
 `Math.round(done / total * 100)` is computed exactly: the percentage is the
 integer nearest to 100 * done / total, halves rounded up.
 */
module Progress {
  import opened Seqs
  import opened Todos

  /** The rounded percentage of `done` out of `total`; 0 for an empty list. */
  function Percent(done: nat, total: nat): (pct: nat)
    requires done <= total
    ensures pct <= 100
    ensures total == 0 ==> pct == 0
    ensures total > 0 ==> 2 * total * pct <= 200 * done + total < 2 * total * (pct + 1)
  {
    if total == 0 then 0
    else
      var pct := (200 * done + total) / (2 * total);
      assert 200 * done + total < 2 * total * 101;
      pct
  }

  /** The percentage is 0 exactly when the list is empty or less than half a percent is done. */
  lemma PercentZero(done: nat, total: nat)
    requires done <= total
    ensures Percent(done, total) == 0 <==> total == 0 || 200 * done < total
  {
    if total > 0 {
      var pct := Percent(done, total);
      if pct > 0 {
        MulMonotone(2 * total, 1, pct);
      }
    }
  }

  /** The percentage is 100 exactly when at least 99.5 percent of a non-empty list is done. */
  lemma PercentFull(done: nat, total: nat)
    requires done <= total
    ensures Percent(done, total) == 100 <==> total > 0 && 200 * done >= 199 * total
  {
    if total > 0 {
      var pct := Percent(done, total);
      if pct == 100 {
        assert 200 * total <= 200 * done + total;
      } else {
        MulMonotone(2 * total, pct + 1, 100);
      }
    }
  }

  /** Multiplying by a natural number keeps the order. */
  lemma MulMonotone(a: nat, b: nat, c: nat)
    requires b <= c
    ensures a * b <= a * c
  {
  }

  /** Nothing done reads 0; everything done in a non-empty list reads 100. */
  lemma PercentEnds(total: nat)
    ensures Percent(0, total) == 0
    ensures total > 0 ==> Percent(total, total) == 100
  {
    PercentZero(0, total);
    PercentFull(total, total);
  }

  /** Two of four done reads 50; 199 of 200 already reads 100. */
  lemma PercentExamples()
    ensures Percent(2, 4) == 50
    ensures Percent(199, 200) == 100
    ensures Percent(1, 201) == 0
  {
    PercentFull(199, 200);
    PercentZero(1, 201);
  }

  /** How many tasks are completed, and the percentage they make of the list. */
  datatype Summary = Summary(done: nat, total: nat, pct: nat)

  function Summarize(todos: seq<Todo>): (s: Summary)
    ensures s.total == |todos|
    ensures s.done == |Keep(todos, (t: Todo) => t.completed)|
    ensures s.done <= s.total && s.pct == Percent(s.done, s.total)
    ensures s.done == 0 ==> s.pct == 0
    ensures s.total > 0 && s.done == s.total ==> s.pct == 100
  {
    var done := |Keep(todos, (t: Todo) => t.completed)|;
    PercentEnds(|todos|);
    Summary(done, |todos|, Percent(done, |todos|))
  }

  /** The motivation line under the bar. */
  datatype Motivation = GetStarted | MakingMoves | AlmostThere | DidIt

  /** The line chosen for a percentage: 0, below 50, below 100, and 100. */
  function MotivationFor(pct: nat): (m: Motivation)
    requires pct <= 100
    ensures m == GetStarted <==> pct == 0
    ensures m == MakingMoves <==> 0 < pct < 50
    ensures m == AlmostThere <==> 50 <= pct < 100
    ensures m == DidIt <==> pct == 100
  {
    if pct == 0 then GetStarted
    else if pct < 50 then MakingMoves
    else if pct < 100 then AlmostThere
    else DidIt
  }

  /** The words shown for each line; only the "did it" line celebrates. */
  function MotivationText(m: Motivation): (words: string)
    ensures words == "YOU DID IT 💥🔥" <==> m == DidIt
    ensures m == GetStarted <==> words == "Let’s get started!"
  {
    match m
    case GetStarted => "Let’s get started!"
    case MakingMoves => "You're making moves 🔄"
    case AlmostThere => "Almost there 🏁"
    case DidIt => "YOU DID IT 💥🔥"
  }

  /** Each line has its own words, so the text shown tells the line apart. */
  lemma MotivationTextDistinct(m1: Motivation, m2: Motivation)
    ensures MotivationText(m1) == MotivationText(m2) <==> m1 == m2
  {
  }

  /** Confetti fires exactly when the list is celebrated with "YOU DID IT". */
  function Confetti(pct: nat): (fire: bool)
    requires pct <= 100
    ensures fire <==> MotivationFor(pct) == DidIt
  {
    pct == 100
  }

  /** Confetti fires for a list exactly when it is non-empty and at least 99.5 percent done;
      a list with every task done always fires it, but one with tasks left can too. */
  lemma ConfettiForList(todos: seq<Todo>)
    ensures Confetti(Summarize(todos).pct) <==>
      |todos| > 0 && 200 * Summarize(todos).done >= 199 * |todos|
  {
    var s := Summarize(todos);
    PercentFull(s.done, s.total);
  }

}
