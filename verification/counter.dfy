/** The portfolio page's counter: a count that the Increment, Decrement and
    Reset buttons update, with the button's name as the event. */
module Counter {
  import opened JsMath

  /** `handleClick(kind)`: one more, one fewer but never below zero, or back to zero;
      any other event name leaves the count alone. */
  function Step(count: int, kind: string): (r: int)
    ensures kind == "increment" ==> r == count + 1
    ensures kind == "decrement" ==> r >= 0 && (count >= 1 ==> r == count - 1) && (count <= 0 ==> r == 0)
    ensures kind == "reset" ==> r == 0
    ensures kind != "increment" && kind != "decrement" && kind != "reset" ==> r == count
  {
    if kind == "increment" then count + 1
    else if kind == "decrement" then Max(0, count - 1)
    else if kind == "reset" then 0
    else count
  }

  /** The count after the events, in order. */
  function Run(count: int, kinds: seq<string>): int
    decreases |kinds|
  {
    if |kinds| == 0 then count else Run(Step(count, kinds[0]), kinds[1..])
  }

  function Occurrences(kinds: seq<string>, kind: string): nat {
    if |kinds| == 0 then 0
    else (if kinds[0] == kind then 1 else 0) + Occurrences(kinds[1..], kind)
  }

  /** Starting at a non-negative count, no sequence of clicks makes it negative. */
  lemma {:induction false} RunNonNegative(count: int, kinds: seq<string>)
    requires count >= 0
    ensures Run(count, kinds) >= 0
    decreases |kinds|
  {
    if |kinds| > 0 {
      RunNonNegative(Step(count, kinds[0]), kinds[1..]);
    }
  }

  /** From a non-negative start, the count never exceeds where it started plus
      the number of increments. */
  lemma {:induction false} RunBoundedByIncrements(count: int, kinds: seq<string>)
    requires count >= 0
    ensures Run(count, kinds) <= count + Occurrences(kinds, "increment")
    decreases |kinds|
  {
    if |kinds| > 0 {
      RunBoundedByIncrements(Step(count, kinds[0]), kinds[1..]);
    }
  }

  lemma {:induction false} RunConcat(count: int, a: seq<string>, b: seq<string>)
    ensures Run(count, a + b) == Run(Run(count, a), b)
    decreases |a|
  {
    if |a| == 0 {
      assert a + b == b;
    } else {
      assert (a + b)[1..] == a[1..] + b;
      RunConcat(Step(count, a[0]), a[1..], b);
    }
  }

  /** After a reset, the history before it no longer matters. */
  lemma ResetForgetsHistory(count: int, before: seq<string>, after: seq<string>)
    ensures Run(count, before + ["reset"] + after) == Run(0, after)
  {
    RunConcat(count, before + ["reset"], after);
    RunConcat(count, before, ["reset"]);
    assert ["reset"][1..] == [];
  }

  /** Clicks that are all increments count themselves, from any start. */
  lemma {:induction false} IncrementsCount(count: int, n: nat)
    ensures Run(count, seq(n, _ => "increment")) == count + n
    decreases n
  {
    if n > 0 {
      var kinds := seq(n, _ => "increment");
      assert kinds[1..] == seq(n - 1, _ => "increment");
      IncrementsCount(count + 1, n - 1);
    }
  }
}
