/**
  Rationing of a repeating log line. The clock is a parameter; an absent `last`
  is Go's zero time.
 */
module Throttle {
  import opened Wrappers

  datatype Ration = Ration(every: int, last: Option<int>, suppressed: nat)

  function Ask(r: Ration, now: int): (Ration, Option<nat>) {
    if r.last.Some? && now - r.last.value < r.every then (r.(suppressed := r.suppressed + 1), None)
    else (r.(last := Some(now), suppressed := 0), Some(r.suppressed))
  }

  function Forget(r: Ration): Ration {
    r.(last := None, suppressed := 0)
  }

  class Throttle {
    const every: int
    var last: Option<int>
    var suppressed: nat

    constructor (every: int)
      ensures View() == Ration(every, None, 0)
    {
      this.every := every;
      last := None;
      suppressed := 0;
    }

    function View(): Ration
      reads this
    {
      Ration(every, last, suppressed)
    }

    method Allow(now: int) returns (allowed: bool, n: nat)
      modifies this
      ensures (View(), if allowed then Some(n) else None) == Ask(old(View()), now)
      ensures !allowed ==> n == 0
    {
      if last.Some? && now - last.value < every {
        suppressed := suppressed + 1;
        return false, 0;
      }
      n := suppressed;
      suppressed := 0;
      last := Some(now);
      allowed := true;
    }

    method Reset()
      modifies this
      ensures View() == Forget(old(View()))
    {
      last := None;
      suppressed := 0;
    }
  }

  datatype Call = Allow(now: int) | Reset

  /**
    A throttle with the history of its calls: `window` holds the times allowed
    since the last reset, `since` counts the calls denied since the last one that
    was allowed or a reset.
   */
  datatype Account =
    Account(ration: Ration, denied: nat, reported: nat, discarded: nat, since: nat, window: seq<int>)

  function Post(a: Account, call: Call): Account {
    match call
    case Reset => Account(Forget(a.ration), a.denied, a.reported, a.discarded + a.ration.suppressed, 0, [])
    case Allow(now) =>
      var (ration, answer) := Ask(a.ration, now);
      if answer.None? then a.(ration := ration, denied := a.denied + 1, since := a.since + 1)
      else a.(ration := ration, reported := a.reported + answer.value, since := 0, window := a.window + [now])
  }

  function PostAll(a: Account, calls: seq<Call>): Account
    decreases |calls|
  {
    if calls == [] then a else PostAll(Post(a, calls[0]), calls[1..])
  }

  function Fresh(every: int): Account {
    Account(Ration(every, None, 0), 0, 0, 0, 0, [])
  }

  ghost predicate Spaced(window: seq<int>, every: int) {
    forall i | 0 <= i < |window| - 1 :: window[i] + every <= window[i + 1]
  }

  ghost predicate Kept(a: Account) {
    && a.denied == a.reported + a.discarded + a.ration.suppressed
    && a.since == a.ration.suppressed
    && a.ration.last == (if a.window == [] then None else Some(a.window[|a.window| - 1]))
    && Spaced(a.window, a.ration.every)
  }

  lemma {:induction false} PostAllKeeps(a: Account, calls: seq<Call>)
    requires Kept(a)
    ensures Kept(PostAll(a, calls)) && PostAll(a, calls).ration.every == a.ration.every
    decreases |calls|
  {
    if calls != [] {
      PostAllKeeps(Post(a, calls[0]), calls[1..]);
    }
  }

  /** n intervals of the given length. */
  function Span(n: nat, every: int): int {
    if n == 0 then 0 else Span(n - 1, every) + every
  }

  lemma {:induction false} SpacedFar(window: seq<int>, every: int, i: nat, j: nat)
    requires Spaced(window, every) && i <= j < |window|
    ensures window[i] + Span(j - i, every) <= window[j]
    decreases j
  {
    if i < j {
      SpacedFar(window, every, i, j - 1);
    }
  }

  /**
    Over any calls, with no assumption about the clock: every suppressed line is
    accounted for; a call is allowed exactly when none was since construction or
    the last reset, or the last such is at least `every` ago, and is then told of
    the calls denied in between; and the allowed calls of one window are that far
    apart.
   */
  lemma ThrottleKeepsItsWord(every: int, calls: seq<Call>, now: int)
    ensures var a := PostAll(Fresh(every), calls);
      && a.denied == a.reported + a.discarded + a.ration.suppressed
      && (var answer := Ask(a.ration, now).1;
          && (answer.Some? <==> a.window == [] || now - a.window[|a.window| - 1] >= every)
          && (answer.Some? ==> answer.value == a.since))
      && (forall i, j | 0 <= i < j < |a.window| :: a.window[i] + Span(j - i, every) <= a.window[j])
  {
    var a := PostAll(Fresh(every), calls);
    PostAllKeeps(Fresh(every), calls);
    forall i, j | 0 <= i < j < |a.window|
      ensures a.window[i] + Span(j - i, every) <= a.window[j]
    {
      SpacedFar(a.window, every, i, j);
    }
  }
}
