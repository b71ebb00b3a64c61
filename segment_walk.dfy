/**
  The segment walk of `_loadMediaManifest` in index.js. The loop walks the
  playlist's original item list (captured before the loop), adds each
  `#EXTINF` duration to `length`, and while the running total is still
  below the target it reassigns the stored item list to itself followed by
  another copy of the captured original. It never cuts the list: the stored
  list ends as a whole number of copies of the original.
 */
module SegmentWalk {
  import opened M3u

  /** Sum of the durations, added left to right as the loop does. */
  function Sum(s: seq<Segment>): real
  {
    if s == [] then 0.0 else Sum(s[..|s| - 1]) + s[|s| - 1].duration
  }

  /** `n` copies of `s`, one after the other. */
  function Repeat(s: seq<Segment>, n: nat): seq<Segment>
  {
    if n == 0 then [] else Repeat(s, n - 1) + s
  }

  predicate NonNegative(s: seq<Segment>)
  {
    forall k :: 0 <= k < |s| ==> s[k].duration >= 0.0
  }

  /** First `k >= from` whose prefix sum reaches `target`, else `|s|`. */
  function StopFrom(s: seq<Segment>, target: real, from: nat): (r: nat)
    requires from <= |s|
    ensures from <= r <= |s|
    ensures r < |s| ==> Sum(s[..r]) >= target
    ensures forall j :: from <= j < r ==> Sum(s[..j]) < target
    decreases |s| - from
  {
    if from == |s| || Sum(s[..from]) >= target then from
    else StopFrom(s, target, from + 1)
  }

  /**
    Number of items the walk consumes: the least `k` with
    `Sum(s[..k]) >= target`, or `|s|` if no prefix reaches it.
   */
  function StopIndex(s: seq<Segment>, target: real): nat
  {
    StopFrom(s, target, 0)
  }

  /** How many of the prefix sums `Sum(s[..1])`, ..., `Sum(s[..n])` are below `target`. */
  function CountBelow(s: seq<Segment>, target: real, n: nat): (r: nat)
    requires n <= |s|
    ensures r <= n
  {
    if n == 0 then 0
    else CountBelow(s, target, n - 1) + (if Sum(s[..n]) < target then 1 else 0)
  }

  /** Number of self-appends the walk performs: one per walked prefix sum below the target. */
  function Appends(s: seq<Segment>, target: real): nat
  {
    CountBelow(s, target, StopIndex(s, target))
  }

  /**
    The loop of index.js lines 69-85. `stored` is the playlist's current
    item list, which is also the list the loop captures; `items` is what the
    playlist's item list is when the loop ends, `length` the final running
    total and `steps` the final value of `i`.
   */
  method Walk(stored: seq<Segment>, target: real) returns (items: seq<Segment>, length: real, steps: nat)
    ensures steps == StopIndex(stored, target) && steps <= |stored|
    ensures length == Sum(stored[..steps])
    ensures items == Repeat(stored, 1 + Appends(stored, target))
  {
    var playlistItems := stored;
    ghost var copies := 1;
    items := stored;
    length := 0.0;
    var i := 0;
    WalkStart(playlistItems, target);
    while i < |playlistItems| && length < target
      invariant WalkInvariant(playlistItems, target, i, length, copies, items)
    {
      WalkStep(playlistItems, target, i, length, copies, items);
      length := length + playlistItems[i].duration;
      if length < target {
        items := items + playlistItems;
        copies := copies + 1;
      }
      i := i + 1;
    }
    WalkExit(playlistItems, target, i, length, copies, items);
    steps := i;
  }

  /**
    What holds after `i` iterations: no earlier stop was passed, `length` is
    the total of the first `i` items and `items` holds one copy of `s` per
    prefix sum so far below the target, plus the original.
   */
  predicate WalkInvariant(s: seq<Segment>, target: real, i: nat, length: real, copies: nat, items: seq<Segment>)
  {
    && i <= StopIndex(s, target)
    && length == Sum(s[..i])
    && copies == 1 + CountBelow(s, target, i)
    && items == Repeat(s, copies)
  }

  lemma WalkStart(s: seq<Segment>, target: real)
    ensures WalkInvariant(s, target, 0, 0.0, 1, s)
  {
    RepeatOnce(s);
  }

  /** One more item walked: the running total and the append count advance by one step. */
  lemma WalkStep(s: seq<Segment>, target: real, i: nat, length: real, copies: nat, items: seq<Segment>)
    requires WalkInvariant(s, target, i, length, copies, items)
    requires i < |s| && length < target
    ensures var length' := length + s[i].duration;
      if length' < target then WalkInvariant(s, target, i + 1, length', copies + 1, items + s)
      else WalkInvariant(s, target, i + 1, length', copies, items)
  {
    assert s[..i + 1][..i] == s[..i];
    RepeatSucc(s, copies);
  }

  /** The loop's exit condition holds exactly at the stop index. */
  lemma WalkExit(s: seq<Segment>, target: real, i: nat, length: real, copies: nat, items: seq<Segment>)
    requires WalkInvariant(s, target, i, length, copies, items)
    requires !(i < |s| && length < target)
    ensures i == StopIndex(s, target) && i <= |s|
    ensures length == Sum(s[..i])
    ensures items == Repeat(s, 1 + Appends(s, target))
  {
  }

  lemma RepeatOnce(s: seq<Segment>)
    ensures Repeat(s, 1) == s
  {
    assert Repeat(s, 1) == Repeat(s, 0) + s;
  }

  lemma RepeatSucc(s: seq<Segment>, n: nat)
    ensures Repeat(s, n + 1) == Repeat(s, n) + s
  {
  }

  /** Any `k` that stops the loop and passes no earlier stop is the stop index. */
  lemma {:induction false} StopIndexUnique(s: seq<Segment>, target: real, k: nat)
    requires k <= |s|
    requires k < |s| ==> Sum(s[..k]) >= target
    requires forall j :: 0 <= j < k ==> Sum(s[..j]) < target
    ensures StopIndex(s, target) == k
  {
  }

  /**
    Closed form of the append count: every walked prefix sum but the last is
    below the target, and the last is below it only when the whole list never
    reaches it.
   */
  lemma {:induction false} AppendsClosedForm(s: seq<Segment>, target: real)
    ensures var n := StopIndex(s, target);
      Appends(s, target) == if n == 0 then 0 else if Sum(s[..n]) < target then n else n - 1
  {
    var n := StopIndex(s, target);
    CountBelowAllBelow(s, target, if n == 0 then 0 else n - 1);
  }

  lemma {:induction false} CountBelowAllBelow(s: seq<Segment>, target: real, n: nat)
    requires n <= |s|
    requires forall j :: 0 < j <= n ==> Sum(s[..j]) < target
    ensures CountBelow(s, target, n) == n
  {
    if n > 0 {
      CountBelowAllBelow(s, target, n - 1);
    }
  }

  lemma {:induction false} CountBelowNoneBelow(s: seq<Segment>, target: real, from: nat, n: nat)
    requires from <= n <= |s|
    requires forall j :: from < j <= n ==> Sum(s[..j]) >= target
    ensures CountBelow(s, target, n) == CountBelow(s, target, from)
    decreases n
  {
    if n > from {
      CountBelowNoneBelow(s, target, from, n - 1);
    }
  }

  /** With non-negative durations the prefix sums never decrease. */
  lemma {:induction false} SumMonotone(s: seq<Segment>, i: nat, j: nat)
    requires NonNegative(s)
    requires i <= j <= |s|
    ensures Sum(s[..i]) <= Sum(s[..j])
    decreases j
  {
    if i < j {
      assert s[..j][..j - 1] == s[..j - 1];
      SumMonotone(s, i, j - 1);
    }
  }

  /**
    With non-negative durations, the number of self-appends is the number
    of all prefix sums `Sum(s[..1])`, ..., `Sum(s[..|s|])` below the target:
    once the walk stops, no later prefix falls below it again.
   */
  lemma {:induction false} AppendsCountsPrefixesBelow(s: seq<Segment>, target: real)
    requires NonNegative(s)
    ensures Appends(s, target) == CountBelow(s, target, |s|)
  {
    var n := StopIndex(s, target);
    if n < |s| {
      forall j | n < j <= |s|
        ensures Sum(s[..j]) >= target
      {
        SumMonotone(s, n, j);
      }
      CountBelowNoneBelow(s, target, n, |s|);
    }
  }

  /** A target of zero or less stops the walk before the first item: nothing is appended. */
  lemma {:induction false} NonPositiveTargetUnchanged(s: seq<Segment>, target: real)
    requires target <= 0.0
    ensures StopIndex(s, target) == 0 && Appends(s, target) == 0
    ensures Repeat(s, 1 + Appends(s, target)) == s
  {
    assert s[..0] == [];
    StopIndexUnique(s, target, 0);
    assert Repeat(s, 1) == Repeat(s, 0) + s;
  }

  /**
    On exit the running total is the first prefix sum that reaches the
    target, or the total of the whole list when none does.
   */
  lemma {:induction false} WalkLength(s: seq<Segment>, target: real)
    ensures var n := StopIndex(s, target);
      && (Sum(s[..n]) >= target ==> forall j :: 0 <= j < n ==> Sum(s[..j]) < target)
      && (Sum(s[..n]) < target ==> n == |s| && Sum(s[..n]) == Sum(s))
  {
    var n := StopIndex(s, target);
    assert s[..|s|] == s;
  }

  lemma {:induction false} RepeatAdd(s: seq<Segment>, m: nat, n: nat)
    ensures Repeat(s, m) + Repeat(s, n) == Repeat(s, m + n)
    decreases n
  {
    if n > 0 {
      RepeatAdd(s, m, n - 1);
      calc {
        Repeat(s, m) + Repeat(s, n);
        Repeat(s, m) + (Repeat(s, n - 1) + s);
        (Repeat(s, m) + Repeat(s, n - 1)) + s;
        Repeat(s, m + n - 1) + s;
      }
    }
  }

  /** Walking a list that is already `a` copies of `s` gives `a * b` copies of `s`. */
  lemma {:induction false} RepeatRepeat(s: seq<Segment>, a: nat, b: nat)
    ensures Repeat(Repeat(s, a), b) == Repeat(s, a * b)
    decreases b
  {
    if b > 0 {
      RepeatRepeat(s, a, b - 1);
      RepeatAdd(s, a * (b - 1), a);
      assert a * (b - 1) + a == a * b;
    }
  }

  lemma {:induction false} RepeatLength(s: seq<Segment>, n: nat)
    ensures |Repeat(s, n)| == n * |s|
  {
    if n > 0 {
      RepeatLength(s, n - 1);
      assert (n - 1) * |s| + |s| == n * |s|;
    }
  }

  /**
    Only the list is lengthened: the first `|s|` items are the original
    list, and every item of the result is an item of the original, durations
    included.
   */
  lemma {:induction false} RepeatKeepsItems(s: seq<Segment>, n: nat)
    requires n >= 1
    ensures Repeat(s, n)[..|s|] == s
    ensures forall x :: x in Repeat(s, n) ==> x in s
  {
    RepeatLength(s, n);
    RepeatAdd(s, 1, n - 1);
    assert Repeat(s, 1) == s by {
      assert Repeat(s, 1) == Repeat(s, 0) + s;
    }
    RepeatItemsFrom(s, n);
  }

  lemma {:induction false} RepeatItemsFrom(s: seq<Segment>, n: nat)
    ensures forall x :: x in Repeat(s, n) ==> x in s
  {
    if n > 0 {
      RepeatItemsFrom(s, n - 1);
      assert Repeat(s, n) == Repeat(s, n - 1) + s;
    }
  }

  lemma {:induction false} SumConcat(a: seq<Segment>, b: seq<Segment>)
    ensures Sum(a + b) == Sum(a) + Sum(b)
    decreases |b|
  {
    if b != [] {
      var b' := b[..|b| - 1];
      assert (a + b)[..|a + b| - 1] == a + b';
      SumConcat(a, b');
    } else {
      assert a + b == a;
    }
  }

  /** The walked playlist lasts `1 + Appends` times the original. */
  lemma {:induction false} SumRepeat(s: seq<Segment>, n: nat)
    ensures Sum(Repeat(s, n)) == (n as real) * Sum(s)
  {
    if n > 0 {
      SumRepeat(s, n - 1);
      SumConcat(Repeat(s, n - 1), s);
    }
  }
}
