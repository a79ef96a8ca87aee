/** The rolling sample histories of the editor's Hardware menu.

    ModuleUI keeps two of them, `frames` (the frame rate) and `miliseconds`
    (the frame time), and updates both with the same code each frame the
    Hardware menu is open: while a history holds fewer than `Capacity` samples
    the new sample is appended; once it is full every sample moves one slot to
    the left and the new sample overwrites the last slot. The sample values
    play no part in that logic, so the element type is a parameter here. */
module SampleHistory {

  /** Number of samples a history keeps before it starts dropping the oldest. */
  const Capacity: nat := 100

  /** Reference definition of one update: append while there is room,
      otherwise drop the oldest sample and append. */
  function Advance<T>(s: seq<T>, x: T): (r: seq<T>)
    ensures r != [] && r[|r| - 1] == x
  {
    if |s| >= Capacity then s[1..] + [x] else s + [x]
  }

  /** One update of a history, as ModuleUI does it: an index loop that moves
      every sample one slot to the left, then an overwrite of the last slot;
      or an append while the history is not yet full. */
  method Record<T>(s: seq<T>, x: T) returns (r: seq<T>)
    ensures |s| < Capacity ==> r == s + [x]
    ensures |s| >= Capacity ==> |r| == |s| && r[|r| - 1] == x
    ensures |s| >= Capacity ==> forall i :: 1 <= i < |s| ==> r[i - 1] == s[i]
    ensures r == Advance(s, x)
  {
    r := s;
    if |r| >= Capacity {
      var i := 1;
      while i < |r|
        invariant 1 <= i <= |r| == |s|
        invariant forall k :: 0 <= k < i - 1 ==> r[k] == s[k + 1]
        invariant forall k :: i - 1 <= k < |r| ==> r[k] == s[k]
      {
        r := r[i - 1 := r[i]];
        i := i + 1;
      }
      r := r[|r| - 1 := x];
    } else {
      r := r + [x];
    }
  }

  /** The history after the samples `xs` were pushed, in order, into an empty one. */
  function Replay<T>(xs: seq<T>): seq<T>
  {
    if xs == [] then [] else Advance(Replay(xs[..|xs| - 1]), xs[|xs| - 1])
  }

  function Min(a: nat, b: nat): nat
  {
    if a <= b then a else b
  }

  /** Starting from empty, a history never holds more than `Capacity` samples,
      is never empty once a sample was pushed (what the histogram's pointer to
      the first sample relies on), and always holds exactly the newest
      min(n, Capacity) samples in push order. */
  lemma {:induction false} ReplayKeepsNewest<T>(xs: seq<T>)
    ensures |Replay(xs)| == Min(|xs|, Capacity) <= Capacity
    ensures xs != [] ==> Replay(xs) != []
    ensures Replay(xs) == xs[|xs| - Min(|xs|, Capacity)..]
  {
    if xs != [] {
      var n := |xs|;
      var init := xs[..n - 1];
      ReplayKeepsNewest(init);
      if n - 1 >= Capacity {
        assert Replay(init) == xs[n - 1 - Capacity..n - 1];
        assert Replay(init)[1..] + [xs[n - 1]] == xs[n - Capacity..];
      } else {
        assert Replay(init) == xs[..n - 1];
        assert xs[..n - 1] + [xs[n - 1]] == xs;
      }
    }
  }

  /** A history that holds at most `Capacity` samples still does after an
      update, and is then not empty. */
  lemma AdvanceBounded<T>(s: seq<T>, x: T)
    requires |s| <= Capacity
    ensures 0 < |Advance(s, x)| <= Capacity
    ensures |Advance(s, x)| == Min(|s| + 1, Capacity)
  {
  }
}
