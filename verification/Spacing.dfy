/** Instants that keep a distance. */
module Spacing {

  ghost predicate Spaced(ts: seq<int>, gap: int) {
    forall i :: 0 <= i < |ts| - 1 ==> ts[i] + gap <= ts[i + 1]
  }

  /** Their number, less one, times the distance fits into the time they span. */
  lemma {:induction false} SpacedBound(ts: seq<int>, gap: int)
    requires ts != [] && Spaced(ts, gap)
    ensures (|ts| - 1) * gap <= ts[|ts| - 1] - ts[0]
  {
    var n := |ts| - 1;
    if n > 0 {
      SpacedBound(ts[..n], gap);
      assert n * gap == (n - 1) * gap + gap;
    }
  }
}
