/** What several modules share: an optional value, and the machine's numbers. */
module Wrappers {
  datatype Option<+T> = None | Some(value: T)

  const TWO_TO_THE_16: nat := 0x1_0000
  const TWO_TO_THE_32: nat := 0x1_0000_0000
  const TWO_TO_THE_64: nat := 0x1_0000_0000_0000_0000

  type Byte = b: nat | b < 0x100

  /** What holds at first and is kept by every step holds all along a run. */
  lemma {:induction false} RunInduction<S>(run: seq<S>, next: (S, S) -> bool, inv: S -> bool, i: nat)
    requires i < |run| && inv(run[0])
    requires forall k :: 0 <= k < |run| - 1 ==> next(run[k], run[k + 1])
    requires forall a, b :: inv(a) && next(a, b) ==> inv(b)
    ensures inv(run[i])
  {
    if i > 0 { RunInduction(run, next, inv, i - 1); }
  }
}
