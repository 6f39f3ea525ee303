/** Transfer Request Blocks: four 32-bit words. The last word is kept as the bit fields
    the driver declares for it, the first three as integers below 2^32. */
module Trb {
  import opened Wrappers

  type Word = x: int | 0 <= x < TWO_TO_THE_32

  /** The last word: cycle bit, bit 1 (toggle cycle / evaluate next), bits 2..9, the type in
      bits 10..15 and the upper half. */
  datatype Control = Control(cycle: bool, bit1: bool, flags: nat, trbType: nat, upper: nat)

  datatype Trb = Trb(w0: Word, w1: Word, w2: Word, ctl: Control)

  const NORMAL := 1
  const SETUP_STAGE := 2
  const DATA_STAGE := 3
  const STATUS_STAGE := 4
  const LINK := 6

  const ZERO := Trb(0, 0, 0, Control(false, false, 0, 0, 0))

  predicate FitsControl(c: Control) {
    c.flags < 256 && c.trbType < 64 && c.upper < TWO_TO_THE_16
  }

  function Bit(b: bool): nat {
    if b then 1 else 0
  }

  /** The 32-bit word the fields stand for. */
  function PackControl(c: Control): int {
    Bit(c.cycle) + 2 * Bit(c.bit1) + 4 * c.flags + 1024 * c.trbType + TWO_TO_THE_16 * c.upper
  }

  /** Successive right shifts, each followed by the mask of the field. */
  function UnpackControl(w: Word): Control {
    var a := w / 2;
    var b := a / 2;
    var c := b / 256;
    Control(w % 2 == 1, a % 2 == 1, b % 256, c % 64, c / 64)
  }

  /** `(w & 0xfffffffe) | cycle`, the mask the driver applies to the last word. */
  function MaskCycle(w: Word, cycle: bool): Word {
    w - w % 2 + Bit(cycle)
  }

  /** The field view loses nothing, and masking the word is setting the field. */
  lemma ControlIsWord(w: Word, cycle: bool)
    ensures FitsControl(UnpackControl(w)) && PackControl(UnpackControl(w)) == w
    ensures UnpackControl(MaskCycle(w, cycle)) == UnpackControl(w).(cycle := cycle)
  {
    assert MaskCycle(w, cycle) / 2 == w / 2;
  }

  /** A TRB with the cycle bit masked out: what the producer meant to say. */
  function Payload(t: Trb): Trb {
    t.(ctl := t.ctl.(cycle := false))
  }

  function Payloads(ts: seq<Trb>): (r: seq<Trb>)
    ensures |r| == |ts|
  {
    seq(|ts|, i requires 0 <= i < |ts| => Payload(ts[i]))
  }

  /** Word `i` of `t` replaced by word `i` of `d`. */
  function CopyWord(t: Trb, d: Trb, i: nat): Trb
    requires i < 4
  {
    if i == 0 then t.(w0 := d.w0) else if i == 1 then t.(w1 := d.w1)
    else if i == 2 then t.(w2 := d.w2) else t.(ctl := d.ctl)
  }

  /** A Link TRB: bits 4..63 of the first two words hold the target, bit 1 of the last
      word asks the consumer to toggle its cycle state. */
  function LinkTo(target: nat): Trb
    requires target < TWO_TO_THE_64
  {
    var p := target / 16 * 16;
    Trb(p % TWO_TO_THE_32, p / TWO_TO_THE_32, 0, Control(false, true, 0, LINK, 0))
  }

  function LinkTarget(t: Trb): nat {
    (t.w1 * TWO_TO_THE_32 + t.w0) / 16 * 16
  }

  /** Dropping the low four bits is harmless exactly for 16-byte aligned segments. The words are
      those of section 6.4.4.1 of the xHCI specification: type 6, toggle cycle in bit 1. */
  lemma LinkRoundTrip(target: nat)
    requires target < TWO_TO_THE_64
    ensures LinkTarget(LinkTo(target)) == target <==> target % 16 == 0
    ensures LinkTo(target).w0 + TWO_TO_THE_32 * LinkTo(target).w1 == target - target % 16
    ensures PackControl(LinkTo(target).ctl) == 0x400 * 6 + 2 && LinkTo(target).w2 == 0
  {
    var p := target / 16 * 16;
    assert p / TWO_TO_THE_32 * TWO_TO_THE_32 + p % TWO_TO_THE_32 == p;
  }

  lemma PayloadsTail(ts: seq<Trb>)
    requires |ts| > 0
    ensures Payloads(ts)[0] == Payload(ts[0]) && Payloads(ts)[1..] == Payloads(ts[1..])
  {
  }

  lemma PayloadsConcat(a: seq<Trb>, b: seq<Trb>)
    ensures Payloads(a + b) == Payloads(a) + Payloads(b)
  {
  }

  lemma MoveFirst(a: seq<Trb>, b: seq<Trb>)
    requires |b| > 0
    ensures a + [b[0]] + b[1..] == a + b
  {
  }
}
