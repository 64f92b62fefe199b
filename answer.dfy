/**
 * The player's answer buffer and its comparison with the target.
 *
 * The buffer is a JavaScript array of colours. A write past its end grows it and leaves
 * holes, and reading a hole or past the end gives undefined; here both are an unset slot.
 */
module Answer {
  import opened Options
  import opened Target

  /** One answer slot: the colour dropped there, or unset. */
  type Slot = Option<Color>

  /** Slot i of the buffer as the component reads it: unset past the end. */
  function SlotAt(buf: seq<Slot>, i: nat): Slot {
    if i < |buf| then buf[i] else None
  }

  /** A buffer holding exactly the target, slot by slot. */
  function Expected(t: seq<Color>): seq<Slot> {
    seq(|t|, i requires 0 <= i < |t| => Some(t[i]))
  }

  /** The drop handler's update: a copy of the buffer with colour c written at index. */
  function Assign(buf: seq<Slot>, index: nat, c: Color): (r: seq<Slot>)
    ensures |r| == if index < |buf| then |buf| else index + 1
    ensures forall j: nat :: SlotAt(r, j) == if j == index then Some(c) else SlotAt(buf, j)
  {
    if index < |buf| then buf[index := Some(c)]
    else buf + seq(index - |buf|, _ => None) + [Some(c)]
  }

  /** Of two drops at the same slot the later one wins; with equal colours a repeated drop changes nothing. */
  lemma AssignLastWriteWins(buf: seq<Slot>, index: nat, c: Color, d: Color)
    ensures Assign(Assign(buf, index, c), index, d) == Assign(buf, index, d)
  {
  }

  /** Drops at two different slots do not interfere: their order does not matter. */
  lemma AssignCommutes(buf: seq<Slot>, i: nat, c: Color, j: nat, d: Color)
    requires i != j
    ensures Assign(Assign(buf, i, c), j, d) == Assign(Assign(buf, j, d), i, c)
  {
  }

  /**
   * The check's verdict: every target position holds its target colour in the buffer.
   * An unset slot matches no colour; slots past the target's length are not looked at.
   */
  predicate IsCorrect(target: seq<Color>, buf: seq<Slot>): (ok: bool)
    ensures target == [] ==> ok
    ensures ok && 0 < |target| ==> SlotAt(buf, |target| - 1) == Some(target[|target| - 1])
    ensures ok ==> |target| <= |buf|
  {
    forall i :: 0 <= i < |target| ==> SlotAt(buf, i) == Some(target[i])
  }

  /** The answer is correct exactly when the buffer begins with the target, slot for slot. */
  lemma CorrectIffPrefix(target: seq<Color>, buf: seq<Slot>)
    ensures IsCorrect(target, buf) <==> |target| <= |buf| && buf[..|target|] == Expected(target)
  {
  }

  /** Slots past the target's length never change the verdict. */
  lemma ExtraSlotsIgnored(target: seq<Color>, buf: seq<Slot>, extra: seq<Slot>)
    requires |target| <= |buf|
    ensures IsCorrect(target, buf + extra) <==> IsCorrect(target, buf)
  {
  }

  /** An unset slot inside the target's length makes the answer wrong. */
  lemma UnsetSlotFails(target: seq<Color>, buf: seq<Slot>, i: nat)
    requires i < |target| && SlotAt(buf, i) == None
    ensures !IsCorrect(target, buf)
  {
  }

  /**
   * The comparison is order-sensitive: the target with two different colours swapped is a
   * wrong answer, although it holds the same colours.
   */
  lemma SwapFails(target: seq<Color>, i: nat, j: nat)
    requires i < |target| && j < |target| && target[i] != target[j]
    ensures multiset(Expected(target)[i := Some(target[j])][j := Some(target[i])]) == multiset(Expected(target))
    ensures !IsCorrect(target, Expected(target)[i := Some(target[j])][j := Some(target[i])])
  {
  }

  /** The buffer after a series of drops, each an (index, colour) pair, applied in order. */
  function DropAll(buf: seq<Slot>, drops: seq<(nat, Color)>): seq<Slot>
    decreases |drops|
  {
    if drops == [] then buf
    else Assign(DropAll(buf, drops[..|drops| - 1]), drops[|drops| - 1].0, drops[|drops| - 1].1)
  }

  /** The drops that place each target colour at its own slot, from the first slot to the last. */
  function TargetDrops(target: seq<Color>): seq<(nat, Color)> {
    seq(|target|, i requires 0 <= i < |target| => (i as nat, target[i]))
  }

  /** Dropping each target colour on its slot, in order, into an empty buffer yields a correct answer. */
  lemma {:induction false} TargetDropsSucceed(target: seq<Color>)
    ensures DropAll([], TargetDrops(target)) == Expected(target)
    ensures IsCorrect(target, DropAll([], TargetDrops(target)))
  {
    if target != [] {
      var n := |target| - 1;
      assert TargetDrops(target)[..n] == TargetDrops(target[..n]);
      TargetDropsSucceed(target[..n]);
      assert Expected(target[..n]) + [Some(target[n])] == Expected(target);
    }
  }
}
