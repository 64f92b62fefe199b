/**
 * The colour palette and the generation of a level's target sequence.
 *
 * The component draws each target colour as palette[floor(random * 6)] with a fresh random
 * number in [0, 1). Randomness is not modelled: the random numbers are supplied by the caller.
 */
module Target {

  /** A colour as the component handles it: a CSS colour string. */
  type Color = string

  /** The six selectable colours, in palette order. */
  const Palette: seq<Color> := ["#2ecc71", "#e74c3c", "#f1c40f", "#9b59b6", "#e67e22", "#3498db"]

  /** A random number as the source of randomness delivers it: in the half-open interval [0, 1). */
  predicate IsRandom(r: real) {
    0.0 <= r < 1.0
  }

  /** Random numbers enough for a level: exactly one per position of the target. */
  predicate ValidRandoms(randoms: seq<real>, level: nat) {
    |randoms| == level && forall i :: 0 <= i < |randoms| ==> IsRandom(randoms[i])
  }

  /** A target for a level: one palette colour per position. */
  predicate IsTarget(t: seq<Color>, level: nat) {
    |t| == level && forall i :: 0 <= i < |t| ==> t[i] in Palette
  }

  /** The palette index chosen for random number r: floor(r * |Palette|). */
  function DrawIndex(r: real): (k: nat)
    requires IsRandom(r)
    ensures k < |Palette|
  {
    (r * |Palette| as real).Floor
  }

  /** Each palette index is drawn for exactly one sixth of [0, 1), so every colour is equally likely. */
  lemma DrawUniform(r: real, k: nat)
    requires IsRandom(r)
    ensures DrawIndex(r) == k <==> k as real / 6.0 <= r < (k + 1) as real / 6.0
  {
  }

  /** The target sequence of a level: one palette colour per random number, in order. */
  function Generate(level: nat, randoms: seq<real>): (t: seq<Color>)
    requires ValidRandoms(randoms, level)
    ensures IsTarget(t, level)
  {
    seq(level, i requires 0 <= i < level => Palette[DrawIndex(randoms[i])])
  }

  /** The position of a palette colour in the palette. */
  ghost function IndexOf(c: Color): (k: nat)
    requires c in Palette
    ensures k < |Palette| && Palette[k] == c
  {
    var k: nat :| k < |Palette| && Palette[k] == c; k
  }

  /** Every target of a level, and nothing else, can be generated: generation is onto the targets. */
  lemma GenerateCovers(level: nat, t: seq<Color>)
    requires IsTarget(t, level)
    ensures exists randoms :: ValidRandoms(randoms, level) && Generate(level, randoms) == t
  {
    var randoms := seq(level, i requires 0 <= i < level => IndexOf(t[i]) as real / 6.0);
    forall i | 0 <= i < level
      ensures IsRandom(randoms[i]) && DrawIndex(randoms[i]) == IndexOf(t[i])
    {
      DrawUniform(randoms[i], IndexOf(t[i]));
    }
    assert ValidRandoms(randoms, level);
    assert Generate(level, randoms) == t;
  }
}
