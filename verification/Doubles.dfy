// The numbers that the 64-bit patterns of a checkpoint stand for, as IEEE 754 lays a double out, and what the
// checks on patterns say of them.
module Doubles {
  import opened Checkpoint

  const FRACTIONS: nat := 0x10_0000_0000_0000

  datatype Double = Number(value: real) | Infinite | NotANumber

  function Power(e: nat): (p: real)
    ensures p > 0.0
  {
    if e == 0 then 1.0 else 2.0 * Power(e - 1)
  }

  // Sign, eleven bits of exponent, fifty-two of fraction. An exponent of all ones is no number; one of zero has
  // no leading one bit.
  function Value(bits: nat): Double {
    var fraction, exponent := bits % FRACTIONS, bits / FRACTIONS % 2048;
    var magnitude := if exponent == 0 then Unit(0, fraction) else Unit(exponent - 1, FRACTIONS + fraction);
    if exponent == 2047 then (if fraction == 0 then Infinite else NotANumber)
    else if bits / FRACTIONS / 2048 == 1 then Number(-magnitude) else Number(magnitude)
  }

  // Units of the smallest number, 2 to the power -1074.
  function Unit(exponent: nat, significand: nat): real {
    significand as real * Power(exponent) / Power(1074)
  }

  lemma UnitSign(exponent: nat, significand: nat)
    ensures Unit(exponent, significand) >= 0.0
    ensures Unit(exponent, significand) == 0.0 <==> significand == 0
  {
    var p, q, s := Power(exponent), Power(1074), significand as real;
    if significand > 0 {
      Positive(s, p, q);
    }
  }

  lemma Positive(s: real, p: real, q: real)
    requires s > 0.0 && p > 0.0 && q > 0.0
    ensures s * p / q > 0.0
  {
    assert s * p > 0.0;
  }

  // A pattern is finite when it stands for a number, and negative when that number is below zero: minus zero is not.
  lemma ChecksMean(bits: nat)
    requires bits < WORD
    ensures Finite(bits) <==> Value(bits).Number?
    ensures Finite(bits) ==> (Negative(bits) <==> Value(bits).value < 0.0)
  {
    var fraction, exponent := bits % FRACTIONS, bits / FRACTIONS % 2048;
    UnitSign(0, fraction);
    if exponent > 0 {
      UnitSign(exponent - 1, FRACTIONS + fraction);
    }
    Parts(bits);
  }

  lemma Parts(bits: nat)
    requires bits < WORD
    ensures bits / FRACTIONS / 2048 <= 1
    ensures bits == (bits / FRACTIONS / 2048) * 0x8000_0000_0000_0000 + (bits / FRACTIONS % 2048) * FRACTIONS + bits % FRACTIONS
  {
  }

  // The values a node may be stored with: finite, no negative strategy sum, and with CFR+ no negative regret.
  ghost predicate Sound(r: Record, variant: Variant) {
    && (forall i :: 0 <= i < |r.regrets| ==> r.regrets[i] < WORD && Value(r.regrets[i]).Number?)
    && (forall i :: 0 <= i < |r.strategies| ==>
          r.strategies[i] < WORD && Value(r.strategies[i]).Number? && Value(r.strategies[i]).value >= 0.0)
    && (variant.CfrPlus? ==> forall i :: 0 <= i < |r.regrets| ==> Value(r.regrets[i]).value >= 0.0)
  }

  lemma ValuesMean(values: seq<nat>, kind: Kind)
    requires kind != Anything
    ensures ValuesOk(values, kind) <==>
      forall i :: 0 <= i < |values| ==>
        values[i] < WORD && Value(values[i]).Number? && (kind == NonNegative ==> Value(values[i]).value >= 0.0)
  {
    forall i | 0 <= i < |values| && values[i] < WORD
      ensures Acceptable(values[i], kind) <==>
        Value(values[i]).Number? && (kind == NonNegative ==> Value(values[i]).value >= 0.0)
    {
      ChecksMean(values[i]);
    }
  }

  // Which nodes are written and which are accepted.
  lemma RecordMeans(r: Record, game: Game, variant: Variant)
    ensures RecordOk(r, game, variant) <==>
      && -0x8000_0000_0000_0000 <= r.key <= 0x7FFF_FFFF_FFFF_FFFF
      && 1 <= |r.regrets| == |r.strategies| <= game.maxLegalActions && |r.regrets| < WORD
      && Sound(r, variant)
  {
    ValuesMean(r.regrets, RegretKind(variant));
    ValuesMean(r.strategies, NonNegative);
  }
}
