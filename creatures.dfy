/**
 * What both stat generators share: the creature record, the stat triple, the level-weight
 * table, the 32-bit rolling hash of a name and the way three clamped components are derived
 * from the hash's absolute value, a base and a weight.
 */
module Creatures {
  import opened Wrappers
  import opened JsNumbers
  import opened JsStrings

  /** Attack, defence and special, as the cards show them. */
  datatype Stats = Stats(atk: int, def: int, esp: int)

  predicate InRange(s: Stats) {
    0 <= s.atk <= 100 && 0 <= s.def <= 100 && 0 <= s.esp <= 100
  }

  /**
   * A creature as the API lists it. An absent `name`, `img` or `level` is the empty string;
   * `supplied` is present when the record itself carries `atk`, `def` and `esp`.
   */
  datatype Digimon = Digimon(name: string, img: string, level: string, supplied: Option<Stats>)

  /** The level weights, in hundredths (0.6 is 60, 1.35 is 135). */
  const LevelWeights: map<string, nat> := map[
    "Fresh" := 60,
    "In Training" := 75,
    "In-Training" := 75,
    "Rookie" := 90,
    "Champion" := 105,
    "Ultimate" := 120,
    "Mega" := 135
  ]

  /** The weight of a level not in the table, 0.95. */
  const DefaultWeight: nat := 95

  /** The rolling hash after folding in `u` from the left: h := ToInt32(31 * h + unit). */
  function HashUnits(u: seq<int>): (h: int)
    ensures IsInt32(h)
  {
    if u == [] then 0 else ToInt32(31 * HashUnits(u[..|u| - 1]) + u[|u| - 1])
  }

  /** The hash of a name, over the UTF-16 code units that `charCodeAt` returns. */
  function NameHash(name: string): (h: int)
    ensures IsInt32(h)
  {
    HashUnits(Utf16(name))
  }

  /** The hashing loop as the source writes it, with a shift, a subtraction and `| 0`. */
  method HashOf(name: string) returns (h: int)
    ensures h == NameHash(name)
    ensures IsInt32(h)
  {
    var units := Utf16(name);
    h := 0;
    var i := 0;
    while i < |units|
      invariant 0 <= i <= |units|
      invariant h == HashUnits(units[..i])
    {
      ShiftStepIsPolynomial(h, units[i]);
      h := ToInt32(ShiftLeft(h, 5) - h + units[i]);
      assert units[..i + 1][..i] == units[..i];
      i := i + 1;
    }
    assert units[..i] == units;
  }

  /** The term added to the base for attack: `abs % 25`. */
  function AtkTerm(abs: int): (r: int)
    requires 0 <= abs <= TWO_31
    ensures -25 < r < 25
    ensures abs < TWO_31 ==> 0 <= r
  {
    JsRem(abs, 25)
  }

  /** The term added to the base for defence: `(abs >> 3) % 25`. */
  function DefTerm(abs: int): (r: int)
    requires 0 <= abs <= TWO_31
    ensures -25 < r < 25
    ensures abs < TWO_31 ==> 0 <= r
  {
    JsRem(ShiftRight(abs, 3), 25)
  }

  /** The term added to the base for special: `(abs >> 6) % 25`. */
  function EspTerm(abs: int): (r: int)
    requires 0 <= abs <= TWO_31
    ensures -25 < r < 25
    ensures abs < TWO_31 ==> 0 <= r
  {
    JsRem(ShiftRight(abs, 6), 25)
  }

  /**
   * For every absolute value below 2^31 the three terms are the plain residues of `abs`,
   * `abs / 8` and `abs / 64`, each in 0..24.
   */
  lemma TermsOfOrdinaryHash(abs: int)
    requires 0 <= abs < TWO_31
    ensures AtkTerm(abs) == abs % 25
    ensures DefTerm(abs) == (abs / 8) % 25 && 0 <= DefTerm(abs) < 25
    ensures EspTerm(abs) == (abs / 64) % 25 && 0 <= EspTerm(abs) < 25
  {
    assert Pow2(3) == 8 && Pow2(6) == 64;
  }

  /**
   * The one hash whose absolute value does not fit: Math.abs(-2^31) is 2^31, which `>>`
   * turns back into -2^31, so the defence and special terms come out negative.
   */
  lemma TermsOfMinimumHash()
    ensures JsAbs(-TWO_31) == TWO_31
    ensures AtkTerm(TWO_31) == 23
    ensures DefTerm(TWO_31) == -6
    ensures EspTerm(TWO_31) == -7
  {
    assert Pow2(3) == 8 && Pow2(6) == 64;
    assert ShiftRight(TWO_31, 3) == -268435456;
    assert ShiftRight(TWO_31, 6) == -33554432;
  }

  /** `Math.min(100, Math.round((base + term) * weight))`. */
  function Component(base: int, term: int, w: nat): (r: int)
    ensures r <= 100 && r <= RoundScaled(base + term, w)
    ensures r == 100 || r == RoundScaled(base + term, w)
    ensures base + term >= 0 ==> r >= 0
  {
    var v := base + term;
    assert v >= 0 ==> v * w >= 0;
    Min(100, RoundScaled(v, w))
  }

  /** The three components both generators compute from `abs`, a base and a weight. */
  function Derive(abs: int, base: int, w: nat): (s: Stats)
    requires 0 <= abs <= TWO_31
    ensures base >= 25 ==> InRange(s)
  {
    Stats(Component(base, AtkTerm(abs), w), Component(base, DefTerm(abs), w), Component(base, EspTerm(abs), w))
  }
}
