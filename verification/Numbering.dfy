/** Sequence numbers of reliable messages: the 32-bit wrapping numbers the
    program uses and the unbounded naturals they stand for. */
module Numbering {

  const MODULUS: int := 0x1_0000_0000
  const HALF: int := 0x8000_0000
  const ONE_QUARTER: int := 0xFFFF_FFFF / 4
  const THREE_QUARTERS: int := ONE_QUARTER * 3
  /** Largest allowed distance between the oldest and the newest number in use. */
  const USABLE_INTERVAL: int := 65_536

  /** How numbers are represented.  `Wrapping` is the program's `Seq`;
      `Unbounded` is the reference in which no number is ever reused. */
  datatype Numbering = Unbounded | Wrapping

  datatype Ordering = Lesser | Equal | Greater

  /** The number that stands for the `n`-th message. */
  function Reduce(num: Numbering, n: nat): nat {
    if num.Wrapping? then n % MODULUS else n
  }

  function Advance(num: Numbering, s: nat, k: nat): nat {
    Reduce(num, s + k)
  }

  function Next(num: Numbering, s: nat): nat {
    Advance(num, s, 1)
  }

  /** Reinterpretation of an unsigned 32-bit value as a signed one. */
  function AsSigned(u: nat): int {
    if u < HALF then u else u - MODULUS
  }

  /** `wrapping_sub` followed by the cast to a signed integer. */
  function WrappingDiff(a: nat, b: nat): int {
    AsSigned((a - b) % MODULUS)
  }

  function Diff(num: Numbering, a: nat, b: nat): int {
    if num.Wrapping? then WrappingDiff(a, b) else a - b
  }

  function PlainCompare(a: nat, b: nat): Ordering {
    if a < b then Lesser else if a == b then Equal else Greater
  }

  /** The windowed comparison of two 32-bit numbers. */
  function WrappingCompare(a: nat, b: nat): Ordering {
    if a < ONE_QUARTER && b >= THREE_QUARTERS then Greater
    else if b < ONE_QUARTER && a >= THREE_QUARTERS then Lesser
    else PlainCompare(a, b)
  }

  function Compare(num: Numbering, a: nat, b: nat): Ordering {
    if num.Wrapping? then WrappingCompare(a, b) else PlainCompare(a, b)
  }

  predicate Less(num: Numbering, a: nat, b: nat) {
    Compare(num, a, b) == Lesser
  }

  // ---------------------------------------------------------------- exactness

  function Distance(a: nat, b: nat): nat {
    if a < b then b - a else a - b
  }

  lemma CompareWithinQuarter(a: nat, b: nat)
    requires Distance(a, b) <= ONE_QUARTER
    ensures WrappingCompare(a % MODULUS, b % MODULUS) == PlainCompare(a, b)
  {
    var p, q := a / MODULUS, b / MODULUS;
    assert a == p * MODULUS + a % MODULUS;
    assert b == q * MODULUS + b % MODULUS;
    assert p == q || p == q + 1 || q == p + 1;
  }

  /** The comparison agrees with the order of the messages on every pair at
      most `window` apart exactly when the window is at most one quarter. */
  lemma CompareExactIff(window: nat)
    ensures (forall a: nat, b: nat | Distance(a, b) <= window ::
               WrappingCompare(a % MODULUS, b % MODULUS) == PlainCompare(a, b))
            <==> window <= ONE_QUARTER
  {
    if window <= ONE_QUARTER {
      forall a: nat, b: nat | Distance(a, b) <= window
        ensures WrappingCompare(a % MODULUS, b % MODULUS) == PlainCompare(a, b)
      {
        CompareWithinQuarter(a, b);
      }
    } else {
      var a: nat, b: nat := MODULUS - 1, MODULUS + ONE_QUARTER;
      assert Distance(a, b) <= window;
      assert b % MODULUS == ONE_QUARTER;
      assert WrappingCompare(a % MODULUS, b % MODULUS) != PlainCompare(a, b);
    }
  }

  /** The signed difference of two wrapped numbers is the true difference
      exactly when that fits a signed 32-bit integer. */
  lemma DiffExactIff(a: nat, b: nat)
    ensures WrappingDiff(a % MODULUS, b % MODULUS) == a - b <==> -HALF <= a - b < HALF
  {
    assert (a % MODULUS - b % MODULUS) % MODULUS == (a - b) % MODULUS by {
      assert a % MODULUS - b % MODULUS == (a - b) + (b / MODULUS - a / MODULUS) * MODULUS;
      ShiftModulus(a - b, b / MODULUS - a / MODULUS);
    }
  }

  lemma ShiftModulus(x: int, k: int)
    ensures (x + k * MODULUS) % MODULUS == x % MODULUS
  {
  }

  /** Reducing before or after advancing gives the same number. */
  lemma AdvanceReduce(num: Numbering, n: nat, k: nat)
    ensures Advance(num, Reduce(num, n), k) == Reduce(num, n + k)
  {
  }

  /** Outside a window the comparison is not even an order: these three
      numbers form a cycle. */
  lemma CompareIsNotTransitive()
    ensures Less(Wrapping, 1, 0x4000_0000) && Less(Wrapping, 0x4000_0000, 0xC000_0000)
    ensures Less(Wrapping, 0xC000_0000, 1)
  {
  }
}
