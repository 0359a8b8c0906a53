/** Shared vocabulary: optional values, bytes, and a few facts about sequences. */
module Common {

  datatype Option<+T> = None | Some(value: T)

  /** The source stores runtime data, and its per-byte initialization, in `char` vectors. */
  type Byte = x: int | 0 <= x < 256

  /** `s` with the elements starting at `at` overwritten by `with`. */
  function Splice<T>(s: seq<T>, at: nat, with: seq<T>): (r: seq<T>)
    requires at + |with| <= |s|
    ensures |r| == |s|
    ensures forall k | 0 <= k < |s| :: r[k] == if at <= k < at + |with| then with[k - at] else s[k]
  {
    s[..at] + with + s[at + |with|..]
  }

  function Fill(n: nat, b: Byte): (r: seq<Byte>)
    ensures |r| == n && forall k | 0 <= k < n :: r[k] == b
  {
    seq(n, _ => b)
  }

  /** The number that bytes stand for, the least significant first. */
  function FromLittle(s: seq<Byte>): nat {
    if s == [] then 0 else s[0] + 256 * FromLittle(s[1..])
  }

  // ---------------------------------------------------------------- floating point, by its bits

  /** Section 3.4 of IEEE 754: a NaN has an exponent of ones only and a fraction other than zero. */
  predicate IsSingleNaN(bits: nat) {
    bits / 0x80_0000 % 0x100 == 0xFF && bits % 0x80_0000 != 0
  }

  predicate IsDoubleNaN(bits: nat) {
    bits / 0x10_0000_0000_0000 % 0x800 == 0x7FF && bits % 0x10_0000_0000_0000 != 0
  }

  /** Section 5.11 of IEEE 754: a NaN equals nothing, and zeros are equal whatever their signs. */
  predicate SingleEquals(a: nat, b: nat) {
    && !IsSingleNaN(a) && !IsSingleNaN(b)
    && (a == b || (a % 0x8000_0000 == 0 && b % 0x8000_0000 == 0))
  }

  predicate DoubleEquals(a: nat, b: nat) {
    && !IsDoubleNaN(a) && !IsDoubleNaN(b)
    && (a == b || (a % 0x8000_0000_0000_0000 == 0 && b % 0x8000_0000_0000_0000 == 0))
  }

  /** The last key not above `a`: `upper_bound` followed by one step back. */
  function Floor(keys: set<nat>, a: nat): (r: Option<nat>)
    ensures r.Some? ==> r.value in keys && r.value <= a && forall k | k in keys && k <= a :: k <= r.value
    ensures r.None? ==> forall k | k in keys :: a < k
  {
    if a in keys then Some(a)
    else if a == 0 then None
    else Floor(keys, a - 1)
  }
}
