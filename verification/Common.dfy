/** Byte strings, results, and the few sequence facts that every component shares. */
module Common {
  /** A machine byte. */
  type Byte = x: int | 0 <= x < 256

  type Bytes = seq<Byte>

  datatype Option<+T> = None | Some(value: T)

  /** A Go `(value, error)` pair: the error text itself is not modelled. */
  datatype Result<+T> = Ok(value: T) | Err

  /** A 32-byte digest. */
  type Hash = b: Bytes | |b| == 32 witness seq(32, _ => 0)

  /** SHA256d is never looked into: every result holds for any function to 32-byte strings. */
  type Sha = Bytes -> Hash

  /** `n` zero bytes. */
  function Zeros(n: nat): (z: Bytes)
    ensures |z| == n
  {
    seq(n, _ => 0)
  }

  function Pow2(n: nat): (p: nat)
    ensures p > 0
  {
    if n == 0 then 1 else 2 * Pow2(n - 1)
  }

  lemma {:induction false} Pow2Add(a: nat, b: nat)
    ensures Pow2(a + b) == Pow2(a) * Pow2(b)
  {
    if a > 0 {
      Pow2Add(a - 1, b);
      assert Pow2(a + b) == 2 * (Pow2(a - 1) * Pow2(b));
    }
  }

  /** Two's-complement truncation to a signed 64-bit word. */
  function Wrap64(x: int): (w: int)
    ensures -0x8000_0000_0000_0000 <= w < 0x8000_0000_0000_0000
    ensures (x - w) % 0x1_0000_0000_0000_0000 == 0
  {
    var m := x % 0x1_0000_0000_0000_0000;
    if m < 0x8000_0000_0000_0000 then m else m - 0x1_0000_0000_0000_0000
  }
}
