/** Little-endian numbers in byte sequences. */
module Words {

  type Byte = b: int | 0 <= b < 256
  type Bytes = seq<Byte>

  /** n as k bytes, lowest first. */
  function Little(n: nat, k: nat): (r: Bytes)
    ensures |r| == k
  {
    if k == 0 then [] else [n % 256] + Little(n / 256, k - 1)
  }

  function Value(s: Bytes): nat
  {
    if s == [] then 0 else s[0] + 256 * Value(s[1..])
  }

  function Power(k: nat): nat
  {
    if k == 0 then 1 else 256 * Power(k - 1)
  }

  lemma {:induction false} ValueOfLittle(n: nat, k: nat)
    requires n < Power(k)
    ensures Value(Little(n, k)) == n
  {
    if k != 0 {
      ValueOfLittle(n / 256, k - 1);
      assert Little(n, k)[1..] == Little(n / 256, k - 1);
    }
  }
}
