/** Bytes and fixed-width little-endian numbers, as the process writes them to a file. A number is
    read back from however many of its bytes there were; the missing ones count as zero, because the
    variable that is read into is zero before. Strings that are cut at byte positions use the same
    type of byte. */
module Bytes {
  import opened Seqs

  newtype byte = x: int | 0 <= x < 256

  function Pow256(width: nat): (p: nat)
    ensures p >= 1
  {
    if width == 0 then 1 else 256 * Pow256(width - 1)
  }

  function LittleEndian(n: nat, width: nat): (r: seq<byte>)
    ensures |r| == width
  {
    if width == 0 then [] else [(n % 256) as byte] + LittleEndian(n / 256, width - 1)
  }

  /** The number whose low bytes these are; reading fewer bytes than its width leaves the rest zero. */
  function Value(bytes: seq<byte>): nat {
    if bytes == [] then 0 else bytes[0] as int + 256 * Value(bytes[1..])
  }

  lemma {:induction false} ValueOfLittleEndian(n: nat, width: nat)
    requires n < Pow256(width)
    ensures Value(LittleEndian(n, width)) == n
  {
    if width > 0 {
      ValueOfLittleEndian(n / 256, width - 1);
      Cons((n % 256) as byte, LittleEndian(n / 256, width - 1));
    }
  }
}
