/**
 * Little-endian u32 writing, the one `byteorder` operation the reader uses,
 * and the matching read that decoders of its output rely on.
 */
module LittleEndian {
  import opened Ints

  /** `write_u32::<LittleEndian>`: least significant byte first. */
  function U32Le(n: u32): (r: seq<u8>)
    ensures |r| == 4
  {
    var n1 := n / 0x100;
    var n2 := n1 / 0x100;
    [n % 0x100, n1 % 0x100, n2 % 0x100, n2 / 0x100]
  }

  /** Reads back four little-endian bytes as a u32. */
  function U32FromLe(b: seq<u8>): u32
    requires |b| == 4
  {
    b[0] as int + 0x100 * (b[1] as int + 0x100 * (b[2] as int + 0x100 * b[3] as int))
  }

  /** Writing and then reading a u32 gives the value back. */
  lemma U32RoundTrip(n: u32)
    ensures U32FromLe(U32Le(n)) == n
  {
    var n1 := n / 0x100;
    var n2 := n1 / 0x100;
    assert n == n % 0x100 + 0x100 * n1;
    assert n1 == n1 % 0x100 + 0x100 * n2;
    assert n2 == n2 % 0x100 + 0x100 * (n2 / 0x100);
  }

  /** Splitting a + 256 * q with a byte a gives back a and q. */
  lemma SplitByte(a: u8, q: nat)
    ensures (a + 0x100 * q) % 0x100 == a
    ensures (a + 0x100 * q) / 0x100 == q
  {
    DivUnique(a + 0x100 * q, 0x100, q);
  }

  /** Reading four bytes and writing them again gives the same bytes. */
  lemma U32BytesRoundTrip(b: seq<u8>)
    requires |b| == 4
    ensures U32Le(U32FromLe(b)) == b
  {
    var m2 := b[2] as int + 0x100 * b[3] as int;
    var m1 := b[1] as int + 0x100 * m2;
    SplitByte(b[0], m1);
    SplitByte(b[1], m2);
    SplitByte(b[2], b[3]);
  }
}
