/** Bytes as bit-vectors and as numbers. */
module Bytes {
  type u8 = x: int | 0 <= x < 0x100

  function ToByte(n: u8): bv8 {
    n as bv8
  }

  function FromByte(b: bv8): u8 {
    b as int
  }

  lemma NextByte(b: bv8)
    requires b != 0xFF
    ensures (b + 1) as int == b as int + 1
  {
  }

  /** Every number below 256 is the value of a byte: count up to it. */
  lemma {:induction false} ByteOf(n: u8) returns (b: bv8)
    ensures b as int == n
  {
    if n == 0 {
      b := 0;
    } else {
      b := ByteOf(n - 1);
      NextByte(b);
      b := b + 1;
    }
  }

  lemma ByteRoundTrip(n: u8)
    ensures FromByte(ToByte(n)) == n
  {
    var b := ByteOf(n);
    assert ToByte(FromByte(b)) == b;
  }
}

/** The init-sequence blob: 9-byte little-endian entries (bar, offset, value). */
module Blob {
  import opened Pal
  import opened Bytes

  const POLL_MARKER: bv8 := 0xFF

  datatype Entry = Entry(bar: bv8, offset: u32, value: bv32)

  function LoadWord(b0: bv8, b1: bv8, b2: bv8, b3: bv8): bv32 {
    (b0 as bv32) | ((b1 as bv32) << 8) | ((b2 as bv32) << 16) | ((b3 as bv32) << 24)
  }

  function StoreWord(w: bv32): seq<bv8> {
    [(w & 0xFF) as bv8, ((w >> 8) & 0xFF) as bv8, ((w >> 16) & 0xFF) as bv8, ((w >> 24) & 0xFF) as bv8]
  }

  lemma LoadStored(w: bv32)
    ensures var b := StoreWord(w); LoadWord(b[0], b[1], b[2], b[3]) == w
  {
  }

  // An offset is only ever compared, so it is a number here; the four bytes do not overlap,
  // so or-ing the shifted bytes is adding them.

  function LoadOffset(b0: bv8, b1: bv8, b2: bv8, b3: bv8): u32 {
    FromByte(b0) + 0x100 * FromByte(b1) + 0x1_0000 * FromByte(b2) + 0x100_0000 * FromByte(b3)
  }

  function StoreOffset(n: u32): seq<bv8> {
    [ToByte(n % 0x100), ToByte(n / 0x100 % 0x100), ToByte(n / 0x1_0000 % 0x100), ToByte(n / 0x100_0000)]
  }

  lemma FourBytes(a: u8, b: u8, c: u8, d: u8)
    ensures LoadOffset(ToByte(a), ToByte(b), ToByte(c), ToByte(d)) == a + 0x100 * b + 0x1_0000 * c + 0x100_0000 * d
  {
    ByteRoundTrip(a); ByteRoundTrip(b); ByteRoundTrip(c); ByteRoundTrip(d);
  }

  lemma Digits(n: u32)
    ensures n == n % 0x100 + 0x100 * (n / 0x100 % 0x100)
              + 0x1_0000 * (n / 0x1_0000 % 0x100) + 0x100_0000 * (n / 0x100_0000)
  {
    var m, k := n / 0x100, n / 0x1_0000;
    assert n == n % 0x100 + 0x100 * m && m / 0x100 == k;
    assert m == m % 0x100 + 0x100 * k && k / 0x100 == n / 0x100_0000;
  }

  lemma OffsetStored(n: u32)
    ensures var b := StoreOffset(n); LoadOffset(b[0], b[1], b[2], b[3]) == n
  {
    FourBytes(n % 0x100, n / 0x100 % 0x100, n / 0x1_0000 % 0x100, n / 0x100_0000);
    Digits(n);
  }

  // ---- entries -------------------------------------------------------------------------------

  function DecodeEntry(b: seq<bv8>): Entry
    requires |b| == 9
  {
    Entry(b[0], LoadOffset(b[1], b[2], b[3], b[4]), LoadWord(b[5], b[6], b[7], b[8]))
  }

  function EncodeEntry(e: Entry): (b: seq<bv8>)
    ensures |b| == 9
  {
    [e.bar] + StoreOffset(e.offset) + StoreWord(e.value)
  }

  function Decode(blob: seq<bv8>): seq<Entry>
    requires |blob| % 9 == 0
  {
    if blob == [] then [] else [DecodeEntry(blob[..9])] + Decode(blob[9..])
  }

  function Encode(es: seq<Entry>): (blob: seq<bv8>)
    ensures |blob| == 9 * |es|
  {
    if es == [] then [] else EncodeEntry(es[0]) + Encode(es[1..])
  }

  lemma EntryRoundTrip(e: Entry)
    ensures DecodeEntry(EncodeEntry(e)) == e
  {
    var b := EncodeEntry(e);
    var o, w := StoreOffset(e.offset), StoreWord(e.value);
    assert b[0] == e.bar && b[1] == o[0] && b[2] == o[1] && b[3] == o[2] && b[4] == o[3];
    assert b[5] == w[0] && b[6] == w[1] && b[7] == w[2] && b[8] == w[3];
    LoadStored(e.value);
    OffsetStored(e.offset);
  }

  lemma {:induction false} DecodeEncode(es: seq<Entry>)
    ensures Decode(Encode(es)) == es
  {
    if es != [] {
      var blob := Encode(es);
      assert blob[..9] == EncodeEntry(es[0]) && blob[9..] == Encode(es[1..]);
      EntryRoundTrip(es[0]);
      DecodeEncode(es[1..]);
    }
  }

  // What the nine bytes mean: BAR, offset and value, both words lowest byte first.

  lemma TwoBytes(b0: bv8, b1: bv8)
    ensures ((b0 as bv32) | ((b1 as bv32) << 8)) as int == b0 as int + 0x100 * b1 as int
    ensures ((b0 as bv32) | ((b1 as bv32) << 8)) & 0xFFFF_0000 == 0
  {
  }

  lemma ThirdByte(low: bv32, b2: bv8)
    requires low & 0xFFFF_0000 == 0
    ensures (low | ((b2 as bv32) << 16)) as int == low as int + 0x1_0000 * b2 as int
    ensures (low | ((b2 as bv32) << 16)) & 0xFF00_0000 == 0
  {
  }

  lemma FourthByte(low: bv32, b3: bv8)
    requires low & 0xFF00_0000 == 0
    ensures (low | ((b3 as bv32) << 24)) as int == low as int + 0x100_0000 * b3 as int
  {
  }

  lemma ValueBytes(b0: bv8, b1: bv8, b2: bv8, b3: bv8)
    ensures LoadWord(b0, b1, b2, b3) as int
         == b0 as int + 0x100 * b1 as int + 0x1_0000 * b2 as int + 0x100_0000 * b3 as int
  {
    var low := (b0 as bv32) | ((b1 as bv32) << 8);
    TwoBytes(b0, b1);
    ThirdByte(low, b2);
    FourthByte(low | ((b2 as bv32) << 16), b3);
  }

  lemma EntryBytes(b: seq<bv8>)
    requires |b| == 9
    ensures var e := DecodeEntry(b);
            && e.bar == b[0]
            && e.offset == b[1] as int + 0x100 * b[2] as int + 0x1_0000 * b[3] as int + 0x100_0000 * b[4] as int
            && e.value as int
               == b[5] as int + 0x100 * b[6] as int + 0x1_0000 * b[7] as int + 0x100_0000 * b[8] as int
  {
    ValueBytes(b[5], b[6], b[7], b[8]);
  }

  lemma WordOfBytes(n0: u8, n1: u8, n2: u8, n3: u8) returns (word: bv32)
    ensures word as int == n0 + 0x100 * n1 + 0x1_0000 * n2 + 0x100_0000 * n3
  {
    var b0 := ByteOf(n0);
    var b1 := ByteOf(n1);
    var b2 := ByteOf(n2);
    var b3 := ByteOf(n3);
    ValueBytes(b0, b1, b2, b3);
    word := LoadWord(b0, b1, b2, b3);
  }

  /** Every number below 2^32 is the value of a word. */
  lemma WordOf(n: u32) returns (word: bv32)
    ensures word as int == n
  {
    var n1 := n / 0x100;
    var n2 := n1 / 0x100;
    word := WordOfBytes(n % 0x100, n1 % 0x100, n2 % 0x100, n2 / 0x100);
  }

  // The other way: every blob of whole entries is the packing of its entries.

  lemma DigitsUnique(a: u8, b: u8, c: u8, d: u8, n: int)
    requires n == a + 0x100 * b + 0x1_0000 * c + 0x100_0000 * d
    ensures n % 0x100 == a && n / 0x100 % 0x100 == b && n / 0x1_0000 % 0x100 == c && n / 0x100_0000 == d
  {
    var m, k := b + 0x100 * c + 0x1_0000 * d, c + 0x100 * d;
    assert n == a + 0x100 * m && n / 0x100 == m;
    assert m == b + 0x100 * k && n / 0x1_0000 == k;
  }

  lemma OffsetLoaded(b0: bv8, b1: bv8, b2: bv8, b3: bv8)
    ensures StoreOffset(LoadOffset(b0, b1, b2, b3)) == [b0, b1, b2, b3]
  {
    DigitsUnique(FromByte(b0), FromByte(b1), FromByte(b2), FromByte(b3), LoadOffset(b0, b1, b2, b3));
  }

  lemma WordLoaded(b0: bv8, b1: bv8, b2: bv8, b3: bv8)
    ensures StoreWord(LoadWord(b0, b1, b2, b3)) == [b0, b1, b2, b3]
  {
  }

  lemma EntryLoaded(b: seq<bv8>)
    requires |b| == 9
    ensures EncodeEntry(DecodeEntry(b)) == b
  {
    OffsetLoaded(b[1], b[2], b[3], b[4]);
    WordLoaded(b[5], b[6], b[7], b[8]);
    NineBytes(b, StoreOffset(LoadOffset(b[1], b[2], b[3], b[4])), StoreWord(LoadWord(b[5], b[6], b[7], b[8])));
  }

  lemma NineBytes(b: seq<bv8>, offset: seq<bv8>, value: seq<bv8>)
    requires |b| == 9 && offset == [b[1], b[2], b[3], b[4]] && value == [b[5], b[6], b[7], b[8]]
    ensures [b[0]] + offset + value == b
  {
  }

  lemma {:induction false} EncodeDecode(blob: seq<bv8>)
    requires |blob| % 9 == 0
    ensures Encode(Decode(blob)) == blob
  {
    if blob != [] {
      EntryLoaded(blob[..9]);
      EncodeDecode(blob[9..]);
      assert blob == blob[..9] + blob[9..];
    }
  }

  lemma {:induction false} EncodeConcat(a: seq<Entry>, b: seq<Entry>)
    ensures Encode(a + b) == Encode(a) + Encode(b)
    decreases |a|
  {
    if a == [] {
      assert a + b == b;
    } else {
      assert (a + b)[1..] == a[1..] + b;
      EncodeConcat(a[1..], b);
    }
  }

  lemma DecodeAppend(a: seq<bv8>, b: seq<bv8>)
    requires |a| % 9 == 0 && |b| % 9 == 0
    ensures Decode(a + b) == Decode(a) + Decode(b)
  {
    EncodeDecode(a);
    EncodeDecode(b);
    EncodeConcat(Decode(a), Decode(b));
    DecodeEncode(Decode(a) + Decode(b));
  }
}
