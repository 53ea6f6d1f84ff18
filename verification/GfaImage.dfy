/** Packing a black-and-white bitmap into a ZPL graphic field (app/render.py, `_zpl_gfa`). */
module GfaImage {
  import opened Basics
  import opened TextLayout

  /** Rows of dots, true for black. */
  datatype Bitmap = Bitmap(width: nat, rows: seq<seq<bool>>)

  predicate Rectangular(img: Bitmap) {
    forall y :: 0 <= y < |img.rows| ==> |img.rows[y]| == img.width
  }

  function RowBytes(w: nat): nat {
    (w + 7) / 8
  }

  /** The value of bit 0 .. 7 of a byte, counted from the most significant: 0x80 >> bit. */
  function Weight(bit: nat): nat
    requires bit < 8
  {
    match bit
    case 0 => 128
    case 1 => 64
    case 2 => 32
    case 3 => 16
    case 4 => 8
    case 5 => 4
    case 6 => 2
    case 7 => 1
  }

  predicate Bit(b: byte, bit: nat)
    requires bit < 8
  {
    (b / Weight(bit)) % 2 == 1
  }

  /** The dot at x, blank beyond the row's end. */
  predicate Dot(row: seq<bool>, x: nat) {
    x < |row| && row[x]
  }

  // ---------------------------------------------------------------- packing

  /** Byte bx of a packed row, from its first `bits` bits. */
  function PackedByte(row: seq<bool>, bx: nat, bits: nat): (b: byte)
    requires bits <= 8
    ensures b + (if bits == 0 then 256 else Weight(bits - 1)) <= 256
  {
    if bits == 0 then 0
    else PackedByte(row, bx, bits - 1) + (if Dot(row, bx * 8 + bits - 1) then Weight(bits - 1) else 0)
  }

  function PackedRow(row: seq<bool>, n: nat): (data: bytes)
    ensures |data| == n
  {
    if n == 0 then [] else PackedRow(row, n - 1) + [PackedByte(row, n - 1, 8)]
  }

  function Packed(rows: seq<seq<bool>>, w: nat): bytes {
    if rows == [] then [] else Packed(rows[..|rows| - 1], w) + PackedRow(rows[|rows| - 1], RowBytes(w))
  }

  function HexDigit(n: nat): char
    requires n < 16
  {
    "0123456789ABCDEF"[n]
  }

  function Hex(data: bytes): (s: string)
    ensures |s| == 2 * |data|
  {
    if data == [] then "" else [HexDigit(data[0] / 16), HexDigit(data[0] % 16)] + Hex(data[1..])
  }

  function GfaText(total: nat, bytesPerRow: nat, data: bytes): string {
    Comma("^FO0", Comma("0^GFA", Comma(Dec(total), Comma(Dec(total), Comma(Dec(bytesPerRow), Hex(data) + "^FS")))))
  }

  function Comma(a: string, b: string): string {
    a + [','] + b
  }

  /** The packing loop: rows, bytes, bits.  Setting a bit that is not yet set is adding its weight. */
  method ZplGfa(img: Bitmap) returns (text: string)
    requires Rectangular(img)
    ensures var data := Packed(img.rows, img.width);
            text == GfaText(|data|, RowBytes(img.width), data)
  {
    var w, h := img.width, |img.rows|;
    var bytesPerRow := (w + 7) / 8;
    var data: bytes := [];
    for y := 0 to h
      invariant data == Packed(img.rows[..y], w)
    {
      ghost var done := data;
      for bx := 0 to bytesPerRow
        invariant data == done + PackedRow(img.rows[y], bx)
      {
        var b: nat := 0;
        for bit := 0 to 8
          invariant b == PackedByte(img.rows[y], bx, bit)
        {
          var x := bx * 8 + bit;
          if x < w && img.rows[y][x] {
            b := b + Weight(bit);
          }
        }
        data := data + [b];
      }
      assert img.rows[..y + 1][..y] == img.rows[..y];
    }
    assert img.rows[..h] == img.rows;
    var total := |data|;
    text := GfaText(total, bytesPerRow, data);
  }

  // ---------------------------------------------------------------- unpacking

  function UnpackedRow(data: bytes, w: nat): seq<bool>
    requires |data| == RowBytes(w)
  {
    seq(w, x requires 0 <= x < w => Bit(data[x / 8], x % 8))
  }

  /** The last h rows of the data, taken from the end. */
  function Unpacked(data: bytes, w: nat, h: nat): seq<seq<bool>>
    decreases h
  {
    var n := RowBytes(w);
    if h == 0 || |data| < n then []
    else Unpacked(data[..|data| - n], w, h - 1) + [UnpackedRow(data[|data| - n..], w)]
  }

  function HexValue(c: char): Option<nat> {
    if '0' <= c <= '9' then Some(c as int - '0' as int)
    else if 'A' <= c <= 'F' then Some(c as int - 'A' as int + 10)
    else None
  }

  function UnHex(s: string): Option<bytes> {
    if s == "" then Some([])
    else if |s| == 1 then None
    else
      match (HexValue(s[0]), HexValue(s[1]), UnHex(s[2..]))
      case (Some(a), Some(b), Some(rest)) => Some([a * 16 + b] + rest)
      case _ => None
  }

  lemma HexPair(a: nat, b: nat, rest: string, data: bytes)
    requires a < 16 && b < 16 && UnHex(rest) == Some(data)
    ensures UnHex([HexDigit(a), HexDigit(b)] + rest) == Some([a * 16 + b] + data)
  {
    HexDigitReadsBack(a);
    HexDigitReadsBack(b);
    assert ([HexDigit(a), HexDigit(b)] + rest)[2..] == rest;
  }

  lemma {:induction false} HexReadsBack(data: bytes)
    ensures UnHex(Hex(data)) == Some(data)
  {
    if data != [] {
      HexReadsBack(data[1..]);
      HexPair(data[0] / 16, data[0] % 16, Hex(data[1..]), data[1..]);
      assert [data[0]] + data[1..] == data;
    }
  }

  lemma {:induction false} HexIsPlain(data: bytes, c: char)
    requires c == ',' || c == '^'
    ensures c !in Hex(data)
  {
    if data != [] {
      HexIsPlain(data[1..], c);
      HexDigitReadsBack(data[0] / 16);
      HexDigitReadsBack(data[0] % 16);
    }
  }

  lemma HexDigitReadsBack(n: nat)
    requires n < 16
    ensures HexValue(HexDigit(n)) == Some(n) && HexDigit(n) != ',' && HexDigit(n) != '^'
  {
  }

  /** Every bit of a packed byte is its dot, and padding bits are zero. */
  lemma ByteHolds(row: seq<bool>, bx: nat, bit: nat)
    requires bit < 8
    ensures Bit(PackedByte(row, bx, 8), bit) == Dot(row, bx * 8 + bit)
  {
    ByteIsSum(row, bx);
    BitsOfSum(PackedByte(row, bx, 8), DotBit(row, bx * 8), DotBit(row, bx * 8 + 1), DotBit(row, bx * 8 + 2),
              DotBit(row, bx * 8 + 3), DotBit(row, bx * 8 + 4), DotBit(row, bx * 8 + 5), DotBit(row, bx * 8 + 6),
              DotBit(row, bx * 8 + 7));
  }

  function DotBit(row: seq<bool>, x: nat): nat {
    if Dot(row, x) then 1 else 0
  }

  lemma BitsOfSum(b: nat, d0: nat, d1: nat, d2: nat, d3: nat, d4: nat, d5: nat, d6: nat, d7: nat)
    requires d0 <= 1 && d1 <= 1 && d2 <= 1 && d3 <= 1 && d4 <= 1 && d5 <= 1 && d6 <= 1 && d7 <= 1
    requires b == 128 * d0 + 64 * d1 + 32 * d2 + 16 * d3 + 8 * d4 + 4 * d5 + 2 * d6 + d7
    ensures (b / 128) % 2 == d0 && (b / 64) % 2 == d1 && (b / 32) % 2 == d2 && (b / 16) % 2 == d3
    ensures (b / 8) % 2 == d4 && (b / 4) % 2 == d5 && (b / 2) % 2 == d6 && b % 2 == d7
  {
    assert b / 2 == 64 * d0 + 32 * d1 + 16 * d2 + 8 * d3 + 4 * d4 + 2 * d5 + d6;
    assert b / 4 == 32 * d0 + 16 * d1 + 8 * d2 + 4 * d3 + 2 * d4 + d5;
    assert b / 8 == 16 * d0 + 8 * d1 + 4 * d2 + 2 * d3 + d4;
    assert b / 16 == 8 * d0 + 4 * d1 + 2 * d2 + d3;
    assert b / 32 == 4 * d0 + 2 * d1 + d2;
    assert b / 64 == 2 * d0 + d1;
    assert b / 128 == d0;
  }

  lemma ByteIsSum(row: seq<bool>, bx: nat)
    ensures PackedByte(row, bx, 8)
         == 128 * DotBit(row, bx * 8) + 64 * DotBit(row, bx * 8 + 1) + 32 * DotBit(row, bx * 8 + 2)
            + 16 * DotBit(row, bx * 8 + 3) + 8 * DotBit(row, bx * 8 + 4) + 4 * DotBit(row, bx * 8 + 5)
            + 2 * DotBit(row, bx * 8 + 6) + DotBit(row, bx * 8 + 7)
  {
    assert PackedByte(row, bx, 0) == 0;
    assert PackedByte(row, bx, 1) == 128 * DotBit(row, bx * 8);
    assert PackedByte(row, bx, 2) == PackedByte(row, bx, 1) + 64 * DotBit(row, bx * 8 + 1);
    assert PackedByte(row, bx, 3) == PackedByte(row, bx, 2) + 32 * DotBit(row, bx * 8 + 2);
    assert PackedByte(row, bx, 4) == PackedByte(row, bx, 3) + 16 * DotBit(row, bx * 8 + 3);
    assert PackedByte(row, bx, 5) == PackedByte(row, bx, 4) + 8 * DotBit(row, bx * 8 + 4);
    assert PackedByte(row, bx, 6) == PackedByte(row, bx, 5) + 4 * DotBit(row, bx * 8 + 5);
    assert PackedByte(row, bx, 7) == PackedByte(row, bx, 6) + 2 * DotBit(row, bx * 8 + 6);
    assert PackedByte(row, bx, 8) == PackedByte(row, bx, 7) + DotBit(row, bx * 8 + 7);
  }

  lemma {:induction false} RowByteIs(row: seq<bool>, n: nat, bx: nat)
    requires bx < n
    ensures PackedRow(row, n)[bx] == PackedByte(row, bx, 8)
  {
    if bx < n - 1 {
      RowByteIs(row, n - 1, bx);
    }
  }

  /** Each bit of a packed row is the dot at its place, and every bit past the row's end is zero. */
  lemma RowHolds(row: seq<bool>, x: nat)
    requires x < 8 * RowBytes(|row|)
    ensures Bit(PackedRow(row, RowBytes(|row|))[x / 8], x % 8) == Dot(row, x)
  {
    RowByteIs(row, RowBytes(|row|), x / 8);
    ByteHolds(row, x / 8, x % 8);
  }

  lemma RowUnpacks(row: seq<bool>)
    ensures UnpackedRow(PackedRow(row, RowBytes(|row|)), |row|) == row
  {
    forall x | 0 <= x < |row| ensures UnpackedRow(PackedRow(row, RowBytes(|row|)), |row|)[x] == row[x] {
      RowHolds(row, x);
    }
  }

  lemma UnpackedAppend(data: bytes, more: bytes, w: nat, h: nat)
    requires |more| == RowBytes(w)
    ensures Unpacked(data + more, w, h + 1) == Unpacked(data, w, h) + [UnpackedRow(more, w)]
  {
    assert (data + more)[..|data|] == data && (data + more)[|data|..] == more;
  }

  lemma PackedSnoc(rows: seq<seq<bool>>, last: seq<bool>, w: nat)
    ensures Packed(rows + [last], w) == Packed(rows, w) + PackedRow(last, RowBytes(w))
  {
    assert (rows + [last])[..|rows|] == rows;
  }

  lemma OneRowMore(rows: seq<seq<bool>>, last: seq<bool>, w: nat)
    requires Unpacked(Packed(rows, w), w, |rows|) == rows && |last| == w
    ensures Unpacked(Packed(rows + [last], w), w, |rows| + 1) == rows + [last]
  {
    PackedSnoc(rows, last, w);
    RowUnpacks(last);
    UnpackedAppend(Packed(rows, w), PackedRow(last, RowBytes(w)), w, |rows|);
  }

  lemma {:induction false} FirstRowsUnpack(rows: seq<seq<bool>>, w: nat, h: nat)
    requires h <= |rows| && forall y :: 0 <= y < |rows| ==> |rows[y]| == w
    ensures Unpacked(Packed(rows[..h], w), w, h) == rows[..h]
  {
    if h > 0 {
      FirstRowsUnpack(rows, w, h - 1);
      OneRowMore(rows[..h - 1], rows[h - 1], w);
      assert rows[..h] == rows[..h - 1] + [rows[h - 1]];
    }
  }

  /** Round trip: unpacking gives the bitmap back. */
  lemma UnpacksToBitmap(rows: seq<seq<bool>>, w: nat)
    requires Rectangular(Bitmap(w, rows))
    ensures Unpacked(Packed(rows, w), w, |rows|) == rows
  {
    FirstRowsUnpack(rows, w, |rows|);
    assert rows[..|rows|] == rows;
  }

  /** The data is exactly h rows of ceil(w/8) bytes. */
  lemma {:induction false} PackedSize(rows: seq<seq<bool>>, w: nat)
    ensures |Packed(rows, w)| == |rows| * RowBytes(w)
  {
    if rows != [] {
      PackedSize(rows[..|rows| - 1], w);
      Distribute(|rows| - 1, RowBytes(w));
    }
  }

  lemma Distribute(h: nat, n: nat)
    ensures (h + 1) * n == h * n + n
  {
  }

  // ---------------------------------------------------------------- conservation of dots

  function OnesBelow(b: byte, bits: nat): nat
    requires bits <= 8
  {
    if bits == 0 then 0 else OnesBelow(b, bits - 1) + (if Bit(b, bits - 1) then 1 else 0)
  }

  function Ones(data: bytes): nat {
    if data == [] then 0 else Ones(data[..|data| - 1]) + OnesBelow(data[|data| - 1], 8)
  }

  function BlackBelow(row: seq<bool>, x: nat): nat {
    if x == 0 then 0 else BlackBelow(row, x - 1) + DotBit(row, x - 1)
  }

  function Black(rows: seq<seq<bool>>): nat {
    if rows == [] then 0 else Black(rows[..|rows| - 1]) + BlackBelow(rows[|rows| - 1], |rows[|rows| - 1]|)
  }

  lemma {:induction false} ByteCounts(row: seq<bool>, bx: nat, bits: nat)
    requires bits <= 8
    ensures OnesBelow(PackedByte(row, bx, 8), bits) + BlackBelow(row, bx * 8) == BlackBelow(row, bx * 8 + bits)
  {
    if bits > 0 {
      ByteCounts(row, bx, bits - 1);
      ByteHolds(row, bx, bits - 1);
    }
  }

  lemma OneByteMore(row: seq<bool>, n: nat)
    ensures Ones(PackedRow(row, n + 1)) == Ones(PackedRow(row, n)) + OnesBelow(PackedByte(row, n, 8), 8)
  {
    assert PackedRow(row, n + 1)[..n] == PackedRow(row, n);
  }

  lemma {:induction false} RowCounts(row: seq<bool>, n: nat)
    ensures Ones(PackedRow(row, n)) == BlackBelow(row, n * 8)
  {
    if n > 0 {
      var m := n - 1;
      RowCounts(row, m);
      ByteCounts(row, m, 8);
      OneByteMore(row, m);
      assert m * 8 + 8 == n * 8;
    }
  }

  lemma {:induction false} NothingPastEnd(row: seq<bool>, x: nat)
    requires x >= |row|
    ensures BlackBelow(row, x) == BlackBelow(row, |row|)
    decreases x
  {
    if x > |row| {
      NothingPastEnd(row, x - 1);
    }
  }

  lemma {:induction false} OnesAppend(a: bytes, b: bytes)
    ensures Ones(a + b) == Ones(a) + Ones(b)
    decreases |b|
  {
    if b == [] {
      assert a + b == a;
    } else {
      assert (a + b)[..|a + b| - 1] == a + b[..|b| - 1];
      OnesAppend(a, b[..|b| - 1]);
    }
  }

  /** As many bits are set in the data as there are black dots in the bitmap. */
  lemma {:induction false} DotsConserved(rows: seq<seq<bool>>, w: nat)
    requires Rectangular(Bitmap(w, rows))
    ensures Ones(Packed(rows, w)) == Black(rows)
  {
    if rows != [] {
      var last := rows[|rows| - 1];
      DotsConserved(rows[..|rows| - 1], w);
      OnesAppend(Packed(rows[..|rows| - 1], w), PackedRow(last, RowBytes(w)));
      RowCounts(last, RowBytes(w));
      NothingPastEnd(last, RowBytes(w) * 8);
    }
  }

  // ---------------------------------------------------------------- reading the field

  lemma DecHasNo(n: nat, c: char)
    requires c == ',' || c == '^'
    ensures c !in Dec(n)
  {
    DecReadsBack(n);
  }

  /** The text spells the number. */
  predicate Spells(s: string, n: nat) {
    (forall i :: 0 <= i < |s| ==> '0' <= s[i] <= '9') && ReadDec(s) == n
  }

  lemma TextSplits(total: nat, bytesPerRow: nat, data: bytes)
    ensures Split(GfaText(total, bytesPerRow, data), ',')
         == ["^FO0", "0^GFA", Dec(total), Dec(total), Dec(bytesPerRow), Hex(data) + "^FS"]
  {
    HexIsPlain(data, ',');
    DecHasNo(total, ',');
    DecHasNo(bytesPerRow, ',');
    var t5 := Hex(data) + "^FS";
    var t4 := Comma(Dec(bytesPerRow), t5);
    var t3 := Comma(Dec(total), t4);
    var t2 := Comma(Dec(total), t3);
    SplitNone(t5, ',');
    SplitAt(Dec(bytesPerRow), ',', t5);
    SplitAt(Dec(total), ',', t4);
    SplitAt(Dec(total), ',', t3);
    SplitAt("0^GFA", ',', t2);
    SplitAt("^FO0", ',', Comma("0^GFA", t2));
  }

  /** The text splits at its commas into the origin, the command, both byte counts, the bytes per row,
      and the data, and each number reads back. */
  lemma FieldsReadBack(total: nat, bytesPerRow: nat, data: bytes)
    ensures Split(GfaText(total, bytesPerRow, data), ',')
         == ["^FO0", "0^GFA", Dec(total), Dec(total), Dec(bytesPerRow), Hex(data) + "^FS"]
    ensures Spells(Dec(total), total) && Spells(Dec(bytesPerRow), bytesPerRow)
    ensures UnHex(Hex(data)) == Some(data) && '^' !in Hex(data)
  {
    TextSplits(total, bytesPerRow, data);
    HexReadsBack(data);
    HexIsPlain(data, '^');
    DecReadsBack(total);
    DecReadsBack(bytesPerRow);
  }
}
