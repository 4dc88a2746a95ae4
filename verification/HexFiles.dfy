/** Program files printed from an image (os/process.c:486-491, 673-745): what the loader makes of the
    hexadecimal text of given bytes at given addresses. */
module HexFiles {
  import opened Words
  import opened Loader
  import opened LoadImage
  import opened LoadFile
  import Numerals

  /** Bytes at an address, or behind those before. */
  datatype Row = Addressed(addr: nat, data: seq<byte>) | Continued(data: seq<byte>)

  /** Two digits for each byte. */
  function HexText(data: seq<byte>, digits: string): string
    requires |digits| == 16
  {
    if data == [] then "" else [digits[data[0] / 16], digits[data[0] % 16]] + HexText(data[1..], digits)
  }

  function AddressText(r: Row, digits: string): string
    requires |digits| == 16
  {
    if r.Addressed? then Numerals.NumeralIn(r.addr, 16, digits) else ""
  }

  function RowText(r: Row, digits: string): string
    requires |digits| == 16
  {
    AddressText(r, digits) + ":" + HexText(r.data, digits) + "\n"
  }

  function FileText(rows: seq<Row>, digits: string): string
    requires |digits| == 16
  {
    if rows == [] then "" else RowText(rows[0], digits) + FileText(rows[1..], digits)
  }

  function WritesAt(base: int, d: seq<byte>): seq<Write> {
    seq(|d|, i requires 0 <= i < |d| => Write((base + i) % 0x1_0000_0000, d[i]))
  }

  /** The bytes of the rows, each at its address. */
  function Image(rows: seq<Row>, addr: int): seq<Write> {
    if rows == [] then []
    else
      var base := if rows[0].Addressed? then rows[0].addr else addr;
      WritesAt(base, rows[0].data) + Image(rows[1..], base + |rows[0].data|)
  }

  // ----- digits -----

  /** The characters that the loader knows. */
  lemma Characters(c: char)
    ensures IsBlank(c) <==> c in " \t"
    ensures HexDigit(c) <==> c in "0123456789abcdefABCDEF"
    ensures IsXDigit(c) <==> c in "0123456789abcdefA"
    ensures Unknown(c) <==> c in "BCDEF"
  {
  }

  lemma DigitOf(d: nat, digits: string)
    requires d < 16 && Numerals.IsDigitSet(digits)
    ensures XValue(digits[d]) == d && HexDigit(digits[d])
    ensures Unknown(digits[d]) <==> digits == "0123456789ABCDEF" && d > 10
  {
    Numerals.LowerValue(d);
    Numerals.UpperValue(d);
  }

  // ----- data -----

  function HexItems(data: seq<byte>, digits: string): seq<Item>
    requires |digits| == 16
  {
    if data == [] then [] else [Pair(digits[data[0] / 16], digits[data[0] % 16])] + HexItems(data[1..], digits)
  }

  lemma NoHexItems(digits: string)
    requires |digits| == 16
    ensures HexItems([], digits) == [] && RenderItems([]) == HexText([], digits) == ""
  {
  }

  lemma PairFirst(h: char, l: char, rest: seq<Item>)
    ensures var ts := [Pair(h, l)] + rest;
      && RenderItems(ts) == [h, l] + RenderItems(rest)
      && ItemBytes(ts) == [XValue(h) * 16 + XValue(l)] + ItemBytes(rest)
      && (ItemsWellFormed(ts) <==> HexDigit(h) && HexDigit(l) && ItemsWellFormed(rest))
      && (ItemsOk(ts) <==> HexDigit(h) && HexDigit(l) && !Unknown(h) && !Unknown(l) && ItemsOk(rest))
  {
    hide XValue, ItemsOk, ItemsWellFormed, Unknown, HexDigit;
    var ts := [Pair(h, l)] + rest;
    assert ts[0] == Pair(h, l) && ts[1..] == rest;
    FirstOfItems(ts);
  }

  lemma FirstHexItem(data: seq<byte>, digits: string)
    requires data != [] && |digits| == 16
    ensures HexItems(data, digits) == [Pair(digits[data[0] / 16], digits[data[0] % 16])] + HexItems(data[1..], digits)
    ensures HexText(data, digits) == [digits[data[0] / 16], digits[data[0] % 16]] + HexText(data[1..], digits)
  {
  }

  /** The text of some bytes in hexadecimal stands for these bytes. */
  lemma {:induction false} HexItemsAre(data: seq<byte>, digits: string)
    requires Numerals.IsDigitSet(digits)
    ensures RenderItems(HexItems(data, digits)) == HexText(data, digits)
    ensures ItemBytes(HexItems(data, digits)) == data && ItemsWellFormed(HexItems(data, digits))
    ensures ItemsOk(HexItems(data, digits)) <==> Plain(data, digits)
    decreases |data|
  {
    hide XValue, ItemsOk, ItemsWellFormed, Unknown, HexDigit, Plain, HexItems, HexText, RenderItems, ItemBytes,
         ItemOk, WellFormed;
    if data == [] {
      NoItems();
      NoBytesArePlain(digits);
      NoHexItems(digits);
    } else {
      HexItemsAre(data[1..], digits);
      FirstHexItem(data, digits);
      PairFirst(digits[data[0] / 16], digits[data[0] % 16], HexItems(data[1..], digits));
      DigitOf(data[0] / 16, digits);
      DigitOf(data[0] % 16, digits);
      FirstIsPlain(data, digits);
    }
  }

  /** There is no digit from 'B' to 'F'. */
  predicate Plain(data: seq<byte>, digits: string) {
    digits == "0123456789ABCDEF" ==> forall i :: 0 <= i < |data| ==> data[i] / 16 <= 10 && data[i] % 16 <= 10
  }

  lemma NoBytesArePlain(digits: string)
    ensures Plain([], digits)
  {
  }

  lemma FirstIsPlain(data: seq<byte>, digits: string)
    requires data != []
    ensures Plain(data, digits) <==>
      (digits == "0123456789ABCDEF" ==> data[0] / 16 <= 10 && data[0] % 16 <= 10) && Plain(data[1..], digits)
  {
    assert forall i :: 0 < i < |data| ==> data[i] == data[1..][i - 1];
    assert forall i :: 0 <= i < |data| - 1 ==> data[1..][i] == data[i + 1];
  }

  /** What the loader reads from a line that is printed in hexadecimal: its bytes, exactly if there is
      no digit from 'B' to 'F'. */
  lemma ReadsHexText(b: seq<char>, i: nat, data: seq<byte>, digits: string)
    requires Numerals.IsDigitSet(digits) && Terminated(b) && LoadImage.At(b, i, HexText(data, digits) + "\n")
    ensures i < |b| && (LineBytes(b, i).0 == data <==> Plain(data, digits))
    ensures Plain(data, digits) ==> LineBytes(b, i) == (data, i + 2 * |data| + 1)
  {
    hide LineBytes, ItemBytes, ItemsOk, ItemsWellFormed, RenderItems, Plain, Terminated, HexItems, HexText, LoadImage.At;
    HexItemsAre(data, digits);
    DataIsReadExactly(b, i, HexItems(data, digits));
    LengthOfText(data, digits);
  }

  lemma {:induction false} LengthOfText(data: seq<byte>, digits: string)
    requires |digits| == 16
    ensures |HexText(data, digits)| == 2 * |data|
    decreases |data|
  {
    if data != [] { LengthOfText(data[1..], digits); }
  }

  // ----- addresses -----

  lemma LastOfValue(s: string)
    ensures HexValue(s) == if s == "" then 0 else HexValue(s[..|s| - 1]) * 16 + XValue(s[|s| - 1])
    ensures HexValue("") == 0
  {
    hide XValue;
  }

  /** A numeral in base 16 has its value. */
  lemma {:induction false} HexValueOf(n: nat, digits: string)
    requires Numerals.IsDigitSet(digits)
    ensures HexValue(Numerals.NumeralIn(n, 16, digits)) == n
    ensures forall i :: 0 <= i < |Numerals.NumeralIn(n, 16, digits)| ==> HexDigit(Numerals.NumeralIn(n, 16, digits)[i])
    decreases n
  {
    hide XValue, HexDigit, HexValue, Numerals.NumeralIn;
    var s := Numerals.NumeralIn(n, 16, digits);
    LastOfValue(s);
    Numerals.Division(n, 16);
    Numerals.LastOfNumeral(n, 16, digits);
    DigitOf(n % 16, digits);
    if n >= 16 { HexValueOf(n / 16, digits); }
    assert s == s[..|s| - 1] + [s[|s| - 1]];
  }

  // ----- lines -----

  function RowLine(r: Row, digits: string): Line
    requires |digits| == 16
  {
    Line(AddressText(r, digits), HexItems(r.data, digits))
  }

  function FileLines(rows: seq<Row>, digits: string): (ls: seq<Line>)
    requires |digits| == 16
    ensures |ls| == |rows| && forall j :: 0 <= j < |ls| ==> ls[j] == RowLine(rows[j], digits)
    ensures rows != [] ==> ls[1..] == FileLines(rows[1..], digits)
  {
    if rows == [] then [] else [RowLine(rows[0], digits)] + FileLines(rows[1..], digits)
  }

  lemma RowLineIs(r: Row, digits: string)
    requires Numerals.IsDigitSet(digits)
    ensures var l := RowLine(r, digits);
      && Render(l) == RowText(r, digits) && LineOk(l) && ItemBytes(l.items) == r.data
      && (Readable(l) <==> Plain(r.data, digits))
      && (l.address == "" <==> r.Continued?)
      && (r.Addressed? ==> HexValue(l.address) == r.addr)
      && (Empty(l) <==> r.data == [])
  {
    hide HexItems, RenderItems, HexText, ItemBytes, ItemsOk, ItemsWellFormed, Plain, HexDigit, HexValue, Empty;
    HexItemsAre(r.data, digits);
    ByteOfLine(RowLine(r, digits));
    if r.Addressed? { HexValueOf(r.addr, digits); }
  }

  lemma {:induction false} FileTextIs(rows: seq<Row>, digits: string)
    requires Numerals.IsDigitSet(digits)
    ensures RenderAll(FileLines(rows, digits)) == FileText(rows, digits)
    decreases |rows|
  {
    hide RowLine, RowText, Render;
    if rows != [] {
      RowLineIs(rows[0], digits);
      FileTextIs(rows[1..], digits);
    }
  }

  lemma PlacedAt(base: int, d: seq<byte>)
    ensures Place(U32(base), d) == WritesAt(base, d)
  {
    forall i | 0 <= i < |d| ensures Place(U32(base), d)[i] == WritesAt(base, d)[i] { Again(base, i); }
  }

  lemma BaseOfRow(r: Row, digits: string, addr: int)
    requires Numerals.IsDigitSet(digits)
    ensures Base(RowLine(r, digits), U32(addr)) == U32(if r.Addressed? then r.addr else addr)
  {
    hide RowLine, U32, HexValue;
    RowLineIs(r, digits);
  }

  lemma NoRows(digits: string)
    requires |digits| == 16
    ensures FileLines([], digits) == [] && forall addr :: Image([], addr) == []
  {
  }

  lemma WritesOf(ls: seq<Line>, addr: int)
    requires ls != []
    ensures var base, data := Base(ls[0], addr), ItemBytes(ls[0].items);
      Writes(ls, addr) == Place(base, data) + Writes(ls[1..], U32(base + |data|))
  {
    hide ItemBytes, Place, U32, Base;
  }

  lemma FirstWrites(rows: seq<Row>, digits: string, addr: int)
    requires rows != [] && |digits| == 16
    ensures var l := RowLine(rows[0], digits);
      Writes(FileLines(rows, digits), addr) ==
        Place(Base(l, addr), ItemBytes(l.items))
          + Writes(FileLines(rows[1..], digits), U32(Base(l, addr) + |ItemBytes(l.items)|))
  {
    hide RowLine, ItemBytes, Place, U32, Base, FileLines;
    WritesOf(FileLines(rows, digits), addr);
  }

  lemma FirstOfImage(rows: seq<Row>, addr: int)
    requires rows != []
    ensures var base := if rows[0].Addressed? then rows[0].addr else addr;
      Image(rows, addr) == WritesAt(base, rows[0].data) + Image(rows[1..], base + |rows[0].data|)
  {
    hide WritesAt;
  }

  /** The whole file says that the bytes of the image go to their addresses, modulo 2^32. */
  lemma {:induction false} WritesImage(rows: seq<Row>, digits: string, addr: int)
    requires Numerals.IsDigitSet(digits)
    ensures Writes(FileLines(rows, digits), U32(addr)) == Image(rows, addr)
    decreases |rows|
  {
    hide RowLine, ItemBytes, Place, U32, WritesAt, HexValue, Base, Writes, FileLines, Image, Readable, Plain,
         LineOk, Render, RowText, Empty;
    if rows == [] {
      NoWrites(U32(addr));
      NoRows(digits);
    } else {
      var r := rows[0];
      var base := if r.Addressed? then r.addr else addr;
      RowLineIs(r, digits);
      BaseOfRow(r, digits, addr);
      FirstWrites(rows, digits, U32(addr));
      FirstOfImage(rows, addr);
      PlacedAt(base, r.data);
      Again(base, |r.data|);
      WritesImage(rows[1..], digits, base + |r.data|);
    }
  }

  /** A file that is printed from an image, with some data in each row, is loaded as that image exactly
      if no data digit is from 'B' to 'F'. */
  lemma PrintedFileLoads(rows: seq<Row>, digits: string, max: nat)
    requires Numerals.IsDigitSet(digits)
    requires forall j :: 0 <= j < |rows| ==>
               rows[j].data != [] && |RowText(rows[j], digits)| <= 2 * max && |RowText(rows[j], digits)| <= 200
    ensures Limit(max) == if max <= 100 then 2 * max else 200
    ensures var ls := FileLines(rows, digits);
      && RenderAll(ls) == FileText(rows, digits)
      && (forall j :: 0 <= j < |ls| ==> LineOk(ls[j]) && |Render(ls[j])| <= Limit(max))
      && (LoadText(ls, 0, Limit(max)) == Image(rows, 0) <==> forall j :: 0 <= j < |rows| ==> Plain(rows[j].data, digits))
  {
    hide RowLine, RowText, Render, LineOk, Readable, Plain, LoadText, LoadsAll, Writes, Image, RenderAll, Empty, FileText;
    var ls := FileLines(rows, digits);
    forall j | 0 <= j < |rows|
      ensures LineOk(ls[j]) && Render(ls[j]) == RowText(rows[j], digits) && !Empty(ls[j])
      ensures Readable(ls[j]) <==> Plain(rows[j].data, digits)
    {
      RowLineIs(rows[j], digits);
    }
    FileTextIs(rows, digits);
    LinesWithData(ls, Limit(max));
    WritesImage(rows, digits, 0);
    LoadsExactly(ls, 0, Limit(max));
  }
}
