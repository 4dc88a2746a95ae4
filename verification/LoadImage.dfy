/** What the loader loads: on a well-formed file, reading in chunks puts every byte where reading
    the whole file at once would put it. */
module LoadImage {
  import opened Words
  import opened Numbers
  import opened Loader

  // ----- well-formed files -----

  datatype Item = Blank(c: char) | Pair(high: char, low: char)

  /** A line: an address, possibly omitted, a colon, and digit pairs among blanks. */
  datatype Line = Line(address: string, items: seq<Item>)

  predicate HexDigit(c: char) { '0' <= c <= '9' || 'a' <= c <= 'f' || 'A' <= c <= 'F' }

  predicate WellFormed(t: Item) {
    match t
    case Blank(c) => IsBlank(c)
    case Pair(h, l) => HexDigit(h) && HexDigit(l)
  }

  /** The hexadecimal digits that isxdigit does not know. */
  predicate Unknown(c: char) { 'B' <= c <= 'F' }

  predicate ItemOk(t: Item) { WellFormed(t) && (t.Pair? ==> !Unknown(t.high) && !Unknown(t.low)) }

  predicate ItemsWellFormed(ts: seq<Item>) { forall k :: 0 <= k < |ts| ==> WellFormed(ts[k]) }

  predicate ItemsOk(ts: seq<Item>) { forall k :: 0 <= k < |ts| ==> ItemOk(ts[k]) }

  predicate LineOk(l: Line) {
    (forall i :: 0 <= i < |l.address| ==> HexDigit(l.address[i])) && ItemsWellFormed(l.items)
  }

  /** There is no digit from 'B' to 'F' in the data of a line. */
  predicate Readable(l: Line) { ItemsOk(l.items) }

  function RenderItem(t: Item): string {
    match t
    case Blank(c) => [c]
    case Pair(h, l) => [h, l]
  }

  function RenderItems(ts: seq<Item>): string {
    if ts == [] then "" else RenderItem(ts[0]) + RenderItems(ts[1..])
  }

  function Render(l: Line): string {
    l.address + ":" + RenderItems(l.items) + "\n"
  }

  function RenderAll(ls: seq<Line>): string {
    if ls == [] then "" else Render(ls[0]) + RenderAll(ls[1..])
  }

  function ItemBytes(ts: seq<Item>): seq<byte> {
    if ts == [] then []
    else if ts[0].Blank? then ItemBytes(ts[1..])
    else [XValue(ts[0].high) * 16 + XValue(ts[0].low)] + ItemBytes(ts[1..])
  }

  function HexValue(s: string): nat {
    if s == "" then 0 else HexValue(s[..|s| - 1]) * 16 + XValue(s[|s| - 1])
  }

  // ----- the reference: the whole file at once -----

  /** Bytes put at an address. */
  datatype Write = Write(addr: int, value: byte)

  function Place(addr: int, data: seq<byte>): (w: seq<Write>)
    ensures |w| == |data|
  {
    seq(|data|, i requires 0 <= i < |data| => Write(U32(addr + i), data[i]))
  }

  /** Where the bytes of a line go: to its address, or after those of the line before. */
  function Base(l: Line, addr: int): int {
    if l.address == "" then addr else U32(HexValue(l.address))
  }

  function Writes(ls: seq<Line>, addr: int): seq<Write> {
    if ls == [] then []
    else
      var data := ItemBytes(ls[0].items);
      var base := Base(ls[0], addr);
      Place(base, data) + Writes(ls[1..], U32(base + |data|))
  }

  // ----- one line of a buffer -----

  predicate At(b: seq<char>, i: nat, t: string) {
    i + |t| <= |b| && b[i..i + |t|] == t
  }

  lemma AtParts(b: seq<char>, i: nat, t: string, u: string)
    requires At(b, i, t + u)
    ensures At(b, i, t) && At(b, i + |t|, u)
  {
    var s := b[i..i + |t + u|];
    assert b[i..i + |t|] == s[..|t|];
    assert b[i + |t|..i + |t| + |u|] == s[|t|..];
  }

  lemma CharAt(b: seq<char>, i: nat, t: string, k: nat)
    requires At(b, i, t) && k < |t|
    ensures i + k < |b| && b[i + k] == t[k]
  {
    assert b[i + k] == b[i..i + |t|][k];
  }

  lemma BlankIsSkipped(b: seq<char>, i: nat)
    requires Terminated(b) && i + 1 < |b| && IsBlank(b[i])
    ensures LineBytes(b, i) == LineBytes(b, i + 1)
  {
  }

  lemma PairIsRead(b: seq<char>, i: nat)
    requires Terminated(b) && i + 2 < |b| && IsXDigit(b[i]) && IsXDigit(b[i + 1])
    ensures LineBytes(b, i) == ([XValue(b[i]) * 16 + XValue(b[i + 1])] + LineBytes(b, i + 2).0, LineBytes(b, i + 2).1)
  {
  }

  lemma LineEnds(b: seq<char>, i: nat)
    requires Terminated(b) && At(b, i, "\n")
    ensures i < |b| && LineBytes(b, i) == ([], i + 1)
  {
    assert b[i] == b[i..i + 1][0];
  }

  lemma ItemIsRead(b: seq<char>, i: nat, t: Item, rest: string)
    requires Terminated(b) && At(b, i, RenderItem(t) + rest) && ItemOk(t) && rest != ""
    ensures At(b, i + |RenderItem(t)|, rest) && i + |RenderItem(t)| < |b|
    ensures var more := LineBytes(b, i + |RenderItem(t)|);
      LineBytes(b, i) == (if t.Blank? then more else ([XValue(t.high) * 16 + XValue(t.low)] + more.0, more.1))
  {
    hide XValue, LineBytes, IsBlank;
    var r := RenderItem(t);
    AtParts(b, i, r, rest);
    assert b[i] == b[i..i + |r|][0] == r[0];
    if t.Blank? {
      BlankIsSkipped(b, i);
    } else {
      assert b[i + 1] == b[i..i + |r|][1] == r[1];
      PairIsRead(b, i);
    }
  }

  lemma FirstOfItems(ts: seq<Item>)
    requires ts != []
    ensures ItemsOk(ts) <==> ItemOk(ts[0]) && ItemsOk(ts[1..])
    ensures ItemsWellFormed(ts) <==> WellFormed(ts[0]) && ItemsWellFormed(ts[1..])
    ensures RenderItems(ts) + "\n" == RenderItem(ts[0]) + (RenderItems(ts[1..]) + "\n")
  {
    assert forall k :: 0 < k < |ts| ==> ts[k] == ts[1..][k - 1];
    assert forall k :: 0 <= k < |ts| - 1 ==> ts[1..][k] == ts[k + 1];
  }

  lemma OneMore(x: byte, a: seq<byte>, b: seq<byte>)
    ensures a <= b <==> [x] + a <= [x] + b
    ensures a == b <==> [x] + a == [x] + b
  {
    assert ([x] + a)[1..] == a && ([x] + b)[1..] == b;
  }

  lemma BytesOfFirst(ts: seq<Item>)
    requires ts != []
    ensures ItemBytes(ts) ==
      if ts[0].Blank? then ItemBytes(ts[1..]) else [XValue(ts[0].high) * 16 + XValue(ts[0].low)] + ItemBytes(ts[1..])
  {
  }

  /** The bytes before the first digit from 'B' to 'F'. */
  function ReadBytes(ts: seq<Item>): seq<byte> {
    if ts == [] || !ItemOk(ts[0]) then []
    else if ts[0].Blank? then ReadBytes(ts[1..])
    else [XValue(ts[0].high) * 16 + XValue(ts[0].low)] + ReadBytes(ts[1..])
  }

  /** The items from the one with that digit on. */
  function Unread(ts: seq<Item>): (r: seq<Item>)
    ensures |r| <= |ts| && (r != [] ==> !ItemOk(r[0]))
  {
    if ts == [] || !ItemOk(ts[0]) then ts else Unread(ts[1..])
  }

  lemma FirstRead(ts: seq<Item>)
    requires ts != []
    ensures Unread(ts) == if ItemOk(ts[0]) then Unread(ts[1..]) else ts
    ensures ReadBytes(ts) ==
      if !ItemOk(ts[0]) then []
      else if ts[0].Blank? then ReadBytes(ts[1..])
      else [XValue(ts[0].high) * 16 + XValue(ts[0].low)] + ReadBytes(ts[1..])
  {
  }

  lemma {:induction false} ReadsAll(ts: seq<Item>)
    requires ItemsWellFormed(ts)
    ensures ReadBytes(ts) <= ItemBytes(ts) && ItemsWellFormed(Unread(ts))
    ensures ItemsOk(ts) <==> Unread(ts) == []
    ensures ItemsOk(ts) <==> ReadBytes(ts) == ItemBytes(ts)
    decreases |ts|
  {
    hide XValue, ItemOk, WellFormed, ItemsOk, ItemsWellFormed, RenderItem, RenderItems, ItemBytes, ReadBytes;
    if ts == [] {
      NoItems();
    } else {
      FirstOfItems(ts);
      FirstRead(ts);
      BytesOfFirst(ts);
      if ItemOk(ts[0]) {
        ReadsAll(ts[1..]);
        if ts[0].Pair? {
          OneMore(XValue(ts[0].high) * 16 + XValue(ts[0].low), ReadBytes(ts[1..]), ItemBytes(ts[1..]));
        }
      } else {
        UnknownIsPair(ts[0]);
      }
    }
  }

  lemma UnknownIsPair(t: Item)
    requires WellFormed(t) && !ItemOk(t)
    ensures t.Pair?
  {
  }

  lemma NoItems()
    ensures RenderItems([]) + "\n" == "\n" && ItemBytes([]) == [] && ItemsOk([]) && ItemsWellFormed([])
    ensures ReadBytes([]) == [] && Unread([]) == []
  {
  }

  /** Of the data of a well-formed line the loader reads those bytes, and stops at that digit. */
  lemma {:induction false} DataIsRead(b: seq<char>, i: nat, ts: seq<Item>)
    requires Terminated(b) && At(b, i, RenderItems(ts) + "\n") && ItemsWellFormed(ts)
    ensures i < |b| && LineBytes(b, i).0 == ReadBytes(ts)
    ensures Unread(ts) == [] ==> LineBytes(b, i).1 == i + |RenderItems(ts)| + 1
    ensures Unread(ts) != [] ==>
      var j := LineBytes(b, i).1;
      && j == i + |RenderItems(ts)| - |RenderItems(Unread(ts))|
      && i <= j && At(b, j, RenderItems(Unread(ts)) + "\n")
    decreases |ts|
  {
    hide XValue, LineBytes, At, Terminated, ItemOk, WellFormed, ItemsWellFormed, RenderItem, RenderItems, ReadBytes, Unread;
    if ts == [] {
      NoItems();
      LineEnds(b, i);
    } else {
      var t, rest := RenderItem(ts[0]), RenderItems(ts[1..]) + "\n";
      FirstOfItems(ts);
      FirstRead(ts);
      assert |RenderItems(ts) + "\n"| == |t + rest|;
      if ItemOk(ts[0]) {
        ItemIsRead(b, i, ts[0], rest);
        DataIsRead(b, i + |t|, ts[1..]);
      } else {
        ItemIsNotRead(b, i, ts[0], rest);
      }
    }
  }

  /** Of the data of a well-formed line, whatever its digits, the loader reads a beginning, and all of
      it exactly if there is no digit from 'B' to 'F'. */
  lemma DataIsReadExactly(b: seq<char>, i: nat, ts: seq<Item>)
    requires Terminated(b) && At(b, i, RenderItems(ts) + "\n") && ItemsWellFormed(ts)
    ensures i < |b| && LineBytes(b, i).0 <= ItemBytes(ts)
    ensures LineBytes(b, i).0 == ItemBytes(ts) <==> ItemsOk(ts)
    ensures LineBytes(b, i).1 == i + |RenderItems(ts)| + 1 <==> ItemsOk(ts)
  {
    hide LineBytes, ItemBytes, ReadBytes, Unread, ItemsOk, ItemsWellFormed, ItemOk, At, Terminated;
    DataIsRead(b, i, ts);
    ReadsAll(ts);
  }

  lemma ItemIsNotRead(b: seq<char>, i: nat, t: Item, rest: string)
    requires Terminated(b) && At(b, i, RenderItem(t) + rest) && WellFormed(t) && !ItemOk(t) && rest != ""
    ensures t.Pair? && i + 2 < |b| && HexDigit(b[i]) && LineBytes(b, i) == ([], i)
  {
    hide XValue;
    AtParts(b, i, RenderItem(t), rest);
    assert b[i] == b[i..i + 2][0] == t.high && b[i + 1] == b[i..i + 2][1] == t.low;
    assert SkipBlanks(b, i) == i;
  }

  /** At that digit the loader ends the chunk.  If it has no data yet, it takes the rest of the line
      for an address, and finds no colon behind it: so the next call, which begins there, returns no
      data, and nothing more is loaded from the file. */
  lemma UnknownDigitEndsTheChunk(b: seq<char>, i: nat, ts: seq<Item>, addr: int, data: seq<byte>)
    requires Terminated(b) && At(b, i, RenderItems(ts) + "\n") && ts != [] && !ItemOk(ts[0])
    requires ItemsWellFormed(ts)
    ensures i < |b|
    ensures Chunk(b, Progress(addr, data, i)).data == data
    ensures data != [] ==> Chunk(b, Progress(addr, data, i)) == Progress(addr, data, i)
  {
    hide Finds, ItemOk, AfterColon, Digits;
    var t, rest := RenderItem(ts[0]), RenderItems(ts[1..]) + "\n";
    assert RenderItems(ts) + "\n" == t + rest;
    ItemIsNotRead(b, i, ts[0], rest);
    NoSpace(b[i]);
    assert SkipSpaces(b, i) == i;
    NoColonBehind(b, i, ts, 0);
  }

  lemma {:induction false} NoColonBehind(b: seq<char>, i: nat, ts: seq<Item>, v: int)
    requires Terminated(b) && At(b, i, RenderItems(ts) + "\n") && ItemsWellFormed(ts)
    ensures i < |b| && b[Digits(b, i, 16, v).1] != ':'
    decreases |ts|
  {
    hide Digits, Wrap, XValue, HexDigit, Terminated;
    var text := RenderItems(ts) + "\n";
    assert b[i] == b[i..i + |text|][0] == text[0];
    if ts == [] {
      NoDigit(b, i, v);
    } else {
      var t, rest := RenderItem(ts[0]), RenderItems(ts[1..]) + "\n";
      assert text == t + rest;
      AtParts(b, i, t, rest);
      if ts[0].Blank? {
        NoDigit(b, i, v);
      } else {
        assert b[i + 1] == b[i..i + |text|][1] == text[1];
        DigitIsRead(b, i, v);
        var w := Wrap(Wrap(v * 16) + XValue(b[i]));
        DigitIsRead(b, i + 1, w);
        NoColonBehind(b, i + 2, ts[1..], Wrap(Wrap(w * 16) + XValue(b[i + 1])));
      }
    }
  }

  lemma NoDigit(b: seq<char>, i: nat, v: int)
    requires Terminated(b) && i < |b| && (IsBlank(b[i]) || b[i] == '\n')
    ensures Digits(b, i, 16, v).1 == i && b[i] != ':'
  {
  }

  lemma Shift(x: int, k: int)
    ensures U32(x + k * TWO_32) == U32(x)
  {
  }

  lemma WrapIs(x: int)
    ensures Wrap(x) == x - (x + 0x8000_0000) / TWO_32 * TWO_32
  {
  }

  lemma Difference(v: int, h: int)
    requires U32(v) == U32(h)
    ensures v == h + (v / TWO_32 - h / TWO_32) * TWO_32
  {
  }

  /** 32-bit arithmetic on both sides: the parsed value of a digit more is its value modulo 2^32. */
  lemma SameModulo(v: int, h: int, d: int)
    requires U32(v) == U32(h)
    ensures U32(Wrap(Wrap(v * 16) + d)) == U32(h * 16 + d)
  {
    hide U32, Wrap;
    var k := v / TWO_32 - h / TWO_32;
    var a := (v * 16 + 0x8000_0000) / TWO_32;
    var b := (Wrap(v * 16) + d + 0x8000_0000) / TWO_32;
    Difference(v, h);
    WrapIs(v * 16);
    WrapIs(Wrap(v * 16) + d);
    assert Wrap(Wrap(v * 16) + d) == h * 16 + d + (k * 16 - a - b) * TWO_32;
    Shift(h * 16 + d, k * 16 - a - b);
  }

  lemma DigitIsRead(b: seq<char>, i: nat, v: int)
    requires Terminated(b) && i + 1 < |b| && HexDigit(b[i])
    ensures Digits(b, i, 16, v) == Digits(b, i + 1, 16, Wrap(Wrap(v * 16) + XValue(b[i])))
  {
  }

  lemma {:induction false} HexDigitsAreRead(b: seq<char>, i: nat, s: string) returns (v: int)
    requires Terminated(b) && At(b, i, s) && i + |s| < |b| && forall k :: 0 <= k < |s| ==> HexDigit(s[k])
    ensures Digits(b, i, 16, 0) == Digits(b, i + |s|, 16, v) && U32(v) == U32(HexValue(s))
    decreases |s|
  {
    hide Digits, U32, Wrap, HexDigit, XValue;
    if s == "" {
      v := 0;
    } else {
      var n := |s| - 1;
      assert s[..n] + [s[n]] == s;
      AtParts(b, i, s[..n], [s[n]]);
      var v0 := HexDigitsAreRead(b, i, s[..n]);
      assert b[i + n] == b[i + n..i + n + 1][0] == s[n];
      SameModulo(v0, HexValue(s[..n]), XValue(s[n]));
      DigitIsRead(b, i + n, v0);
      v := Wrap(Wrap(v0 * 16) + XValue(s[n]));
    }
  }

  // ----- whole lines of a buffer -----

  lemma NoSpace(c: char)
    requires HexDigit(c)
    ensures !IsSpace(c) && c != '\0' && c != '-' && c != ':'
  {
  }

  lemma ParsesHex(b: seq<char>, i: nat)
    requires Terminated(b) && i < |b| && !IsSpace(b[i]) && b[i] != '\0' && b[i] != '-'
    ensures Parse(b, i, 16) == (Wrap(Digits(b, i, 16, 0).0), Digits(b, i, 16, 0).1)
  {
    hide Digits, Wrap;
  }

  lemma ColonEndsDigits(b: seq<char>, i: nat, v: int)
    requires Terminated(b) && i < |b| && b[i] == ':'
    ensures Digits(b, i, 16, v) == (v, i)
  {
  }

  /** An address that is not omitted is parsed, up to its colon. */
  lemma AddressIsRead(b: seq<char>, i: nat, s: string)
    requires Terminated(b) && At(b, i, s + ":") && s != "" && forall k :: 0 <= k < |s| ==> HexDigit(s[k])
    ensures i + |s| < |b| && b[i] != ':' && b[i + |s|] == ':'
    ensures Parse(b, i, 16).1 == i + |s| && U32(Parse(b, i, 16).0) == U32(HexValue(s))
  {
    hide U32, Wrap, HexValue, HexDigit, Digits, Parse, At, Terminated, IsSpace;
    AtParts(b, i, s, ":");
    CharAt(b, i, s, 0);
    CharAt(b, i + |s|, ":", 0);
    NoSpace(s[0]);
    var v := HexDigitsAreRead(b, i, s);
    ColonEndsDigits(b, i + |s|, v);
    ParsesHex(b, i);
    WrapOnce(v);
  }

  lemma WrapOnce(v: int)
    ensures U32(Wrap(v)) == U32(v)
  {
    WrapIs(v);
    Shift(v, -((v + 0x8000_0000) / TWO_32));
  }

  /** What one call does with the lines from `k` on, where `data` is what it has already. */
  datatype Group = Group(addr: int, data: seq<byte>, next: nat)

  function Consume(ls: seq<Line>, k: nat, addr: int, data: seq<byte>): (g: Group)
    requires k <= |ls|
    ensures k <= g.next <= |ls| && (k < |ls| && data == [] ==> k < g.next)
    ensures 0 <= addr < TWO_32 ==> 0 <= g.addr < TWO_32
    decreases |ls| - k
  {
    if k == |ls| || (ls[k].address != "" && data != []) then Group(addr, data, k)
    else
      var d := ItemBytes(ls[k].items);
      Consume(ls, k + 1, U32(Base(ls[k], addr) + |d|), data + d)
  }

  /** The place where line `k` starts. */
  function LineStart(ls: seq<Line>, k: nat): nat
    requires k <= |ls|
  {
    |RenderAll(ls[..k])|
  }

  lemma {:induction false} RenderSplit(ls: seq<Line>, k: nat)
    requires k <= |ls|
    ensures RenderAll(ls) == RenderAll(ls[..k]) + RenderAll(ls[k..])
    decreases k
  {
    hide Render;
    if k == 0 {
      assert ls[..0] == [] && ls[0..] == ls;
    } else {
      RenderSplit(ls[1..], k - 1);
      var first, rest := ls[..k], ls[1..];
      assert first[1..] == rest[..k - 1] && rest[k - 1..] == ls[k..] && first[0] == ls[0];
      assert RenderAll(first) == Render(ls[0]) + RenderAll(rest[..k - 1]);
    }
  }

  /** The buffer holds the lines `ls`. */
  predicate Holds(b: seq<char>, ls: seq<Line>) {
    b == RenderAll(ls) + "Z\0"
  }

  lemma LineIsThere(b: seq<char>, ls: seq<Line>, k: nat)
    requires Holds(b, ls) && k < |ls|
    ensures Terminated(b) && At(b, LineStart(ls, k), Render(ls[k]))
    ensures LineStart(ls, k + 1) == LineStart(ls, k) + |Render(ls[k])|
  {
    hide Render;
    RenderSplit(ls, k);
    RenderSplit(ls[..k + 1], k);
    assert ls[..k + 1][..k] == ls[..k] && ls[..k + 1][k..] == [ls[k]];
    assert RenderAll([ls[k]]) == Render(ls[k]) + RenderAll([]) == Render(ls[k]);
    assert ls[k..][0] == ls[k];
    assert RenderAll(ls[k..]) == Render(ls[k]) + RenderAll(ls[k..][1..]);
  }

  lemma NoNul(ls: seq<Line>, i: nat)
    requires i < |RenderAll(ls)| && forall k :: 0 <= k < |ls| ==> LineOk(ls[k])
    ensures RenderAll(ls)[i] != '\0'
    decreases |ls|
  {
    var r := Render(ls[0]);
    if i < |r| {
      NoNulInItems(ls[0].items);
      if i < |ls[0].address| { NoSpace(ls[0].address[i]); }
    } else {
      NoNul(ls[1..], i - |r|);
    }
  }

  lemma {:induction false} NoNulInItems(ts: seq<Item>)
    requires ItemsWellFormed(ts)
    ensures forall i :: 0 <= i < |RenderItems(ts)| ==> RenderItems(ts)[i] != '\0' && RenderItems(ts)[i] != '\n'
    decreases |ts|
  {
    if ts != [] {
      NoNulInItems(ts[1..]);
      var t, rest := RenderItem(ts[0]), RenderItems(ts[1..]);
      forall i | 0 <= i < |t + rest| ensures (t + rest)[i] != '\0' && (t + rest)[i] != '\n' {
        if i >= |t| { assert (t + rest)[i] == rest[i - |t|]; }
      }
    }
  }

  /** dindex finds a character that comes before the NUL. */
  lemma {:induction false} FindsIt(b: seq<char>, i: nat, j: nat, c: char)
    requires Terminated(b) && i <= j < |b| && b[j] == c && c != '\0' && forall k :: i <= k < j ==> b[k] != '\0'
    ensures Finds(b, i, c)
    decreases j - i
  {
    if b[i] != c { FindsIt(b, i + 1, j, c); }
  }

  lemma NulEnds(b: seq<char>, ls: seq<Line>)
    requires Holds(b, ls) && forall j :: 0 <= j < |ls| ==> LineOk(ls[j])
    ensures forall q :: 0 <= q < |b| - 1 ==> b[q] != '\0'
  {
    hide LineOk, RenderAll;
    forall q | 0 <= q < |b| - 1 ensures b[q] != '\0' {
      if q < |b| - 2 { NoNul(ls, q); }
    }
  }

  /** While lines are left, the loader sees a colon before the Z; after them it does not. */
  lemma ColonAhead(b: seq<char>, ls: seq<Line>, k: nat)
    requires Holds(b, ls) && k <= |ls| && forall j :: 0 <= j < |ls| ==> LineOk(ls[j])
    ensures Terminated(b) && LineStart(ls, k) < |b|
    ensures k < |ls| ==> Finds(b, LineStart(ls, k), 'Z') && Finds(b, LineStart(ls, k), ':')
    ensures k == |ls| ==> LineStart(ls, k) == |b| - 2 && !Finds(b, LineStart(ls, k), ':')
  {
    hide Finds, LineOk, RenderItems, RenderAll;
    var i := LineStart(ls, k);
    RenderSplit(ls, k);
    assert ls[..|ls|] == ls;
    NulEnds(b, ls);
    if k < |ls| {
      LineIsThere(b, ls, k);
      FindsIt(b, i, |b| - 2, 'Z');
      var a, colon := |ls[k].address|, i + |ls[k].address|;
      assert b[colon] == b[i..i + |Render(ls[k])|][a] == ':';
      FindsIt(b, i, colon, ':');
    } else {
      NoColonAtEnd(b);
    }
  }

  lemma NoColonAtEnd(b: seq<char>)
    requires Terminated(b)
    ensures !Finds(b, |b| - 2, ':')
  {
    assert !Finds(b, |b| - 1, ':');
  }

  lemma ColonIsThere(b: seq<char>, i: nat, l: Line)
    requires Terminated(b) && At(b, i, Render(l))
    ensures At(b, i, l.address + ":") && At(b, i + |l.address| + 1, RenderItems(l.items) + "\n")
    ensures i + |l.address| + 1 < |b| && b[i + |l.address|] == ':'
    ensures |Render(l)| == |l.address| + 1 + |RenderItems(l.items)| + 1
  {
    hide RenderItems;
    var tail := RenderItems(l.items) + "\n";
    assert Render(l) == l.address + ":" + tail;
    AtParts(b, i, l.address + ":", tail);
    assert b[i + |l.address|] == b[i..i + |l.address + ":"|][|l.address|];
  }

  /** Where reading a line that starts at `i` ends. */
  function LineStop(l: Line, i: nat): int {
    if Unread(l.items) == [] then i + |Render(l)| else i + |Render(l)| - 1 - |RenderItems(Unread(l.items))|
  }

  /** The parts of a line, as the loader reads them. */
  lemma LineIsRead(b: seq<char>, i: nat, l: Line)
    requires Terminated(b) && At(b, i, Render(l)) && LineOk(l) && i + |Render(l)| < |b|
    ensures var colon := i + |l.address|;
      && colon + 1 < |b| && b[colon] == ':'
      && LineBytes(b, colon + 1) == (ReadBytes(l.items), LineStop(l, i))
      && (l.address == "" <==> b[i] == ':')
      && (l.address != "" ==> Parse(b, i, 16).1 == colon && U32(Parse(b, i, 16).0) == U32(HexValue(l.address)))
    ensures Unread(l.items) != [] ==>
      i <= LineStop(l, i) < |b| && At(b, LineStop(l, i), RenderItems(Unread(l.items)) + "\n")
  {
    hide LineBytes, Parse, U32, HexValue, RenderItems, ReadBytes, Unread, HexDigit, At, Render;
    ColonIsThere(b, i, l);
    DataIsRead(b, i + |l.address| + 1, l.items);
    if l.address != "" { AddressIsRead(b, i, l.address); }
  }

  /** One turn of the loader's loop reads one line. */
  lemma OneLine(b: seq<char>, ls: seq<Line>, k: nat, addr: int, data: seq<byte>)
    requires Holds(b, ls) && k < |ls| && forall j :: 0 <= j < |ls| ==> LineOk(ls[j])
    requires ls[k].address == "" || data == []
    ensures Terminated(b) && LineStart(ls, k) < |b| && 0 <= LineStop(ls[k], LineStart(ls, k)) < |b|
    ensures var d, i := ReadBytes(ls[k].items), LineStart(ls, k);
      Chunk(b, Progress(addr, data, i))
      == Chunk(b, Progress(U32(Base(ls[k], addr) + |d|), data + d, LineStop(ls[k], i)))
    ensures Unread(ls[k].items) != [] ==> At(b, LineStop(ls[k], LineStart(ls, k)), RenderItems(Unread(ls[k].items)) + "\n")
    ensures Unread(ls[k].items) == [] ==> LineStop(ls[k], LineStart(ls, k)) == LineStart(ls, k + 1)
  {
    hide LineBytes, Parse, Finds, U32, HexValue, Render, RenderAll, ReadBytes, Unread, LineOk, Chunk, At, LineStart;
    var i, l := LineStart(ls, k), ls[k];
    LineIsThere(b, ls, k);
    ColonAhead(b, ls, k);
    ColonAhead(b, ls, k + 1);
    LineIsRead(b, i, l);
    Unfold(b, Progress(addr, data, i));
  }

  lemma Unfold(b: seq<char>, p: Progress)
    requires Terminated(b) && p.pos < |b| && Finds(b, p.pos, 'Z') && Finds(b, p.pos, ':')
    ensures b[p.pos] == ':' ==> p.pos + 1 < |b| && Chunk(b, p) == Chunk(b, AfterColon(b, p.pos + 1, p.addr, p.data))
    ensures b[p.pos] != ':' && p.data == [] && b[Parse(b, p.pos, 16).1] == ':' ==>
              var (v, j) := Parse(b, p.pos, 16);
              j + 1 < |b| && Chunk(b, p) == Chunk(b, AfterColon(b, j + 1, U32(v), p.data))
    ensures b[p.pos] != ':' && p.data != [] ==> Chunk(b, p) == p
  {
    hide Finds, Parse, LineBytes, U32;
  }

  /** What one call really does: it reads a group of lines, but gets stuck in the line `group.next` if
      there is a digit from 'B' to 'F'. */
  datatype Reading = Reading(group: Group, stuck: bool)

  function Reads(ls: seq<Line>, k: nat, addr: int, data: seq<byte>): (r: Reading)
    requires k <= |ls|
    ensures k <= r.group.next <= |ls| && (r.stuck ==> r.group.next < |ls| && Unread(ls[r.group.next].items) != [])
    ensures k < |ls| && data == [] && !r.stuck ==> k < r.group.next
    ensures 0 <= addr < TWO_32 ==> 0 <= r.group.addr < TWO_32
    decreases |ls| - k
  {
    if k == |ls| || (ls[k].address != "" && data != []) then Reading(Group(addr, data, k), false)
    else
      var d := ReadBytes(ls[k].items);
      var after := U32(Base(ls[k], addr) + |d|);
      if Unread(ls[k].items) != [] then Reading(Group(after, data + d, k), true) else Reads(ls, k + 1, after, data + d)
  }

  /** On a buffer of whole lines, a call of the loader does that. */
  lemma {:induction false} ChunkIsReading(b: seq<char>, ls: seq<Line>, k: nat, addr: int, data: seq<byte>)
    requires Holds(b, ls) && k <= |ls| && forall j :: 0 <= j < |ls| ==> LineOk(ls[j])
    ensures Terminated(b) && LineStart(ls, k) < |b|
    ensures var r := Reads(ls, k, addr, data);
      var p := Chunk(b, Progress(addr, data, LineStart(ls, k)));
      && p.data == r.group.data
      && (!r.stuck ==> p == Progress(r.group.addr, r.group.data, LineStart(ls, r.group.next)))
      && (r.stuck && p.data != [] ==>
            p.addr == r.group.addr && p.pos == LineStop(ls[r.group.next], LineStart(ls, r.group.next)))
    decreases |ls| - k
  {
    hide Finds, Base, U32, RenderAll, ReadBytes, Unread, LineOk, Render, LineStart, Parse, AfterColon, LineStop, At;
    ColonAhead(b, ls, k);
    if k < |ls| {
      if ls[k].address == "" || data == [] {
        OneLine(b, ls, k, addr, data);
        var d, i := ReadBytes(ls[k].items), LineStart(ls, k);
        var after := U32(Base(ls[k], addr) + |d|);
        if Unread(ls[k].items) == [] {
          ChunkIsReading(b, ls, k + 1, after, data + d);
        } else {
          UnreadIsWellFormed(ls[k]);
          UnknownDigitEndsTheChunk(b, LineStop(ls[k], i), Unread(ls[k].items), after, data + d);
        }
      } else {
        AddressStarts(b, ls, k);
        Unfold(b, Progress(addr, data, LineStart(ls, k)));
      }
    }
  }

  lemma UnreadIsWellFormed(l: Line)
    requires LineOk(l)
    ensures ItemsWellFormed(Unread(l.items)) && (Readable(l) <==> Unread(l.items) == [])
  {
    hide ItemsOk, ItemsWellFormed, Unread, ReadBytes, ItemBytes;
    ReadsAll(l.items);
  }

  /** Readable lines are read to the end of their group. */
  lemma {:induction false} ReadingIsGroup(ls: seq<Line>, k: nat, addr: int, data: seq<byte>)
    requires k <= |ls| && forall j :: 0 <= j < |ls| ==> LineOk(ls[j]) && Readable(ls[j])
    ensures Reads(ls, k, addr, data) == Reading(Consume(ls, k, addr, data), false)
    decreases |ls| - k
  {
    hide LineOk, Readable, ReadBytes, ItemBytes, Unread, Base, U32, ItemsOk, ItemsWellFormed;
    if k < |ls| && (ls[k].address == "" || data == []) {
      BytesOfReadable(ls[k]);
      var d := ItemBytes(ls[k].items);
      ReadingIsGroup(ls, k + 1, U32(Base(ls[k], addr) + |d|), data + d);
    }
  }

  lemma BytesOfReadable(l: Line)
    requires LineOk(l)
    ensures Readable(l) ==> Unread(l.items) == [] && ReadBytes(l.items) == ItemBytes(l.items)
    ensures !Readable(l) ==> Unread(l.items) != [] && |ReadBytes(l.items)| < |ItemBytes(l.items)|
  {
    hide ItemsOk, ItemsWellFormed, Unread, ReadBytes, ItemBytes;
    ReadsAll(l.items);
  }

  /** So on a buffer of whole readable lines, the loader reads a group of lines. */
  lemma ChunkIsGroup(b: seq<char>, ls: seq<Line>, k: nat, addr: int, data: seq<byte>)
    requires Holds(b, ls) && k <= |ls| && forall j :: 0 <= j < |ls| ==> LineOk(ls[j]) && Readable(ls[j])
    ensures Terminated(b) && LineStart(ls, k) < |b|
    ensures var g := Consume(ls, k, addr, data);
      Chunk(b, Progress(addr, data, LineStart(ls, k))) == Progress(g.addr, g.data, LineStart(ls, g.next))
  {
    hide LineOk, Readable, Chunk, Reads, Consume, LineStart, Holds, Terminated;
    ChunkIsReading(b, ls, k, addr, data);
    ReadingIsGroup(ls, k, addr, data);
  }

  lemma AddressStarts(b: seq<char>, ls: seq<Line>, k: nat)
    requires Holds(b, ls) && k < |ls| && LineOk(ls[k]) && ls[k].address != ""
    ensures LineStart(ls, k) < |b| && b[LineStart(ls, k)] != ':'
  {
    var i := LineStart(ls, k);
    LineIsThere(b, ls, k);
    assert b[i] == b[i..i + |Render(ls[k])|][0] == ls[k].address[0];
    NoSpace(ls[k].address[0]);
  }

  // ----- from the file to a buffer of whole lines -----

  /** How many lines fit into `limit` characters. */
  function Fit(ls: seq<Line>, limit: int): (j: nat)
    ensures j <= |ls|
  {
    if ls == [] || |Render(ls[0])| > limit then 0 else 1 + Fit(ls[1..], limit - |Render(ls[0])|)
  }

  lemma OneNewline(l: Line)
    requires LineOk(l)
    ensures |Render(l)| > 0 && Render(l)[|Render(l)| - 1] == '\n'
    ensures forall i :: 0 <= i < |Render(l)| - 1 ==> Render(l)[i] != '\n'
  {
    NoNulInItems(l.items);
    var items := RenderItems(l.items);
    forall i | 0 <= i < |Render(l)| - 1 ensures Render(l)[i] != '\n' {
      if i < |l.address| {
        assert HexDigit(l.address[i]);
      } else if i > |l.address| {
        assert Render(l)[i] == items[i - |l.address| - 1];
      }
    }
  }

  function Prefix(s: seq<char>, limit: int): (w: seq<char>)
    ensures |w| <= |s|
  {
    if 0 <= limit <= |s| then s[..limit] else s
  }

  /** `w` is `r`, and has no newline from place `p` on, and one right before. */
  ghost predicate EndsLines(w: seq<char>, p: nat, r: seq<char>) {
    && |r| == p <= |w| && w[..p] == r
    && (p > 0 ==> w[p - 1] == '\n')
    && forall i :: p <= i < |w| ==> w[i] != '\n'
  }

  lemma EndsOneMore(r: seq<char>, w: seq<char>, p: nat, lines: seq<char>)
    requires EndsLines(w, p, lines) && |r| > 0 && r[|r| - 1] == '\n'
    ensures EndsLines(r + w, |r| + p, r + lines)
  {
    assert (r + w)[..|r| + p] == r + w[..p];
    forall i | |r| + p <= i < |r + w| ensures (r + w)[i] != '\n' { assert (r + w)[i] == w[i - |r|]; }
    assert p > 0 ==> (r + w)[|r| + p - 1] == w[p - 1];
  }

  lemma PrefixOfTwo(r: seq<char>, rest: seq<char>, limit: int)
    requires limit >= 0
    ensures |r| <= limit ==> Prefix(r + rest, limit) == r + Prefix(rest, limit - |r|)
    ensures |r| > limit ==> Prefix(r + rest, limit) == r[..limit]
  {
  }

  /** Of the characters that fit, the last newline ends the last line that fits. */
  lemma {:induction false} LinesThatFit(ls: seq<Line>, limit: int)
    requires limit >= 0 && forall j :: 0 <= j < |ls| ==> LineOk(ls[j])
    ensures var lines := RenderAll(ls[..Fit(ls, limit)]);
      EndsLines(Prefix(RenderAll(ls), limit), |lines|, lines)
    decreases |ls|
  {
    hide Render, LineOk, Prefix, EndsLines;
    if ls == [] {
      NoLines(Prefix("", limit));
    } else {
      var r, rest := Render(ls[0]), RenderAll(ls[1..]);
      OneNewline(ls[0]);
      PrefixOfTwo(r, rest, limit);
      if |r| <= limit {
        LinesThatFit(ls[1..], limit - |r|);
        var j := Fit(ls[1..], limit - |r|);
        assert ls[..j + 1][0] == ls[0] && ls[..j + 1][1..] == ls[1..][..j];
        var lines := RenderAll(ls[1..][..j]);
        EndsOneMore(r, Prefix(rest, limit - |r|), |lines|, lines);
      } else {
        assert RenderAll(ls[..0]) == "";
        NoLines(r[..limit]);
      }
    }
  }

  lemma NoLines(w: seq<char>)
    requires forall i :: 0 <= i < |w| ==> w[i] != '\n'
    ensures EndsLines(w, 0, "")
  {
  }

  lemma LastNewlineIs(s: seq<char>, k: nat)
    requires k < |s| && s[k] == '\n' && forall i :: k < i < |s| ==> s[i] != '\n'
    ensures '\n' in s && LastNewline(s) == k
  {
    assert '\n' in s;
  }

  lemma WindowIsPrefix(content: seq<char>, pos: nat, max: nat)
    requires pos <= |content|
    ensures Window(content, pos, max) == Prefix(content[pos..], Limit(max))
  {
  }

  /** At the start of a line that fits, the window has a newline, and the terminated buffer holds
      the lines that fit. */
  lemma WindowHoldsLines(content: seq<char>, pos: nat, ls: seq<Line>, max: nat)
    requires pos <= |content| && content[pos..] == RenderAll(ls) && ls != []
    requires forall j :: 0 <= j < |ls| ==> LineOk(ls[j])
    requires |Render(ls[0])| <= Limit(max)
    ensures var w := Window(content, pos, max);
      '\n' in w && Fit(ls, Limit(max)) > 0 && Holds(Buffer(w), ls[..Fit(ls, Limit(max))])
  {
    hide LineOk, Render, LastNewline, Prefix, Window, Limit;
    var w, j := Window(content, pos, max), Fit(ls, Limit(max));
    WindowIsPrefix(content, pos, max);
    LinesThatFit(ls, Limit(max));
    OneNewline(ls[0]);
    assert ls[..j][0] == ls[0];
    var p := |RenderAll(ls[..j])|;
    LastNewlineIs(w, p - 1);
  }

  // ----- many calls -----

  /** What the calls load, starting at a line. */
  function LoadLines(ls: seq<Line>, addr: int, limit: nat): seq<Write>
    decreases |ls|
  {
    var g := FirstGroup(ls, addr, limit);
    if g.data == [] then []
    else Place(U32(g.addr - |g.data|), g.data) + LoadLines(ls[g.next..], g.addr, limit)
  }

  /** A line without digit pairs. */
  predicate Empty(l: Line) { forall i :: 0 <= i < |l.items| ==> l.items[i].Blank? }

  predicate AllEmpty(ls: seq<Line>) { forall i :: 0 <= i < |ls| ==> Empty(ls[i]) }

  /** Where a call ends: at the first line with an address of its own after some data. */
  function CallEnd(ls: seq<Line>, k: nat, got: bool): (m: nat)
    requires k <= |ls|
    ensures k <= m <= |ls|
    decreases |ls| - k
  {
    if k == |ls| || (ls[k].address != "" && got) then k else CallEnd(ls, k + 1, got || !Empty(ls[k]))
  }

  /** The first call that would find no data is followed by nothing but lines without data. */
  predicate LoadsAll(ls: seq<Line>, limit: nat)
    decreases |ls|
  {
    ls == []
    || (var m := CallEnd(ls[..Fit(ls, limit)], 0, false);
        if AllEmpty(ls[..m]) then AllEmpty(ls) else LoadsAll(ls[m..], limit))
  }

  /** The address after the lines. */
  function AddressAfter(ls: seq<Line>, addr: int): int {
    if ls == [] then addr else AddressAfter(ls[1..], U32(Base(ls[0], addr) + |ItemBytes(ls[0].items)|))
  }

  lemma {:induction false} WritesSplit(ls: seq<Line>, k: nat, addr: int)
    requires k <= |ls|
    ensures Writes(ls, addr) == Writes(ls[..k], addr) + Writes(ls[k..], AddressAfter(ls[..k], addr))
    decreases k
  {
    hide Place, Base, U32;
    if k == 0 {
      assert ls[..0] == [] && ls[0..] == ls;
    } else {
      WritesSplit(ls[1..], k - 1, U32(Base(ls[0], addr) + |ItemBytes(ls[0].items)|));
      assert ls[..k][1..] == ls[1..][..k - 1] && ls[1..][k - 1..] == ls[k..] && ls[..k][0] == ls[0];
    }
  }

  lemma PlaceSplit(base: int, d: seq<byte>, e: seq<byte>)
    ensures Place(base, d + e) == Place(base, d) + Place(U32(base + |d|), e)
  {
    var w, w' := Place(base, d + e), Place(base, d) + Place(U32(base + |d|), e);
    forall i | 0 <= i < |d + e| ensures w[i] == w'[i] {
      if i >= |d| { Again(base + |d|, i - |d|); }
    }
  }

  lemma Again(x: int, y: int)
    ensures U32(U32(x) + y) == U32(x + y)
  {
    var k := x / TWO_32;
    assert x == U32(x) + k * TWO_32;
    Shift(U32(x) + y, k);
  }

  lemma PlaceFrom(addr: int, data: seq<byte>, d: seq<byte>)
    requires 0 <= addr < TWO_32
    ensures U32(U32(addr + |d|) - |data + d|) == U32(addr - |data|)
    ensures Place(U32(addr - |data|), data + d) == Place(U32(addr - |data|), data) + Place(addr, d)
  {
    Again(addr + |d|, -|data + d|);
    Again(addr - |data|, |data|);
    PlaceSplit(U32(addr - |data|), data, d);
  }

  /** The first of some lines, and the others. */
  lemma WritesOfFirst(ls: seq<Line>, k: nat, m: nat, addr: int)
    requires k < m <= |ls|
    ensures var d, base := ItemBytes(ls[k].items), Base(ls[k], addr);
      && Writes(ls[k..m], addr) == Place(base, d) + Writes(ls[k + 1..m], U32(base + |d|))
      && AddressAfter(ls[k..m], addr) == AddressAfter(ls[k + 1..m], U32(base + |d|))
  {
    hide Place, ItemBytes, Base, U32;
    assert ls[k..m][1..] == ls[k + 1..m] && ls[k..m][0] == ls[k];
  }

  /** What one call reads is what the lines of its group write. */
  lemma {:induction false} GroupWrites(ls: seq<Line>, k: nat, addr: int, data: seq<byte>)
    requires k <= |ls| && 0 <= addr < TWO_32
    ensures var g := Consume(ls, k, addr, data);
      && 0 <= g.addr < TWO_32 && g.addr == AddressAfter(ls[k..g.next], addr)
      && Place(U32(g.addr - |g.data|), g.data) == Place(U32(addr - |data|), data) + Writes(ls[k..g.next], addr)
    decreases |ls| - k
  {
    hide Place, ItemBytes, HexValue, U32, Writes, AddressAfter;
    var g := Consume(ls, k, addr, data);
    if k == |ls| || (ls[k].address != "" && data != []) {
      assert ls[k..g.next] == [];
      NoWrites(addr);
    } else {
      var d, base := ItemBytes(ls[k].items), Base(ls[k], addr);
      GroupWrites(ls, k + 1, U32(base + |d|), data + d);
      PlaceFrom(base, data, d);
      EmptyPlace(U32(addr - |data|), U32(base - |data|), data);
      WritesOfFirst(ls, k, g.next, addr);
    }
  }

  lemma NoWrites(addr: int)
    ensures Writes([], addr) == [] && AddressAfter([], addr) == addr
  {
  }

  lemma EmptyPlace(a: int, b: int, data: seq<byte>)
    ensures data == [] ==> Place(a, data) == Place(b, data)
  {
  }

  /** The group of lines that a call starts with. */
  function FirstGroup(ls: seq<Line>, addr: int, limit: nat): (g: Group)
    ensures g.next <= |ls| && (ls != [] && |Render(ls[0])| <= limit ==> g.next > 0)
    ensures g.data != [] ==> g.next > 0
    ensures 0 <= addr < TWO_32 ==> 0 <= g.addr < TWO_32
  {
    Consume(ls[..Fit(ls, limit)], 0, addr, [])
  }

  lemma FirstGroupWrites(ls: seq<Line>, addr: int, limit: nat)
    requires 0 <= addr < TWO_32
    ensures var g := FirstGroup(ls, addr, limit);
      Writes(ls, addr) == Place(U32(g.addr - |g.data|), g.data) + Writes(ls[g.next..], g.addr)
  {
    hide Place, U32, Writes, Consume, AddressAfter, Fit;
    var fit := ls[..Fit(ls, limit)];
    var g := Consume(fit, 0, addr, []);
    GroupWrites(fit, 0, addr, []);
    NothingPlaced(U32(addr));
    assert fit[0..g.next] == ls[..g.next];
    WritesSplit(ls, g.next, addr);
  }

  lemma {:induction false} EmptyHasNoBytes(ts: seq<Item>)
    ensures ItemBytes(ts) == [] <==> forall i :: 0 <= i < |ts| ==> ts[i].Blank?
    decreases |ts|
  {
    if ts != [] {
      EmptyHasNoBytes(ts[1..]);
      assert forall i :: 0 < i < |ts| ==> ts[i] == ts[1..][i - 1];
    }
  }

  /** Where a group ends, and whether it has data, can be seen from the lines alone. */
  lemma {:induction false} GroupEnds(ls: seq<Line>, k: nat, addr: int, data: seq<byte>)
    requires k <= |ls|
    ensures var g := Consume(ls, k, addr, data);
      && g.next == CallEnd(ls, k, data != [])
      && (g.data == [] <==> data == [] && AllEmpty(ls[k..g.next]))
    decreases |ls| - k
  {
    hide ItemBytes, Base, U32, Empty, AllEmpty;
    if k < |ls| && (ls[k].address == "" || data == []) {
      var d := ItemBytes(ls[k].items);
      ByteOfLine(ls[k]);
      GroupEnds(ls, k + 1, U32(Base(ls[k], addr) + |d|), data + d);
      var m := CallEnd(ls, k, data != []);
      FirstOfLines(ls[k..m]);
      assert ls[k..m][1..] == ls[k + 1..m];
    } else {
      NoLinesAreEmpty(ls[k..k]);
    }
  }

  lemma NoLinesAreEmpty(ls: seq<Line>)
    ensures ls == [] ==> AllEmpty(ls)
  {
  }

  lemma FirstOfLines(ls: seq<Line>)
    requires ls != []
    ensures AllEmpty(ls) <==> Empty(ls[0]) && AllEmpty(ls[1..])
  {
    assert forall i :: 0 < i < |ls| ==> ls[i] == ls[1..][i - 1];
    assert forall i :: 0 <= i < |ls| - 1 ==> ls[1..][i] == ls[i + 1];
  }

  lemma ByteOfLine(l: Line)
    ensures ItemBytes(l.items) == [] <==> Empty(l)
  {
    EmptyHasNoBytes(l.items);
  }

  lemma FirstGroupEnds(ls: seq<Line>, addr: int, limit: nat)
    ensures var g, m := FirstGroup(ls, addr, limit), CallEnd(ls[..Fit(ls, limit)], 0, false);
      m == g.next && (g.data == [] <==> AllEmpty(ls[..m]))
  {
    hide AllEmpty, Consume, CallEnd;
    var fit := ls[..Fit(ls, limit)];
    GroupEnds(fit, 0, addr, []);
    var m := CallEnd(fit, 0, false);
    assert fit[0..m] == ls[..m];
  }

  lemma {:induction false} NothingToWrite(ls: seq<Line>, addr: int)
    ensures Writes(ls, addr) == [] <==> AllEmpty(ls)
    decreases |ls|
  {
    hide ItemBytes, Base, U32, Empty, AllEmpty;
    if ls == [] {
      NoLinesAreEmpty(ls);
    } else {
      var d, base := ItemBytes(ls[0].items), Base(ls[0], addr);
      ByteOfLine(ls[0]);
      NothingToWrite(ls[1..], U32(base + |d|));
      assert |Place(base, d)| == |d|;
      FirstOfLines(ls);
    }
  }

  /** The main theorem.  Reading in chunks writes the same bytes to the same places, in the same
      order, as reading the whole file at once, exactly if no data comes after the first call that
      finds none. */
  lemma {:induction false} ChunksLoadTheFile(ls: seq<Line>, addr: int, limit: nat)
    requires 0 <= addr < TWO_32
    ensures LoadLines(ls, addr, limit) == Writes(ls, addr) <==> LoadsAll(ls, limit)
    decreases |ls|
  {
    hide Place, U32, FirstGroup, CallEnd, Writes, AllEmpty;
    FirstGroupWrites(ls, addr, limit);
    FirstGroupEnds(ls, addr, limit);
    NothingToWrite(ls, addr);
    var g := FirstGroup(ls, addr, limit);
    if ls == [] {
      NoGroup(addr, limit);
      NoWrites(addr);
    } else if g.data != [] {
      ChunksLoadTheFile(ls[g.next..], g.addr, limit);
      SameEnds(Place(U32(g.addr - |g.data|), g.data), LoadLines(ls[g.next..], g.addr, limit), Writes(ls[g.next..], g.addr));
    }
  }

  lemma SameEnds(a: seq<Write>, b: seq<Write>, c: seq<Write>)
    ensures a + b == a + c <==> b == c
  {
    assert (a + b)[|a|..] == b && (a + c)[|a|..] == c;
  }

  lemma NoGroup(addr: int, limit: nat)
    ensures FirstGroup([], addr, limit).data == []
  {
  }

  lemma NothingPlaced(a: int)
    ensures Place(a, []) == []
  {
  }

  /** Lines that fit into a chunk and have at least one byte each are all loaded. */
  lemma {:induction false} LinesWithData(ls: seq<Line>, limit: nat)
    requires forall j :: 0 <= j < |ls| ==> |Render(ls[j])| <= limit && !Empty(ls[j])
    ensures LoadsAll(ls, limit)
    decreases |ls|
  {
    hide Render, Empty;
    if ls != [] {
      var fit := ls[..Fit(ls, limit)];
      assert fit[0] == ls[0];
      var m := CallEnd(fit, 0, false);
      assert m > 0 && ls[..m][0] == ls[0];
      LinesWithData(ls[m..], limit);
    }
  }

  function Colons(n: nat): (ls: seq<Line>)
    ensures |ls| == n && forall i :: 0 <= i < n ==> ls[i] == Line("", [])
  {
    seq(n, i => Line("", []))
  }

  lemma {:induction false} ColonsFit(ls: seq<Line>, n: nat)
    requires n <= |ls| && ls[..n] == Colons(n)
    ensures Fit(ls, 2 * n) == n
    decreases n
  {
    if n > 0 {
      assert ls[0] == ls[..n][0] && ls[1..][..n - 1] == Colons(n)[1..] == Colons(n - 1);
      assert Render(ls[0]) == ":\n";
      ColonsFit(ls[1..], n - 1);
    }
  }

  /** A hundred lines with nothing but a colon fill a chunk, and end the load: the data after them
      is lost. */
  lemma HundredColons(l: Line, addr: int)
    requires 0 <= addr < TWO_32 && !Empty(l)
    ensures LoadLines(Colons(100) + [l], addr, LOCALBUF) == [] != Writes(Colons(100) + [l], addr)
  {
    hide FirstGroup, CallEnd, Writes, Empty;
    var ls := Colons(100) + [l];
    assert ls[..100] == Colons(100);
    ColonsFit(ls, 100);
    var m := CallEnd(ls[..100], 0, false);
    forall i | 0 <= i < m ensures Empty(ls[..m][i]) { NothingIsEmpty(); }
    FirstGroupEnds(ls, addr, LOCALBUF);
    assert ls[100] == l;
    NothingToWrite(ls, addr);
  }

  lemma NothingIsEmpty()
    ensures Empty(Line("", []))
  {
  }
}
