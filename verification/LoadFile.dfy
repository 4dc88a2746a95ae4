/** The loop of ProcessFork that loads a program (os/process.c:486-491), on every file of well-formed
    lines that fit into a window. */
module LoadFile {
  import opened Words
  import opened Numbers
  import opened Loader
  import opened LoadImage

  // ----- one call -----

  function FirstReading(ls: seq<Line>, addr: int, limit: nat): (r: Reading)
    ensures r.group.next <= |ls| && (r.stuck ==> r.group.next < |ls| && Unread(ls[r.group.next].items) != [])
    ensures !r.stuck && r.group.data != [] ==> r.group.next > 0
    ensures 0 <= addr < TWO_32 ==> 0 <= r.group.addr < TWO_32
  {
    var fit := ls[..Fit(ls, limit)];
    NothingRead(fit, addr);
    Reads(fit, 0, addr, [])
  }

  lemma NothingRead(ls: seq<Line>, addr: int)
    ensures !Reads(ls, 0, addr, []).stuck && Reads(ls, 0, addr, []).group.data != [] ==> Reads(ls, 0, addr, []).group.next > 0
  {
  }

  /** What is left of the file after a call that found some data. */
  function After(ls: seq<Line>, r: Reading): string
    requires r.group.next <= |ls| && (r.stuck ==> r.group.next < |ls|)
  {
    if r.stuck then RenderItems(Unread(ls[r.group.next].items)) + "\n" + RenderAll(ls[r.group.next + 1..])
    else RenderAll(ls[r.group.next..])
  }

  /** One call at the start of a line. */
  lemma NextCall(content: seq<char>, pos: nat, ls: seq<Line>, addr: int, max: nat)
    requires pos <= |content| && content[pos..] == RenderAll(ls) && 0 <= addr < TWO_32
    requires forall j :: 0 <= j < |ls| ==> LineOk(ls[j]) && |Render(ls[j])| <= Limit(max)
    ensures ls == [] <==> pos == |content|
    ensures ls != [] ==> '\n' in Window(content, pos, max)
    ensures ls != [] ==>
      var r := FirstReading(ls, addr, Limit(max));
      var p := Chunk(Buffer(Window(content, pos, max)), Progress(addr, [], 0));
      && p.data == r.group.data
      && (p.data != [] ==> p.addr == r.group.addr && pos + p.pos <= |content| && content[pos + p.pos..] == After(ls, r))
  {
    hide LineOk, Render, Chunk, LastNewline, Window, Buffer, Reads, LineStop, Limit, Fit, After;
    if ls == [] {
      assert RenderAll(ls) == "";
    } else {
      FirstText(ls);
      var fit := ls[..Fit(ls, Limit(max))];
      WindowHoldsLines(content, pos, ls, max);
      ChunkIsReading(Buffer(Window(content, pos, max)), fit, 0, addr, []);
      var r := Reads(fit, 0, addr, []);
      NoStart(fit);
      TextAfter(content, pos, ls, Fit(ls, Limit(max)), r);
    }
  }

  lemma FirstText(ls: seq<Line>)
    requires ls != [] && LineOk(ls[0])
    ensures RenderAll(ls) != ""
  {
    hide LineOk;
    OneNewline(ls[0]);
  }

  lemma NoStart(ls: seq<Line>)
    ensures LineStart(ls, 0) == 0
  {
    assert ls[..0] == [];
  }

  /** The text behind what a call has read. */
  lemma TextAfter(content: seq<char>, pos: nat, ls: seq<Line>, j: nat, r: Reading)
    requires pos <= |content| && content[pos..] == RenderAll(ls) && r.group.next <= j <= |ls|
    requires r.stuck ==> r.group.next < j && Unread(ls[r.group.next].items) != []
    ensures var k, fit := r.group.next, ls[..j];
      var i := pos + if r.stuck then LineStop(fit[k], LineStart(fit, k)) else LineStart(fit, k);
      0 <= i <= |content| && content[i..] == After(ls, r)
  {
    hide RenderAll, RenderItems, LineStop, LineStart, Unread;
    var k := r.group.next;
    SameStart(ls, j, k);
    if r.stuck { RestOfLine(content, pos, ls, k); } else { LinesBehind(content, pos, ls, k); }
  }

  lemma SameStart(ls: seq<Line>, j: nat, k: nat)
    requires k <= j <= |ls|
    ensures LineStart(ls[..j], k) == LineStart(ls, k) && (k < j ==> ls[..j][k] == ls[k])
  {
    assert ls[..j][..k] == ls[..k];
  }

  lemma LinesBehind(content: seq<char>, pos: nat, ls: seq<Line>, k: nat)
    requires pos <= |content| && content[pos..] == RenderAll(ls) && k <= |ls|
    ensures pos + LineStart(ls, k) <= |content| && content[pos + LineStart(ls, k)..] == RenderAll(ls[k..])
  {
    hide RenderAll;
    RenderSplit(ls, k);
    TextBehind(content, pos, RenderAll(ls[..k]), RenderAll(ls[k..]));
  }

  /** The text of the items that are read. */
  function ReadPart(ts: seq<Item>): string {
    if ts == [] || !ItemOk(ts[0]) then "" else RenderItem(ts[0]) + ReadPart(ts[1..])
  }

  lemma {:induction false} ReadAndUnread(ts: seq<Item>)
    ensures RenderItems(ts) == ReadPart(ts) + RenderItems(Unread(ts))
    decreases |ts|
  {
    hide ItemOk, RenderItem;
    if ts != [] && ItemOk(ts[0]) { ReadAndUnread(ts[1..]); }
  }

  /** The text of a line up to the place where reading it stops, and from there on. */
  lemma LineParts(l: Line)
    ensures Render(l) == (l.address + ":" + ReadPart(l.items)) + (RenderItems(Unread(l.items)) + "\n")
    ensures Unread(l.items) != [] ==>
      forall i: nat :: LineStop(l, i) == i + |l.address + ":" + ReadPart(l.items)|
  {
    hide ReadPart, RenderItems, Unread;
    ReadAndUnread(l.items);
    Regroup(l.address + ":", ReadPart(l.items), RenderItems(Unread(l.items)), "\n");
  }

  lemma Regroup(x: string, a: string, b: string, y: string)
    ensures x + (a + b) + y == (x + a) + (b + y)
    ensures x + ((a + b) + y) == (x + a) + (b + y)
  {
  }

  lemma TextBehind(content: seq<char>, pos: nat, a: string, b: string)
    requires pos <= |content| && content[pos..] == a + b
    ensures pos + |a| <= |content| && content[pos + |a|..] == b
  {
    assert content[pos + |a|..] == content[pos..][|a|..];
  }

  lemma FirstLine(ls: seq<Line>, k: nat)
    requires k < |ls|
    ensures RenderAll(ls[k..]) == Render(ls[k]) + RenderAll(ls[k + 1..])
  {
    hide Render;
    assert ls[k..][1..] == ls[k + 1..] && ls[k..][0] == ls[k];
  }

  /** The text from the place where reading line `k` stops. */
  lemma RestOfLine(content: seq<char>, pos: nat, ls: seq<Line>, k: nat)
    requires pos <= |content| && content[pos..] == RenderAll(ls) && k < |ls| && Unread(ls[k].items) != []
    ensures var i := pos + LineStop(ls[k], LineStart(ls, k));
      pos <= i <= |content|
      && content[i..] == RenderItems(Unread(ls[k].items)) + "\n" + RenderAll(ls[k + 1..])
  {
    hide Unread, RenderItems, Render, RenderAll, ReadPart, LineStop;
    RenderSplit(ls, k);
    FirstLine(ls, k);
    var l := ls[k];
    LineParts(l);
    var read, unread := l.address + ":" + ReadPart(l.items), RenderItems(Unread(l.items)) + "\n";
    Regroup(RenderAll(ls[..k]), read, unread, RenderAll(ls[k + 1..]));
    TextBehind(content, pos, RenderAll(ls[..k]) + read, unread + RenderAll(ls[k + 1..]));
  }

  /** One call at a digit from 'B' to 'F' finds no data. */
  lemma StuckCall(content: seq<char>, pos: nat, l: Line, rest: string, addr: int, max: nat)
    requires LineOk(l) && Unread(l.items) != [] && |Render(l)| <= Limit(max)
    requires pos <= |content| && content[pos..] == RenderItems(Unread(l.items)) + "\n" + rest
    ensures pos < |content| && '\n' in Window(content, pos, max)
    ensures Chunk(Buffer(Window(content, pos, max)), Progress(addr, [], 0)).data == []
  {
    hide Chunk, LastNewline, RenderItems, Unread, ItemOk, Limit;
    var ts := Unread(l.items);
    var text := RenderItems(ts) + "\n";
    ReadAndUnread(l.items);
    var w, n := Window(content, pos, max), |text| - 1;
    assert content[pos..][..n + 1] == text;
    assert w[..n + 1] == text && w[n] == text[n] == '\n';
    NewlineBehind(w, n);
    var b := Buffer(w);
    assert b[0..0 + |text|] == w[..n + 1] == text;
    UnreadIsWellFormed(l);
    UnknownDigitEndsTheChunk(b, 0, ts, addr, []);
  }

  lemma NewlineBehind(w: string, n: nat)
    requires n < |w| && w[n] == '\n'
    ensures '\n' in w && LastNewline(w) >= n
  {
    assert w[n] in w;
  }

  // ----- all calls -----

  /** What the calls load, starting at a line. */
  function LoadText(ls: seq<Line>, addr: int, limit: nat): seq<Write>
    decreases |ls|
  {
    var r := FirstReading(ls, addr, limit);
    var g := r.group;
    if g.data == [] then []
    else Place(U32(g.addr - |g.data|), g.data) + if r.stuck then [] else LoadText(ls[g.next..], g.addr, limit)
  }

  ghost predicate AllReadable(ls: seq<Line>) { forall j :: 0 <= j < |ls| ==> Readable(ls[j]) }

  lemma {:induction false} ReadableText(ls: seq<Line>, addr: int, limit: nat)
    requires AllReadable(ls) && forall j :: 0 <= j < |ls| ==> LineOk(ls[j])
    ensures LoadText(ls, addr, limit) == LoadLines(ls, addr, limit)
    decreases |ls|
  {
    hide Place, U32, LineOk, Readable, Reads, Consume;
    var fit := ls[..Fit(ls, limit)];
    ReadingIsGroup(fit, 0, addr, []);
    var g := FirstGroup(ls, addr, limit);
    if g.data != [] { ReadableText(ls[g.next..], g.addr, limit); }
  }

  /** The number of bytes in the lines. */
  function Bytes(ls: seq<Line>): nat {
    if ls == [] then 0 else |ItemBytes(ls[0].items)| + Bytes(ls[1..])
  }

  lemma {:induction false} BytesSplit(ls: seq<Line>, k: nat)
    requires k <= |ls|
    ensures Bytes(ls) == Bytes(ls[..k]) + Bytes(ls[k..])
    decreases k
  {
    hide ItemBytes;
    if k == 0 {
      assert ls[..0] == [] && ls[0..] == ls;
    } else {
      BytesSplit(ls[1..], k - 1);
      assert ls[..k][1..] == ls[1..][..k - 1] && ls[1..][k - 1..] == ls[k..] && ls[..k][0] == ls[0];
    }
  }

  lemma {:induction false} WritesAllBytes(ls: seq<Line>, addr: int)
    ensures |Writes(ls, addr)| == Bytes(ls)
    decreases |ls|
  {
    hide ItemBytes, Base, U32;
    if ls != [] {
      var d, base := ItemBytes(ls[0].items), Base(ls[0], addr);
      WritesAllBytes(ls[1..], U32(base + |d|));
      assert |Place(base, d)| == |d|;
    }
  }

  lemma NoBytes()
    ensures Bytes([]) == 0 && AllReadable([])
  {
  }

  /** A call that does not get stuck reads readable lines only, and all their bytes; one that does
      reads fewer bytes than its lines have. */
  lemma {:induction false} ReadingCounts(ls: seq<Line>, k: nat, addr: int, data: seq<byte>)
    requires k <= |ls| && forall j :: 0 <= j < |ls| ==> LineOk(ls[j])
    ensures var r := Reads(ls, k, addr, data);
      && (!r.stuck ==> |r.group.data| == |data| + Bytes(ls[k..r.group.next]) && AllReadable(ls[k..r.group.next]))
      && (r.stuck ==> |r.group.data| < |data| + Bytes(ls[k..r.group.next + 1]))
    decreases |ls| - k
  {
    hide LineOk, Readable, AllReadable, Bytes, ReadBytes, ItemBytes, Unread, Base, U32;
    NoBytes();
    if k == |ls| || (ls[k].address != "" && data != []) {
      assert ls[k..k] == [];
    } else {
      BytesOfReadable(ls[k]);
      var d := ReadBytes(ls[k].items);
      var after := U32(Base(ls[k], addr) + |d|);
      var r := Reads(ls, k, addr, data);
      if Unread(ls[k].items) == [] {
        ReadingCounts(ls, k + 1, after, data + d);
        FirstOfBytes(ls, k, r.group.next);
        if r.stuck { FirstOfBytes(ls, k, r.group.next + 1); }
      } else {
        FirstOfBytes(ls, k, k + 1);
        assert ls[k + 1..k + 1] == [];
      }
    }
  }

  lemma FirstOfBytes(ls: seq<Line>, k: nat, m: nat)
    requires k < m <= |ls|
    ensures Bytes(ls[k..m]) == |ItemBytes(ls[k].items)| + Bytes(ls[k + 1..m])
    ensures AllReadable(ls[k..m]) <==> Readable(ls[k]) && AllReadable(ls[k + 1..m])
  {
    hide ItemBytes, Readable;
    var s, t := ls[k..m], ls[k + 1..m];
    assert s[0] == ls[k] && s[1..] == t;
    assert forall j :: 0 < j < |s| ==> s[j] == t[j - 1];
    assert forall j :: 0 <= j < |t| ==> t[j] == s[j + 1];
  }

  /** If some line cannot be read, fewer bytes are loaded than the file has. */
  lemma {:induction false} LoadsFewer(ls: seq<Line>, addr: int, limit: nat)
    requires !AllReadable(ls) && forall j :: 0 <= j < |ls| ==> LineOk(ls[j])
    ensures |LoadText(ls, addr, limit)| < Bytes(ls)
    decreases |ls|
  {
    hide Place, U32, LineOk, Readable, ItemBytes, AllReadable, Bytes;
    var fit := ls[..Fit(ls, limit)];
    var r := FirstReading(ls, addr, limit);
    var g := r.group;
    ReadingCounts(fit, 0, addr, []);
    assert |Place(U32(g.addr - |g.data|), g.data)| == |g.data|;
    if r.stuck {
      assert fit[0..g.next + 1] == ls[..g.next + 1];
      BytesSplit(ls, g.next + 1);
    } else {
      assert fit[0..g.next] == ls[..g.next];
      BytesSplit(ls, g.next);
      ReadableSplit(ls, g.next);
      if g.data == [] {
        SomeBytes(ls[g.next..]);
      } else {
        LoadsFewer(ls[g.next..], g.addr, limit);
      }
    }
  }

  lemma ReadableSplit(ls: seq<Line>, k: nat)
    requires k <= |ls|
    ensures AllReadable(ls) <==> AllReadable(ls[..k]) && AllReadable(ls[k..])
  {
    hide Readable;
    assert forall j :: k <= j < |ls| ==> ls[j] == ls[k..][j - k];
    assert forall j :: 0 <= j < |ls| - k ==> ls[k..][j] == ls[j + k];
  }

  lemma {:induction false} SomeBytes(ls: seq<Line>)
    requires !AllReadable(ls) && forall j :: 0 <= j < |ls| ==> LineOk(ls[j])
    ensures Bytes(ls) > 0
    decreases |ls|
  {
    hide LineOk, Readable, ItemBytes, AllReadable;
    NoBytes();
    ReadableSplit(ls, 0);
    if ls != [] {
      FirstOfBytes(ls, 0, |ls|);
      assert ls[0..|ls|] == ls && ls[1..|ls|] == ls[1..];
      BytesOfReadable(ls[0]);
      if Readable(ls[0]) { SomeBytes(ls[1..]); }
    }
  }

  /** The loop of ProcessFork writes what the whole file says exactly if no data has a digit from 'B'
      to 'F', and none comes after the first call that finds none. */
  lemma LoadsExactly(ls: seq<Line>, addr: int, limit: nat)
    requires 0 <= addr < TWO_32 && forall j :: 0 <= j < |ls| ==> LineOk(ls[j])
    ensures LoadText(ls, addr, limit) == Writes(ls, addr) <==> AllReadable(ls) && LoadsAll(ls, limit)
  {
    hide LineOk, AllReadable, LoadsAll, Writes, LoadText, LoadLines, Bytes;
    if AllReadable(ls) {
      ReadableText(ls, addr, limit);
      ChunksLoadTheFile(ls, addr, limit);
    } else {
      LoadsFewer(ls, addr, limit);
      WritesAllBytes(ls, addr);
    }
  }

  /** What the loader still has to read: whole lines, or the rest of a line that it cannot read. */
  ghost predicate Before(text: string, rest: seq<Line>, stuck: bool, max: nat) {
    && (forall j :: 0 <= j < |rest| ==> LineOk(rest[j]) && |Render(rest[j])| <= Limit(max))
    && (stuck ==> rest != [] && Unread(rest[0].items) != [])
    && text == if stuck then RenderItems(Unread(rest[0].items)) + "\n" + RenderAll(rest[1..]) else RenderAll(rest)
  }

  /** One turn of the loop. */
  lemma OneCall(content: seq<char>, pos: nat, rest: seq<Line>, stuck: bool, addr: int, max: nat)
    requires pos <= |content| && 0 <= addr < TWO_32 && Before(content[pos..], rest, stuck, max)
    ensures pos < |content| ==> '\n' in Window(content, pos, max)
    ensures pos < |content| && stuck ==> Chunk(Buffer(Window(content, pos, max)), Progress(addr, [], 0)).data == []
    ensures pos == |content| && !stuck ==> FirstReading(rest, addr, Limit(max)).group.data == []
    ensures pos < |content| && !stuck ==>
      var r := FirstReading(rest, addr, Limit(max));
      var p := Chunk(Buffer(Window(content, pos, max)), Progress(addr, [], 0));
      && p.data == r.group.data
      && (p.data != [] ==>
            && p.addr == r.group.addr && pos + p.pos <= |content|
            && Before(content[pos + p.pos..], rest[r.group.next..], r.stuck, max))
  {
    hide LineOk, Render, Chunk, Window, Buffer, Reads, Limit;
    if stuck {
      StuckCall(content, pos, rest[0], RenderAll(rest[1..]), addr, max);
    } else {
      NextCall(content, pos, rest, addr, max);
      if rest == [] {
        NoReading(addr, Limit(max));
      }
    }
  }

  lemma NoReading(addr: int, limit: nat)
    ensures FirstReading([], addr, limit).group.data == []
  {
  }

  /** What is still to be loaded. */
  function Left(rest: seq<Line>, stuck: bool, addr: int, limit: nat): seq<Write> {
    if stuck then [] else LoadText(rest, addr, limit)
  }

  function ChunkOf(g: Group): seq<Write> { Place(U32(g.addr - |g.data|), g.data) }

  /** One chunk more, after those in `before`. */
  lemma LoadStep(rest: seq<Line>, stuck: bool, addr: int, limit: nat, before: seq<Write>)
    ensures before + [] == before
    ensures var r := FirstReading(rest, addr, limit);
      before + Left(rest, stuck, addr, limit) ==
        if stuck || r.group.data == [] then before
        else before + ChunkOf(r.group) + Left(rest[r.group.next..], r.stuck, r.group.addr, limit)
  {
    hide Place, U32, FirstReading, LoadText;
    var r := FirstReading(rest, addr, limit);
    FirstOfText(rest, addr, limit);
    Join(before, ChunkOf(r.group), Left(rest[r.group.next..], r.stuck, r.group.addr, limit));
  }

  lemma FirstOfText(rest: seq<Line>, addr: int, limit: nat)
    ensures var r := FirstReading(rest, addr, limit);
      LoadText(rest, addr, limit) ==
        if r.group.data == [] then []
        else Place(U32(r.group.addr - |r.group.data|), r.group.data)
             + if r.stuck then [] else LoadText(rest[r.group.next..], r.group.addr, limit)
  {
    hide Place, U32, FirstReading;
  }

  lemma Join(a: seq<Write>, b: seq<Write>, c: seq<Write>)
    ensures a + (b + c) == a + b + c && a + [] == a
  {
  }

  lemma AtTheStart(ls: seq<Line>, max: nat)
    ensures [] + Left(ls, false, 0, Limit(max)) == LoadText(ls, 0, Limit(max))
  {
  }

  lemma NothingBehind(ls: seq<Line>, max: nat)
    requires forall j :: 0 <= j < |ls| ==> LineOk(ls[j]) && |Render(ls[j])| <= Limit(max)
    ensures Before(RenderAll(ls), ls, false, max)
  {
  }

  /** Each chunk goes to the addresses that end where the loader says. */
  method Load(file: File, ghost ls: seq<Line>, buf: array<byte>) returns (writes: seq<Write>)
    requires file.position == 0 && file.content == RenderAll(ls) && buf.Length > 0
    requires forall j :: 0 <= j < |ls| ==> LineOk(ls[j]) && |Render(ls[j])| <= Limit(buf.Length)
    modifies file, buf
    ensures writes == LoadText(ls, 0, Limit(buf.Length))
    ensures writes == Writes(ls, 0) <==> AllReadable(ls) && LoadsAll(ls, Limit(buf.Length))
  {
    hide Render, RenderAll, LineOk, FirstReading, Place, U32, LoadsAll, Writes, Chunk, Window, Buffer, AllReadable,
         Limit, LoadText, Before, Left;
    AtTheStart(ls, buf.Length);
    NothingBehind(ls, buf.Length);
    writes := [];
    var addr := 0;
    ghost var rest, stuck := ls, false;
    LoadsExactly(ls, 0, Limit(buf.Length));
    assert file.content[0..] == file.content;
    while true
      invariant file.position <= |file.content| && Before(file.content[file.position..], rest, stuck, buf.Length)
      invariant 0 <= addr < TWO_32
      invariant LoadText(ls, 0, Limit(buf.Length)) == writes + Left(rest, stuck, addr, Limit(buf.Length))
      decreases !stuck, |rest|
    {
      OneCall(file.content, file.position, rest, stuck, addr, buf.Length);
      LoadStep(rest, stuck, addr, Limit(buf.Length), writes);
      ghost var r := FirstReading(rest, addr, Limit(buf.Length));
      var n;
      n, addr := GetFromFile(file, buf, addr);
      if n == 0 { break; }
      writes := writes + Place(U32(addr - n), buf[..n]);
      rest, stuck := rest[r.group.next..], r.stuck;
    }
  }
}
