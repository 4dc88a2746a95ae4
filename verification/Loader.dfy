/** The program loader (os/process.c:580-592, 673-745): a file of hexadecimal lines is read in
    chunks of at most 200 characters. */
module Loader {
  import opened Words
  import opened Numbers

  const LOCALBUF: nat := 200    // sizeof(localbuf) - 4

  function U32(x: int): (r: int)
    ensures 0 <= r < TWO_32
    ensures 0 <= x < TWO_32 ==> r == x
  {
    x % TWO_32
  }

  // ----- characters -----

  /** isxdigit, which knows of no upper-case digit but 'A' (include/misc.h:29-34). */
  predicate IsXDigit(c: char) { '0' <= c <= '9' || 'a' <= c <= 'f' || 'A' <= c <= 'A' }

  function XValue(c: char): (v: nat)
    ensures v < 16
  {
    if '0' <= c <= '9' then c as nat - '0' as nat
    else if 'a' <= c <= 'f' then c as nat + 10 - 'a' as nat
    else if 'A' <= c <= 'F' then c as nat + 10 - 'A' as nat
    else 0
  }

  predicate IsBlank(c: char) { c == ' ' || c == '\t' }

  // ----- one chunk -----

  /** A buffer that the loader has terminated: whole lines, then a Z and a NUL. */
  predicate Terminated(b: seq<char>) {
    |b| >= 2 && b[|b| - 2] == 'Z' && b[|b| - 1] == '\0'
  }

  /** dindex finds `c` at or after `i`. */
  predicate Finds(b: seq<char>, i: nat, c: char)
    requires Terminated(b) && i < |b|
    decreases |b| - i
  {
    b[i] != '\0' && (b[i] == c || Finds(b, i + 1, c))
  }

  function SkipBlanks(b: seq<char>, i: nat): (j: nat)
    requires Terminated(b) && i < |b|
    ensures i <= j < |b| && !IsBlank(b[j])
    decreases |b| - i
  {
    if IsBlank(b[i]) then SkipBlanks(b, i + 1) else i
  }

  /** The bytes of the rest of a line, and the place where reading stops: after the newline, or at
      the first character that does not fit. */
  function LineBytes(b: seq<char>, i: nat): (r: (seq<byte>, nat))
    requires Terminated(b) && i < |b|
    ensures i + 2 * |r.0| <= r.1 < |b|
    decreases |b| - i
  {
    var j := SkipBlanks(b, i);
    if b[j] == '\n' then ([], j + 1)
    else if !(IsXDigit(b[j]) && IsXDigit(b[j + 1])) then ([], j)
    else
      var (data, end) := LineBytes(b, j + 2);
      ([XValue(b[j]) * 16 + XValue(b[j + 1])] + data, end)
  }

  /** The state of the outer loop: address past the last byte, bytes so far, place in the buffer. */
  datatype Progress = Progress(addr: int, data: seq<byte>, pos: nat)

  /** One line's data, from the place after its colon. */
  function AfterColon(b: seq<char>, i: nat, addr: int, data: seq<byte>): (p: Progress)
    requires Terminated(b) && i < |b|
    ensures 0 <= p.addr < TWO_32
  {
    var (d, end) := LineBytes(b, i);
    Progress(U32(addr + |d|), data + d, end)
  }

  /** The outer loop of ProcessGetFromFile. */
  function Chunk(b: seq<char>, p: Progress): (r: Progress)
    requires Terminated(b) && p.pos < |b|
    ensures p.pos <= r.pos < |b| && 2 * |r.data| + p.pos <= 2 * |p.data| + r.pos
    decreases |b| - p.pos
  {
    if !Finds(b, p.pos, 'Z') || !Finds(b, p.pos, ':') then p
    else if b[p.pos] == ':' then Chunk(b, AfterColon(b, p.pos + 1, p.addr, p.data))
    else if |p.data| > 0 then p
    else
      var (v, j) := Parse(b, p.pos, 16);
      if b[j] != ':' then Progress(U32(v), p.data, j)
      else Chunk(b, AfterColon(b, j + 1, U32(v), p.data))
  }

  /** The place of the last newline. */
  function LastNewline(s: seq<char>): (k: nat)
    requires '\n' in s
    ensures k < |s| && s[k] == '\n' && forall i :: k < i < |s| ==> s[i] != '\n'
  {
    if s[|s| - 1] == '\n' then |s| - 1
    else
      assert s == s[..|s| - 1] + [s[|s| - 1]];
      LastNewline(s[..|s| - 1])
  }

  /** How many characters a call may read for a buffer of `max` bytes. */
  function Limit(max: nat): nat {
    if 2 * max > LOCALBUF then LOCALBUF else 2 * max
  }

  /** The characters that one call reads. */
  function Window(content: seq<char>, pos: nat, max: nat): seq<char>
    requires pos <= |content|
  {
    if pos + Limit(max) <= |content| then content[pos..pos + Limit(max)] else content[pos..]
  }

  function Buffer(window: seq<char>): (b: seq<char>)
    requires '\n' in window
    ensures Terminated(b)
  {
    window[..LastNewline(window) + 1] + "Z\0"
  }

  // ----- the loops -----

  class File {
    const content: seq<char>
    var position: nat

    constructor (text: seq<char>)
      ensures content == text && position == 0
    {
      content := text;
      position := 0;
    }

    method Read(max: nat) returns (s: seq<char>)
      requires position <= |content|
      modifies this
      ensures position == if old(position) + max <= |content| then old(position) + max else |content|
      ensures s == content[old(position)..position]
    {
      var end := if position + max <= |content| then position + max else |content|;
      s := content[position..end];
      position := end;
    }
  }

  lemma EndOfBuffer(b: seq<char>, i: nat)
    requires Terminated(b) && i < |b|
    ensures IsBlank(b[i]) || b[i] == '\n' ==> i + 1 < |b|
    ensures IsXDigit(b[i]) ==> i + 2 < |b|
  {
  }

  lemma NextAddress(x: int)
    ensures U32(U32(x) + 1) == U32(x + 1)
  {
  }

  /** One step of reading a line, where `j` is the place after the blanks. */
  lemma LineStep(b: seq<char>, i: nat)
    requires Terminated(b) && i < |b|
    ensures var j := SkipBlanks(b, i);
      if b[j] == '\n' then LineBytes(b, i) == ([], j + 1) && j + 1 < |b|
      else if !(IsXDigit(b[j]) && j + 1 < |b| && IsXDigit(b[j + 1])) then LineBytes(b, i) == ([], j)
      else
        && j + 2 < |b|
        && LineBytes(b, i) == ([XValue(b[j]) * 16 + XValue(b[j + 1])] + LineBytes(b, j + 2).0, LineBytes(b, j + 2).1)
  {
    EndOfBuffer(b, SkipBlanks(b, i));
  }

  method Skip(b: seq<char>, start: nat) returns (lpos: nat)
    requires Terminated(b) && start < |b|
    ensures lpos == SkipBlanks(b, start)
  {
    lpos := start;
    while IsBlank(b[lpos])
      invariant start <= lpos < |b| && SkipBlanks(b, lpos) == SkipBlanks(b, start)
      decreases |b| - lpos
    {
      lpos := lpos + 1;
    }
  }

  /** The inner loop: one line's data into the caller's buffer. */
  method ReadLine(b: seq<char>, start: nat, buf: array<byte>, n0: nat, addr0: int) returns (lpos: nat,
          nbytes: nat, addr: int)
    requires Terminated(b) && start < |b| && |b| <= 2 * buf.Length + 2 && 2 * n0 <= start && 0 <= addr0 < TWO_32
    modifies buf
    ensures n0 <= nbytes <= buf.Length && 2 * nbytes <= lpos < |b| && lpos >= start
    ensures Progress(addr, buf[..nbytes], lpos) == AfterColon(b, start, addr0, old(buf[..n0]))
    ensures forall i :: nbytes <= i < buf.Length ==> buf[i] == old(buf[i])
  {
    hide Terminated, IsXDigit, XValue, U32, LineBytes, SkipBlanks;
    lpos, nbytes, addr := start, n0, addr0;
    ghost var done: seq<byte> := [];
    ghost var before := buf[..n0];
    assert done + LineBytes(b, lpos).0 == LineBytes(b, lpos).0 && before + done == before;
    while true
      invariant start <= lpos < |b| && nbytes == n0 + |done| && 2 * nbytes <= lpos && addr == U32(addr0 + |done|)
      invariant buf[..nbytes] == before + done
      invariant forall i :: nbytes <= i < buf.Length ==> buf[i] == old(buf[i])
      invariant LineBytes(b, start) == (done + LineBytes(b, lpos).0, LineBytes(b, lpos).1)
      decreases |b| - lpos
    {
      var j := Skip(b, lpos);
      EndOfBuffer(b, j);
      LineStep(b, lpos);
      assert done + [] == done;
      if b[j] == '\n' {
        lpos := j + 1;
        return;
      } else if !(IsXDigit(b[j]) && IsXDigit(b[j + 1])) {
        lpos := j;
        return;
      }
      ghost var x: byte := XValue(b[j]) * 16 + XValue(b[j + 1]);
      assert done + ([x] + LineBytes(b, j + 2).0) == done + [x] + LineBytes(b, j + 2).0;
      buf[nbytes] := XValue(b[j]) * 16 + XValue(b[j + 1]);
      done := done + [x];
      nbytes := nbytes + 1;
      lpos := j + 2;
      NextAddress(addr0 + |done| - 1);
      addr := U32(addr + 1);
      assert buf[..nbytes] == before + done;
    }
  }

  /** dindex(lpos, c) != NULL */
  method Dindex(b: seq<char>, start: nat, c: char) returns (found: bool)
    requires Terminated(b) && start < |b|
    ensures found == Finds(b, start, c)
  {
    var i := start;
    while b[i] != '\0'
      invariant start <= i < |b| && Finds(b, i, c) == Finds(b, start, c)
      decreases |b| - i
    {
      if b[i] == c { return true; }
      i := i + 1;
    }
    return false;
  }

  /** The scan backwards to the last newline. */
  method FindLastNewline(s: seq<char>) returns (k: nat)
    requires '\n' in s
    ensures k == LastNewline(s)
  {
    k := |s| - 1;
    while s[k] != '\n'
      invariant LastNewline(s) <= k < |s|
      decreases k
    {
      k := k - 1;
    }
  }

  /** The outer loop, over one terminated buffer. */
  method ReadLines(b: seq<char>, buf: array<byte>, addr0: int) returns (lpos: nat, nbytes: nat, addr: int)
    requires Terminated(b) && |b| <= 2 * buf.Length + 2 && 0 <= addr0 < TWO_32
    modifies buf
    ensures nbytes <= buf.Length && Progress(addr, buf[..nbytes], lpos) == Chunk(b, Progress(addr0, [], 0))
    ensures forall i :: nbytes <= i < buf.Length ==> buf[i] == old(buf[i])
  {
    hide Parse, AfterColon, LineBytes;
    lpos, nbytes, addr := 0, 0, addr0;
    while true
      invariant lpos < |b| && nbytes <= buf.Length && 2 * nbytes <= lpos && 0 <= addr < TWO_32
      invariant Chunk(b, Progress(addr0, [], 0)) == Chunk(b, Progress(addr, buf[..nbytes], lpos))
      invariant forall i :: nbytes <= i < buf.Length ==> buf[i] == old(buf[i])
      decreases |b| - lpos
    {
      var more := Dindex(b, lpos, 'Z');
      if !more { break; }
      var colon := Dindex(b, lpos, ':');
      if !colon { break; }
      ghost var before := Progress(addr, buf[..nbytes], lpos);
      if b[lpos] != ':' {
        if nbytes > 0 { break; }
        var v;
        v, lpos := Dstrtol(b, lpos, 16);
        addr := U32(v);
        if b[lpos] != ':' { break; }
      }
      lpos, nbytes, addr := ReadLine(b, lpos + 1, buf, nbytes, addr);
    }
  }

  // ----- reading stops at the Z -----

  lemma {:induction false} SpacesStop(b: seq<char>, i: nat)
    requires Terminated(b) && i <= |b| - 2
    ensures SkipSpaces(b, i) <= |b| - 2
    decreases |b| - i
  {
    if IsSpace(b[i]) { SpacesStop(b, i + 1); }
  }

  lemma {:induction false} DigitsStop(b: seq<char>, i: nat, v: int)
    requires Terminated(b) && i <= |b| - 2
    ensures Digits(b, i, 16, v).1 <= |b| - 2
    decreases |b| - i
  {
    if DigitValue(b[i]) < 16 { DigitsStop(b, i + 1, Wrap(Wrap(v * 16) + DigitValue(b[i]))); }
  }

  lemma ParseStops(b: seq<char>, i: nat)
    requires Terminated(b) && i <= |b| - 2
    ensures Parse(b, i, 16).1 <= |b| - 2
  {
    hide Digits, SkipSpaces;
    SpacesStop(b, i);
    var j := SkipSpaces(b, i);
    if b[j] == '-' { DigitsStop(b, j + 1, 0); } else { DigitsStop(b, j, 0); }
  }

  lemma {:induction false} BlanksStop(b: seq<char>, i: nat)
    requires Terminated(b) && i <= |b| - 2
    ensures SkipBlanks(b, i) <= |b| - 2
    decreases |b| - i
  {
    if IsBlank(b[i]) { BlanksStop(b, i + 1); }
  }

  lemma {:induction false} LineStops(b: seq<char>, i: nat)
    requires Terminated(b) && i <= |b| - 2
    ensures LineBytes(b, i).1 <= |b| - 2
    decreases |b| - i
  {
    BlanksStop(b, i);
    var j := SkipBlanks(b, i);
    EndOfBuffer(b, j);
    if b[j] != '\n' && IsXDigit(b[j]) && IsXDigit(b[j + 1]) {
      EndOfBuffer(b, j + 1);
      LineStops(b, j + 2);
    }
  }

  lemma {:induction false} ChunkStops(b: seq<char>, p: Progress)
    requires Terminated(b) && p.pos <= |b| - 2
    ensures Chunk(b, p).pos <= |b| - 2
    decreases |b| - p.pos
  {
    hide Parse, LineBytes;
    if Finds(b, p.pos, 'Z') && Finds(b, p.pos, ':') {
      if b[p.pos] == ':' {
        LineStops(b, p.pos + 1);
        ChunkStops(b, AfterColon(b, p.pos + 1, p.addr, p.data));
      } else if |p.data| == 0 {
        ParseStops(b, p.pos);
        var (v, j) := Parse(b, p.pos, 16);
        if b[j] == ':' {
          LineStops(b, j + 1);
          ChunkStops(b, AfterColon(b, j + 1, U32(v), p.data));
        }
      }
    }
  }

  /** ProcessGetFromFile, for a caller that passes the size of its buffer.  There must be a newline
      among the characters that it may read, unless the file has ended. */
  method GetFromFile(file: File, buf: array<byte>, addr0: int) returns (nbytes: nat, addr: int)
    requires file.position <= |file.content| && buf.Length > 0 && 0 <= addr0 < TWO_32
    requires file.position < |file.content| ==> '\n' in Window(file.content, file.position, buf.Length)
    modifies file, buf
    ensures nbytes <= buf.Length && file.position <= |file.content|
    ensures old(file.position) == |file.content| ==> nbytes == 0 && addr == addr0 && file.position == old(file.position)
    ensures old(file.position) < |file.content| ==>
      var p := Chunk(Buffer(Window(file.content, old(file.position), buf.Length)), Progress(addr0, [], 0));
      addr == p.addr && buf[..nbytes] == p.data && file.position == old(file.position) + p.pos
    ensures forall i :: nbytes <= i < buf.Length ==> buf[i] == old(buf[i])
  {
    hide Chunk, Finds, Parse, LastNewline;
    var seekpos := file.position;
    var max := buf.Length * 2;
    if max > LOCALBUF {
      max := LOCALBUF;
    }
    var localbuf := file.Read(max);
    assert localbuf == Window(file.content, seekpos, buf.Length);
    if |localbuf| == 0 {
      return 0, addr0;
    }
    var last := FindLastNewline(localbuf);
    var b := localbuf[..last + 1] + "Z\0";
    var lpos;
    lpos, nbytes, addr := ReadLines(b, buf, addr0);
    ChunkStops(b, Progress(addr0, [], 0));
    file.position := seekpos + lpos;
  }
}
