/** Passing arguments to a new process: packing them into one buffer (os/traps.c:114-127), and
    finding where each of them starts (os/process.c:902-928). */
module Arguments {
  import opened Synch

  /** The arguments one after the other, each with its terminating NUL. */
  function Pack(args: seq<string>): string {
    if args == [] then "" else Pack(args[..|args| - 1]) + args[|args| - 1] + ['\0']
  }

  /** Where argument `i` starts. */
  function Start(args: seq<string>, i: nat): nat
    requires i <= |args|
  {
    |Pack(args[..i])|
  }

  /** C strings, without their NULs. */
  ghost predicate AreStrings(args: seq<string>) { forall i :: 0 <= i < |args| ==> '\0' !in args[i] }

  lemma PackStep(args: seq<string>, i: nat)
    requires i < |args|
    ensures Pack(args[..i + 1]) == Pack(args[..i]) + args[i] + ['\0']
    ensures Start(args, i + 1) == Start(args, i) + |args[i]| + 1
  {
    assert args[..i + 1][..i] == args[..i];
  }

  lemma {:induction false} PackIsPrefix(args: seq<string>, i: nat)
    requires i <= |args|
    ensures Pack(args[..i]) <= Pack(args)
    decreases |args| - i
  {
    if i < |args| {
      PackStep(args, i);
      PackIsPrefix(args, i + 1);
    } else {
      assert args[..i] == args;
    }
  }

  const MAX_COPIED: nat := 11
  const SIZE_ARG_BUFF: nat := 1024

  /** The arguments that are passed on: no more than eleven. */
  function Copied(args: seq<string>): (r: seq<string>)
    ensures r <= args && |r| == if |args| <= 11 then |args| else 11
  {
    if |args| <= MAX_COPIED then args else args[..MAX_COPIED]
  }

  lemma {:induction false} StartsGrow(args: seq<string>, i: nat, j: nat)
    requires i <= j <= |args|
    ensures Start(args, i) <= Start(args, j)
    decreases j - i
  {
    if i < j {
      PackStep(args, j - 1);
      StartsGrow(args, i, j - 1);
    }
  }

  /** Argument `i` in the packed text, with its NUL. */
  lemma CharOf(args: seq<string>, i: nat, k: nat)
    requires i < |args| && k <= |args[i]|
    ensures Start(args, i) + k < |Pack(args)|
    ensures Pack(args)[Start(args, i) + k] == if k < |args[i]| then args[i][k] else '\0'
  {
    hide Pack;
    PackStep(args, i);
    PackIsPrefix(args, i + 1);
    assert Pack(args)[Start(args, i) + k] == Pack(args[..i + 1])[Start(args, i) + k];
  }

  /** What of the packed text fits into the buffer. */
  function Fits(text: string): (r: string)
    ensures r <= text && |r| == if |text| <= 1024 then |text| else 1024
  {
    if |text| <= SIZE_ARG_BUFF then text else text[..SIZE_ARG_BUFF]
  }

  /** The user-mode part of TrapProcessCreateHandler that copies the arguments, byte by byte.  A last
      argument that does not fit is cut off. */
  method PackArguments(args: seq<string>, allargs: array<char>)
    requires AreStrings(args) && allargs.Length == 1024
    requires var copied := Copied(args); copied != [] ==> Start(copied, |copied| - 1) < 1024
    modifies allargs
    ensures var text := Fits(Pack(Copied(args)));
      allargs[..|text|] == text && forall i :: |text| <= i < 100 ==> allargs[i] == '\0'
  {
    hide Pack;
    for i := 0 to 100
      invariant forall q :: 0 <= q < i ==> allargs[q] == '\0'
    {
      allargs[i] := '\0';
    }
    ghost var copied, text := Copied(args), Pack(Copied(args));
    var i, j := 0, 0;
    PackNone(copied);
    while j < MAX_COPIED && j < |args|
      invariant j <= |copied| && i == (if Start(copied, j) <= SIZE_ARG_BUFF then Start(copied, j) else SIZE_ARG_BUFF)
      invariant i <= |text| && allargs[..i] == text[..i]
      invariant forall q :: i <= q < 100 ==> allargs[q] == '\0'
    {
      StartsGrow(copied, j, |copied| - 1);
      PackStep(copied, j);
      var k, more := 0, true;
      while more
        invariant k <= |args[j]| + 1 && i == Start(copied, j) + k <= |text| && i <= SIZE_ARG_BUFF
        invariant allargs[..i] == text[..i]
        invariant forall q :: i <= q < 100 ==> allargs[q] == '\0'
        invariant if more then k <= |args[j]| && i < SIZE_ARG_BUFF else k == |args[j]| + 1 || i == SIZE_ARG_BUFF
        decreases |args[j]| + 1 - k, more
      {
        CharOf(copied, j, k);
        allargs[i] := if k < |args[j]| then args[j][k] else '\0';
        i, k := i + 1, k + 1;
        more := i < SIZE_ARG_BUFF && allargs[i - 1] != '\0';
      }
      j := j + 1;
    }
    assert copied[..|copied|] == copied;
  }

  lemma PackNone(args: seq<string>)
    ensures args[..0] == [] && Pack(args[..0]) == ""
  {
  }

  // ----- get_argument -----

  /** The place after the next NUL, but at most 100. */
  function Next(s: seq<char>, i: nat): (j: nat)
    requires |s| > 100 && i <= 100
    ensures i <= j <= 100 && (i < 100 ==> i < j)
    decreases 100 - i
  {
    if i == 100 then 100 else if s[i] == '\0' then i + 1 else Next(s, i + 1)
  }

  /** Nothing is found at this place. */
  predicate AtEnd(s: seq<char>, from: nat)
    requires |s| > 100 && from <= 100
  {
    s[from] == '\0' || from >= 99
  }

  /** The offsets found from `from` on. */
  function OffsetsFrom(s: seq<char>, from: nat): seq<nat>
    requires |s| > 100 && from <= 100
    decreases 100 - from
  {
    if AtEnd(s, from) then [] else [from] + OffsetsFrom(s, Next(s, from))
  }

  /** What ProcessFork takes for the arguments: the first answer counts even if it means that there
      is none. */
  function Found(s: seq<char>): seq<nat>
    requires |s| > 100
  {
    if s[0] == '\0' then [0] else OffsetsFrom(s, 0)
  }

  lemma FirstFound(s: seq<char>)
    requires |s| > 100
    ensures Found(s) == if s[0] == '\0' then [0] + OffsetsFrom(s, 0) else [0] + OffsetsFrom(s, Next(s, 0))
  {
  }

  /** One more answer, after those in `found`. */
  lemma NextFound(s: seq<char>, from: nat, found: seq<nat>)
    requires |s| > 100 && from <= 100
    ensures found + OffsetsFrom(s, from) ==
      if AtEnd(s, from) then found else found + [from] + OffsetsFrom(s, Next(s, from))
  {
    if !AtEnd(s, from) {
      var rest := OffsetsFrom(s, Next(s, from));
      assert found + ([from] + rest) == found + [from] + rest;
    }
  }

  class ArgumentScanner {
    var str: seq<char>
    var location: nat

    constructor ()
      ensures location == 0
    {
      str, location := [], 0;
    }

    /** get_argument: starts on a new buffer if one is given. */
    method GetArgument(buffer: Option<seq<char>>) returns (offset: nat)
      requires if buffer.Some? then |buffer.value| > 100 else |str| > 100 && location <= 100
      modifies this
      ensures str == (if buffer.Some? then buffer.value else old(str)) && |str| > 100
      ensures var from := if buffer.Some? then 0 else old(location);
        && offset == (if AtEnd(str, from) then 0 else from)
        && location == (if AtEnd(str, from) then from else Next(str, from))
    {
      if buffer.Some? {
        str := buffer.value;
        location := 0;
      }
      var location2 := location;
      if str[location] == '\0' || location >= 99 {
        return 0;
      }
      ghost var s := str;
      while location < 100
        invariant location <= 100 && str == s && Next(s, location) == Next(s, location2)
        decreases 100 - location
      {
        if str[location] == '\0' {
          location := location + 1;
          return location2;
        }
        location := location + 1;
      }
      return location2;
    }

    /** The calls that ProcessFork makes: with the buffer first, then with NULL until the answer
        is 0 (os/process.c:503-514). */
    method AllOffsets(buffer: seq<char>) returns (offsets: seq<nat>)
      requires |buffer| > 100
      modifies this
      ensures offsets == Found(buffer)
    {
      hide OffsetsFrom, Next, Found;
      FirstFound(buffer);
      var offset := GetArgument(Some(buffer));
      offsets := [offset];
      while true
        invariant str == buffer && location <= 100 && (location == 0 ==> buffer[0] == '\0')
        invariant offsets + OffsetsFrom(buffer, location) == Found(buffer)
        decreases 100 - location
      {
        NextFound(buffer, location, offsets);
        offset := GetArgument(None);
        if offset == 0 { break; }
        offsets := offsets + [offset];
      }
    }
  }

  // ----- what is recovered -----

  function Starts(args: seq<string>): (s: seq<nat>)
    ensures |s| == |args|
  {
    seq(|args|, i requires 0 <= i < |args| => Start(args, i))
  }

  /** The first 100 places of `s` hold the beginning of the packed arguments, and a NUL behind them. */
  ghost predicate Holds(s: seq<char>, args: seq<string>) {
    && |s| > 100
    && (forall i :: 0 <= i < |Pack(args)| && i < 100 ==> s[i] == Pack(args)[i])
    && (|Pack(args)| < 100 ==> s[|Pack(args)|] == '\0')
  }

  lemma HeldChar(s: seq<char>, args: seq<string>, i: nat, k: nat)
    requires Holds(s, args) && i < |args| && k <= |args[i]| && Start(args, i) + k < 100
    ensures s[Start(args, i) + k] == if k < |args[i]| then args[i][k] else '\0'
  {
    hide Pack;
    CharOf(args, i, k);
  }

  /** The scan from the start of an argument ends at the start of the next one, or at 100. */
  lemma {:induction false} NextIsStart(args: seq<string>, s: seq<char>, i: nat, k: nat)
    requires Holds(s, args) && AreStrings(args) && i < |args| && k <= |args[i]| && Start(args, i) + k <= 100
    ensures Next(s, Start(args, i) + k) == if Start(args, i + 1) <= 100 then Start(args, i + 1) else 100
    decreases |args[i]| - k
  {
    hide Pack, Holds;
    HeldLength(s, args);
    PackStep(args, i);
    if Start(args, i) + k < 100 {
      HeldChar(s, args, i, k);
      if k < |args[i]| {
        assert args[i][k] in args[i];
        NextIsStart(args, s, i, k + 1);
      }
    }
  }

  lemma HeldLength(s: seq<char>, args: seq<string>)
    requires Holds(s, args)
    ensures |s| > 100
    ensures Start(args, |args|) < 100 ==> s[Start(args, |args|)] == '\0'
  {
    assert args[..|args|] == args;
  }

  /** From `i` on, no argument is empty, and the last one starts before place 99. */
  ghost predicate Recoverable(args: seq<string>, i: nat)
    requires i < |args|
  {
    Start(args, |args| - 1) < 99 && forall j :: i <= j < |args| ==> args[j] != ""
  }

  /** From the start of argument `i` on, the scanner finds a beginning of the list of starts; all of
      it exactly if the arguments can be recovered. */
  lemma {:induction false} OffsetsAreStarts(args: seq<string>, s: seq<char>, i: nat)
    requires Holds(s, args) && AreStrings(args) && i <= |args| && Start(args, i) <= 100
    ensures OffsetsFrom(s, Start(args, i)) <= Starts(args)[i..]
    ensures OffsetsFrom(s, Start(args, i)) == Starts(args)[i..] <==> i == |args| || Recoverable(args, i)
    decreases |args| - i
  {
    hide Pack, Holds, AreStrings, Start;
    HeldLength(s, args);
    var from := Start(args, i);
    if i < |args| {
      StartsGrow(args, i, |args| - 1);
      if from < 99 {
        HeldChar(s, args, i, 0);
        if args[i] == "" {
          assert OffsetsFrom(s, from) == [];
        } else {
          FirstChar(args, i);
          NextIsStart(args, s, i, 0);
          FoundFirst(args, s, i);
        }
      }
    }
  }

  lemma FirstChar(args: seq<string>, i: nat)
    requires AreStrings(args) && i < |args| && args[i] != ""
    ensures args[i][0] != '\0'
  {
    assert args[i][0] in args[i];
  }

  lemma FoundFirst(args: seq<string>, s: seq<char>, i: nat)
    requires Holds(s, args) && AreStrings(args) && i < |args| && args[i] != "" && Start(args, i) < 99
    requires s[Start(args, i)] != '\0'
    requires Next(s, Start(args, i)) == if Start(args, i + 1) <= 100 then Start(args, i + 1) else 100
    ensures OffsetsFrom(s, Start(args, i)) <= Starts(args)[i..]
    ensures OffsetsFrom(s, Start(args, i)) == Starts(args)[i..] <==> Recoverable(args, i)
    decreases |args| - i, 0
  {
    hide Pack, Holds, AreStrings, Start;
    HeldLength(s, args);
    var from := Start(args, i);
    assert Starts(args)[i..] == [from] + Starts(args)[i + 1..];
    if i + 1 < |args| { StartsGrow(args, i + 1, |args| - 1); }
    if Start(args, i + 1) <= 100 {
      OffsetsAreStarts(args, s, i + 1);
    } else {
      assert OffsetsFrom(s, from) == [from];
    }
  }

  /** The new process gets the right place of every argument exactly if none is empty and the last
      one starts before place 99, or there is one argument only, and it is empty. */
  lemma ArgumentsAreRecovered(args: seq<string>, s: seq<char>)
    requires Holds(s, args) && AreStrings(args)
    ensures |s| > 100 && (Found(s) == Starts(args) <==> args == [""] || (args != [] && Recoverable(args, 0)))
  {
    hide Pack, Holds, AreStrings;
    HeldLength(s, args);
    NothingBefore(args);
    if args != [] {
      HeldChar(s, args, 0, 0);
      if args[0] == "" {
        assert Found(s) == [0] && Starts(args)[0] == 0;
      } else {
        FirstChar(args, 0);
        OffsetsAreStarts(args, s, 0);
        assert Starts(args)[0..] == Starts(args);
      }
    }
  }

  lemma NothingBefore(args: seq<string>)
    ensures Start(args, 0) == 0
  {
  }

  /** TrapProcessCreateHandler and ProcessFork together: the places that the new process gets are
      those of the arguments exactly if these can be recovered. */
  method PassArguments(args: seq<string>) returns (offsets: seq<nat>)
    requires AreStrings(args)
    requires var copied := Copied(args); copied != [] ==> Start(copied, |copied| - 1) < 1024
    ensures var copied := Copied(args);
      offsets == Starts(copied) <==> copied == [""] || (copied != [] && Recoverable(copied, 0))
  {
    hide Pack, Starts, Found, Recoverable;
    var allargs := new char[SIZE_ARG_BUFF];
    PackArguments(args, allargs);
    var scanner := new ArgumentScanner();
    offsets := scanner.AllOffsets(allargs[..]);
    BufferHolds(Copied(args), allargs[..]);
    ArgumentsAreRecovered(Copied(args), allargs[..]);
  }

  lemma BufferHolds(args: seq<string>, s: seq<char>)
    requires |s| == SIZE_ARG_BUFF && |Fits(Pack(args))| <= |s| && s[..|Fits(Pack(args))|] == Fits(Pack(args))
    requires forall i :: |Fits(Pack(args))| <= i < 100 ==> s[i] == '\0'
    ensures Holds(s, args)
  {
    hide Pack;
    var text := Fits(Pack(args));
    forall i | 0 <= i < |Pack(args)| && i < 100 ensures s[i] == Pack(args)[i] {
      assert s[i] == s[..|text|][i] == text[i];
    }
  }
}
