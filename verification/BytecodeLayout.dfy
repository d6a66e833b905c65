/** The format of precompiled chunks, byte by byte: what is written, and what is read, is
    this layout. */
module BytecodeLayout {
  import opened Common
  import opened Bytecode
  import opened BytecodeRoundTrip

  /** Four bytes, least significant first. */
  function Four(w: int): Bytes {
    [w % 256, w / 256 % 256, w / 65536 % 256, w / 16777216 % 256]
  }

  /** Eight bytes, least significant first. */
  function Eight(w: int): Bytes {
    [w % 256, w / 256 % 256, w / 65536 % 256, w / 16777216 % 256, w / 4294967296 % 256, w / 1099511627776 % 256,
     w / 281474976710656 % 256, w / 72057594037927936 % 256]
  }

  /** Two's complement. */
  function IntBytes(x: int): Bytes {
    Four(if x < 0 then x + 4294967296 else x)
  }

  /** No string is the size 0; others are written with their NUL, which the size counts. */
  function StringBytes(s: Option<Str>): Bytes {
    if s.None? then [0, 0, 0, 0, 0, 0, 0, 0] else Eight(|s.value| + 1) + s.value + [0]
  }

  function ConstantBytes(v: Value): Bytes {
    match v
    case Nil => [0]
    case Boolean(b) => [1, if b then 1 else 0]
    case Number(raw) => [3] + raw
    case String(s) => [4] + StringBytes(s)
  }

  function WordsBytes(xs: seq<Word>): Bytes {
    if xs == [] then [] else WordsBytes(xs[..|xs| - 1]) + Four(xs[|xs| - 1])
  }

  function ConstantsBytes(xs: seq<Value>): Bytes {
    if xs == [] then [] else ConstantsBytes(xs[..|xs| - 1]) + ConstantBytes(xs[|xs| - 1])
  }

  function LinesBytes(xs: seq<Int32>): Bytes {
    if xs == [] then [] else LinesBytes(xs[..|xs| - 1]) + IntBytes(xs[|xs| - 1])
  }

  function LocVarsBytes(xs: seq<LocVar>): Bytes {
    if xs == [] then []
    else
      var v := xs[|xs| - 1];
      LocVarsBytes(xs[..|xs| - 1]) + StringBytes(v.varname) + IntBytes(v.startpc) + IntBytes(v.endpc)
  }

  function NamesBytes(xs: seq<Option<Str>>): Bytes {
    if xs == [] then [] else NamesBytes(xs[..|xs| - 1]) + StringBytes(xs[|xs| - 1])
  }

  /** Source, lines, and the four small numbers. */
  function FrameBytes(f: Frame, p: Option<Str>, strip: bool): Bytes {
    StringBytes(if strip || f.source == p then None else f.source)
    + IntBytes(f.linedefined) + IntBytes(f.lastlinedefined)
    + [f.nups, f.numparams, f.isVararg, f.maxstacksize]
  }

  /** Line numbers, local variables and names of upvalues; none of them when stripped. */
  function DebugBytes(d: Debug, strip: bool): Bytes {
    if strip then IntBytes(0) + IntBytes(0) + IntBytes(0)
    else IntBytes(|d.lineinfo|) + LinesBytes(d.lineinfo) + IntBytes(|d.locvars|) + LocVarsBytes(d.locvars)
         + IntBytes(|d.upvalues|) + NamesBytes(d.upvalues)
  }

  /** A function inside one with source `p`: frame, code, constants, functions, debug data. */
  function FunctionBytes(f: Proto, p: Option<Str>, strip: bool): Bytes
    decreases f, 0
  {
    FrameBytes(f.frame, p, strip)
    + ((IntBytes(|f.code|) + WordsBytes(f.code))
       + ((IntBytes(|f.k|) + ConstantsBytes(f.k))
          + (IntBytes(|f.p|) + (FunctionsBytes(f.p, f.frame.source, strip) + DebugBytes(f.debug, strip)))))
  }

  function FunctionsBytes(ps: seq<Proto>, source: Option<Str>, strip: bool): Bytes
    decreases ps, 1
  {
    if ps == [] then [] else FunctionBytes(ps[0], source, strip) + FunctionsBytes(ps[1..], source, strip)
  }

  /** A whole chunk. */
  function ChunkBytes(f: Proto, strip: bool): Bytes {
    [0x1B, 0x4C, 0x75, 0x61, 0x51, 0x00, 0x01, 0x04, 0x08, 0x04, 0x08, 0x00] + FunctionBytes(f, None, strip)
  }

  // ------------------------------------------------------------------- integers

  lemma Last(w: nat)
    ensures LittleEndian(w, 1) == [w % 256]
  {
    assert LittleEndian(w / 256, 0) == [];
  }

  lemma FourIs(w: nat)
    ensures LittleEndian(w, 4) == Four(w)
  {
    var a, b, c := w / 256, w / 65536, w / 16777216;
    assert a / 256 == b && b / 256 == c;
    Last(c);
    assert LittleEndian(b, 2) == [b % 256] + LittleEndian(c, 1);
    assert LittleEndian(a, 3) == [a % 256] + LittleEndian(b, 2);
    assert LittleEndian(w, 4) == [w % 256] + LittleEndian(a, 3);
  }

  lemma EightIs(w: nat)
    ensures LittleEndian(w, 8) == Eight(w)
  {
    var a, b, c, d := w / 256, w / 65536, w / 16777216, w / 4294967296;
    assert a / 256 == b && b / 256 == c && c / 256 == d;
    FourIs(d);
    assert LittleEndian(c, 5) == [c % 256] + LittleEndian(d, 4);
    assert LittleEndian(b, 6) == [b % 256] + LittleEndian(c, 5);
    assert LittleEndian(a, 7) == [a % 256] + LittleEndian(b, 6);
    assert LittleEndian(w, 8) == [w % 256] + LittleEndian(a, 7);
    HighPart(w);
  }

  lemma HighPart(w: nat)
    ensures var d := w / 4294967296;
            d / 256 == w / 1099511627776 && d / 65536 == w / 281474976710656
            && d / 16777216 == w / 72057594037927936
  {
  }

  lemma IntIs(x: Int32)
    ensures DumpInt(x) == IntBytes(x)
  {
    FourIs(WordOfInt(x));
  }

  lemma StringIs(s: Option<Str>)
    ensures DumpString(s) == StringBytes(s)
  {
    match s
    case None => EightIs(0);
    case Some(str) => EightIs(|str| + 1);
  }

  // ----------------------------------------------------------------- constants

  lemma ConstantIs(v: Value)
    ensures DumpValue(v) == ConstantBytes(v)
  {
    if v.String? { StringIs(v.s); }
  }

  /** A list of items, from the other end. */
  lemma {:induction false} AllFromEnd<T>(xs: seq<T>, bytes: T -> Bytes)
    requires xs != []
    ensures All(xs, bytes) == All(xs[..|xs| - 1], bytes) + bytes(xs[|xs| - 1])
    decreases |xs|
  {
    if |xs| > 1 {
      AllFromEnd(xs[1..], bytes);
      assert xs[1..][..|xs| - 2] == xs[..|xs| - 1][1..];
    } else {
      assert xs[1..] == [] && xs[..0] == [];
    }
  }

  lemma {:induction false} WordsAre(xs: seq<Word>)
    ensures All(xs, DumpWord) == WordsBytes(xs)
    decreases |xs|
  {
    if xs != [] {
      AllFromEnd(xs, DumpWord);
      WordsAre(xs[..|xs| - 1]);
      FourIs(xs[|xs| - 1]);
    }
  }

  lemma {:induction false} ConstantsAre(xs: seq<Value>)
    ensures All(xs, DumpValue) == ConstantsBytes(xs)
    decreases |xs|
  {
    if xs != [] {
      AllFromEnd(xs, DumpValue);
      ConstantsAre(xs[..|xs| - 1]);
      ConstantIs(xs[|xs| - 1]);
    }
  }

  lemma {:induction false} LinesAre(xs: seq<Int32>)
    ensures All(xs, DumpInt) == LinesBytes(xs)
    decreases |xs|
  {
    if xs != [] {
      AllFromEnd(xs, DumpInt);
      LinesAre(xs[..|xs| - 1]);
      IntIs(xs[|xs| - 1]);
    }
  }

  lemma {:induction false} LocVarsAre(xs: seq<LocVar>)
    ensures All(xs, DumpLocVar) == LocVarsBytes(xs)
    decreases |xs|
  {
    hide DumpString, DumpInt, StringBytes, IntBytes;
    if xs != [] {
      var v := xs[|xs| - 1];
      AllFromEnd(xs, DumpLocVar);
      LocVarsAre(xs[..|xs| - 1]);
      StringIs(v.varname);
      IntIs(v.startpc);
      IntIs(v.endpc);
    }
  }

  lemma {:induction false} NamesAre(xs: seq<Option<Str>>)
    ensures All(xs, DumpString) == NamesBytes(xs)
    decreases |xs|
  {
    if xs != [] {
      AllFromEnd(xs, DumpString);
      NamesAre(xs[..|xs| - 1]);
      StringIs(xs[|xs| - 1]);
    }
  }

  // ----------------------------------------------------------------- functions

  lemma FrameIs(f: Frame, p: Option<Str>, strip: bool)
    ensures DumpFrame(f, p, strip) == FrameBytes(f, p, strip)
  {
    hide DumpString, DumpInt, StringBytes, IntBytes;
    StringIs(if strip || f.source == p then None else f.source);
    IntIs(f.linedefined);
    IntIs(f.lastlinedefined);
  }

  lemma DebugIs(d: Debug, strip: bool)
    requires SizedDebug(d)
    ensures DumpDebug(StrippedDebug(d, strip)) == DebugBytes(d, strip)
  {
    hide DumpInt, IntBytes;
    IntIs(0);
    if !strip {
      IntIs(|d.lineinfo|);
      IntIs(|d.locvars|);
      IntIs(|d.upvalues|);
      LinesAre(d.lineinfo);
      LocVarsAre(d.locvars);
      NamesAre(d.upvalues);
    }
  }

  lemma {:induction false} FunctionIs(f: Proto, p: Option<Str>, strip: bool)
    requires Sized(f)
    ensures DumpFunction(f, p, strip) == FunctionBytes(f, p, strip)
    decreases f, 0
  {
    hide DumpFrame, DumpInt, DumpDebug, DumpFunctions, IntBytes, FrameBytes, DebugBytes, FunctionsBytes, WordsBytes,
      ConstantsBytes, All;
    FrameIs(f.frame, p, strip);
    IntIs(|f.code|);
    WordsAre(f.code);
    IntIs(|f.k|);
    ConstantsAre(f.k);
    IntIs(|f.p|);
    FunctionsAre(f.p, f.frame.source, strip);
    DebugIs(f.debug, strip);
  }

  lemma {:induction false} FunctionsAre(ps: seq<Proto>, source: Option<Str>, strip: bool)
    requires AllSized(ps)
    ensures DumpFunctions(ps, source, strip) == FunctionsBytes(ps, source, strip)
    decreases ps, 1
  {
    hide DumpFunction, FunctionBytes;
    if ps != [] {
      FunctionIs(ps[0], source, strip);
      FunctionsAre(ps[1..], source, strip);
    }
  }

  /** What is dumped is the layout, for every function. */
  lemma DumpedLayout(f: Proto, strip: bool)
    requires Sized(f)
    ensures Dump(f, strip) == ChunkBytes(f, strip)
  {
    hide DumpFunction, FunctionBytes;
    FunctionIs(f, None, strip);
  }

  /** What is laid out like this is loaded, and exactly its bytes are taken. */
  lemma LayoutLoads(f: Proto, strip: bool, check: Proto -> bool, rest: Bytes)
    requires Sized(f) && Accepted(Restored(f, None, UNKNOWN_SOURCE, strip), check)
    ensures Undump(ChunkBytes(f, strip) + rest, check) ==
            if Depth(f) <= 200 then Got(Restored(f, None, [61, 63], strip), rest) else Failed(CodeTooDeep)
  {
    hide Dump, ChunkBytes, Undump, Restored;
    DumpedLayout(f, strip);
    DumpUndump(f, strip, check, rest);
  }

  /** The first byte of a constant says what it is; any other byte than 0, 1, 3 and 4 is an
      error, and so is a chunk that ends too early. */
  lemma ConstantLoads(t: Byte, b: Byte, raw: Bytes, s: Option<Str>, rest: Bytes)
    requires |raw| == 8 && SizedString(s)
    ensures LoadValue([0] + rest) == Got(Nil, rest)
    ensures LoadValue([1, b] + rest) == Got(Boolean(b != 0), rest)
    ensures LoadValue([3] + raw + rest) == Got(Number(raw), rest)
    ensures LoadValue([4] + StringBytes(s) + rest) == Got(String(s), rest)
    ensures t !in {0, 1, 3, 4} ==> LoadValue([t] + rest) == Failed(BadConstant)
    ensures LoadValue([]) == Failed(UnexpectedEnd)
  {
    hide LoadString, StringBytes, LoadBlock;
    assert ([0] + rest)[1..] == rest && ([t] + rest)[1..] == rest;
    assert ([1, b] + rest)[1..] == [b] + rest && ([b] + rest)[1..] == rest;
    assert ([3] + raw + rest)[1..] == raw + rest;
    BlockBack(raw, rest);
    assert ([4] + StringBytes(s) + rest)[1..] == StringBytes(s) + rest;
    StringIs(s);
    StringBack(s, rest);
  }

  /** Any other header is refused. */
  lemma HeaderLoads(bs: Bytes, check: Proto -> bool)
    ensures |bs| < 12 ==> Undump(bs, check) == Failed(UnexpectedEnd)
    ensures |bs| >= 12 && bs[..12] != [27, 76, 117, 97, 81, 0, 1, 4, 8, 4, 8, 0] ==>
              Undump(bs, check) == Failed(BadHeader)
  {
    hide LoadFunction;
  }
}
