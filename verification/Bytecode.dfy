/** Precompiled chunks: the bytes of a function prototype, and what loading bytes gives. */
module Bytecode {
  import opened Common

  type Byte = b: int | 0 <= b < 256
  type Bytes = seq<Byte>
  type Str = seq<Byte>

  const TWO_31: int := 0x8000_0000
  const TWO_32: int := 0x1_0000_0000
  const TWO_64: int := 0x1_0000_0000_0000_0000

  type Word = w: int | 0 <= w < TWO_32
  type Int31 = n: int | 0 <= n < TWO_31
  type Int32 = n: int | -TWO_31 <= n < TWO_31

  /** A number is the eight bytes that represent it. */
  datatype Value = Nil | Boolean(b: bool) | Number(raw: Bytes) | String(s: Option<Str>)

  datatype LocVar = LocVar(varname: Option<Str>, startpc: Int31, endpc: Int31)

  /** The fields before the code. */
  datatype Frame = Frame(source: Option<Str>, linedefined: Int31, lastlinedefined: Int31,
                         nups: Byte, numparams: Byte, isVararg: Byte, maxstacksize: Byte)

  datatype Debug = Debug(lineinfo: seq<Int32>, locvars: seq<LocVar>, upvalues: seq<Option<Str>>)

  datatype Proto = Proto(frame: Frame, code: seq<Word>, k: seq<Value>, p: seq<Proto>, debug: Debug)

  datatype Error = UnexpectedEnd | BadInteger | BadConstant | BadHeader | CodeTooDeep | BadCode

  /** What a load gives: a value and the bytes after it, or an error that is thrown. */
  datatype Loaded<+T> = Got(value: T, rest: Bytes) | Failed(error: Error) {
    predicate IsFailure() { Failed? }
    function PropagateFailure<U>(): Loaded<U> requires IsFailure() { Failed(error) }
    function Extract(): (T, Bytes) requires !IsFailure() { (value, rest) }
  }

  // -------------------------------------------------------- bytes of integers

  function Pow256(n: nat): (r: nat)
    ensures r > 0
  {
    if n == 0 then 1 else 256 * Pow256(n - 1)
  }

  /** The bytes of an unsigned integer, least significant first. */
  function LittleEndian(w: nat, n: nat): (bs: Bytes)
    ensures |bs| == n
  {
    if n == 0 then [] else [w % 256] + LittleEndian(w / 256, n - 1)
  }

  function Unsigned(bs: Bytes): (w: nat)
    ensures w < Pow256(|bs|)
  {
    if bs == [] then 0 else
      assert Pow256(|bs|) == 256 * Pow256(|bs[1..]|);
      bs[0] + 256 * Unsigned(bs[1..])
  }

  lemma {:induction false} UnsignedOf(w: nat, n: nat)
    requires w < Pow256(n)
    ensures Unsigned(LittleEndian(w, n)) == w
  {
    if n > 0 {
      UnsignedOf(w / 256, n - 1);
      assert LittleEndian(w, n)[1..] == LittleEndian(w / 256, n - 1);
    }
  }

  lemma Sizes()
    ensures Pow256(4) == TWO_32 && Pow256(8) == TWO_64
  {
    assert Pow256(2) == 65536;
    assert Pow256(4) == 256 * (256 * Pow256(2));
    assert Pow256(6) == 256 * (256 * Pow256(4));
    assert Pow256(8) == 256 * (256 * Pow256(6));
  }

  function WordOfInt(x: Int32): Word { if x < 0 then x + TWO_32 else x }

  function IntOfWord(w: Word): Int32 { if w >= TWO_31 then w - TWO_32 else w }

  // ------------------------------------------------------------------ dumping

  function DumpInt(x: Int32): Bytes { LittleEndian(WordOfInt(x), 4) }

  /** A missing string has size 0; others have their size with a trailing NUL. */
  function DumpString(s: Option<Str>): Bytes {
    match s
    case None => LittleEndian(0, 8)
    case Some(str) => LittleEndian(|str| + 1, 8) + (str + [0])
  }

  const LUA_TNIL: Byte := 0
  const LUA_TBOOLEAN: Byte := 1
  const LUA_TNUMBER: Byte := 3
  const LUA_TSTRING: Byte := 4

  function DumpValue(v: Value): Bytes {
    match v
    case Nil => [LUA_TNIL]
    case Boolean(b) => [LUA_TBOOLEAN] + [if b then 1 else 0]
    case Number(raw) => [LUA_TNUMBER] + raw
    case String(s) => [LUA_TSTRING] + DumpString(s)
  }

  function DumpLocVar(v: LocVar): Bytes {
    DumpString(v.varname) + (DumpInt(v.startpc) + DumpInt(v.endpc))
  }

  function DumpWord(w: Word): Bytes { LittleEndian(w, 4) }

  function All<T>(xs: seq<T>, bytes: T -> Bytes): Bytes {
    if xs == [] then [] else bytes(xs[0]) + All(xs[1..], bytes)
  }

  /** A count and that many items. */
  function Counted<T>(xs: seq<T>, bytes: T -> Bytes): Bytes
    requires |xs| < TWO_31
  {
    DumpInt(|xs|) + All(xs, bytes)
  }

  /** The source is left out when it is the enclosing function's, or when stripping. */
  function DumpFrame(f: Frame, p: Option<Str>, strip: bool): Bytes {
    DumpString(if f.source == p || strip then None else f.source)
    + (DumpInt(f.linedefined) + (DumpInt(f.lastlinedefined) + [f.nups, f.numparams, f.isVararg, f.maxstacksize]))
  }

  function StrippedDebug(d: Debug, strip: bool): Debug { if strip then Debug([], [], []) else d }

  predicate SizedDebug(d: Debug) {
    |d.lineinfo| < TWO_31 && |d.locvars| < TWO_31 && |d.upvalues| < TWO_31
    && (forall i :: 0 <= i < |d.locvars| ==> SizedString(d.locvars[i].varname))
    && (forall i :: 0 <= i < |d.upvalues| ==> SizedString(d.upvalues[i]))
  }

  function DumpDebug(d: Debug): Bytes
    requires SizedDebug(d)
  {
    Counted(d.lineinfo, DumpInt) + (Counted(d.locvars, DumpLocVar) + Counted(d.upvalues, DumpString))
  }

  predicate SizedString(s: Option<Str>) { s.Some? ==> |s.value| + 1 < TWO_64 }

  predicate SizedValue(v: Value) {
    match v
    case Number(raw) => |raw| == 8
    case String(s) => SizedString(s)
    case _ => true
  }

  /** The sizes fit the types that C keeps them in. */
  predicate Sized(f: Proto)
    decreases f
  {
    && SizedString(f.frame.source) && |f.code| < TWO_31 && |f.k| < TWO_31 && |f.p| < TWO_31 && SizedDebug(f.debug)
    && (forall i :: 0 <= i < |f.k| ==> SizedValue(f.k[i]))
    && AllSized(f.p)
  }

  predicate AllSized(ps: seq<Proto>)
    decreases ps
  {
    ps == [] || (Sized(ps[0]) && AllSized(ps[1..]))
  }

  function DumpFunction(f: Proto, p: Option<Str>, strip: bool): Bytes
    requires Sized(f)
    decreases f, 0
  {
    DumpFrame(f.frame, p, strip)
    + (Counted(f.code, DumpWord)
       + (Counted(f.k, DumpValue)
          + (DumpInt(|f.p|) + (DumpFunctions(f.p, f.frame.source, strip)
                               + DumpDebug(StrippedDebug(f.debug, strip))))))
  }

  function DumpFunctions(ps: seq<Proto>, source: Option<Str>, strip: bool): Bytes
    requires AllSized(ps)
    decreases ps, 1
  {
    if ps == [] then [] else DumpFunction(ps[0], source, strip) + DumpFunctions(ps[1..], source, strip)
  }

  /** "\033Lua", version 5.1, the official format, little-endian, and the sizes of int,
      size_t, instructions and numbers, which are not integral. */
  const HEADER: Bytes := [27, 76, 117, 97, 0x51, 0, 1, 4, 8, 4, 8, 0]

  function Dump(f: Proto, strip: bool): Bytes
    requires Sized(f)
  {
    HEADER + DumpFunction(f, None, strip)
  }

  // ------------------------------------------------------------------ loading

  function LoadBlock(bs: Bytes, n: nat): Loaded<Bytes> {
    if |bs| < n then Failed(UnexpectedEnd) else Got(bs[..n], bs[n..])
  }

  function LoadByte(bs: Bytes): Loaded<Byte> {
    if bs == [] then Failed(UnexpectedEnd) else Got(bs[0], bs[1..])
  }

  function LoadWord(bs: Bytes): Loaded<Word> {
    if |bs| < 4 then Failed(UnexpectedEnd) else
      Sizes();
      Got(Unsigned(bs[..4]), bs[4..])
  }

  function LoadInt32(bs: Bytes): Loaded<Int32> {
    var (w, rest) :- LoadWord(bs);
    Got(IntOfWord(w), rest)
  }

  function LoadInt(bs: Bytes): Loaded<Int31> {
    var (x, rest) :- LoadInt32(bs);
    if x < 0 then Failed(BadInteger) else Got(x, rest)
  }

  function LoadString(bs: Bytes): Loaded<Option<Str>> {
    var (size, rest) :- LoadBlock(bs, 8);
    if Unsigned(size) == 0 then Got(None, rest)
    else
      var (s, rest') :- LoadBlock(rest, Unsigned(size));
      Got(Some(s[..|s| - 1]), rest')
  }

  function LoadValue(bs: Bytes): Loaded<Value> {
    var (t, rest) :- LoadByte(bs);
    if t == LUA_TNIL then Got(Nil, rest)
    else if t == LUA_TBOOLEAN then
      var (b, rest') :- LoadByte(rest);
      Got(Boolean(b != 0), rest')
    else if t == LUA_TNUMBER then
      var (raw, rest') :- LoadBlock(rest, 8);
      Got(Number(raw), rest')
    else if t == LUA_TSTRING then
      var (s, rest') :- LoadString(rest);
      Got(String(s), rest')
    else Failed(BadConstant)
  }

  function LoadLocVar(bs: Bytes): Loaded<LocVar> {
    var (name, b1) :- LoadString(bs);
    var (startpc, b2) :- LoadInt(b1);
    var (endpc, b3) :- LoadInt(b2);
    Got(LocVar(name, startpc, endpc), b3)
  }

  function Many<T>(bs: Bytes, n: nat, item: Bytes -> Loaded<T>): (r: Loaded<seq<T>>)
    ensures r.Got? ==> |r.value| == n
    decreases n
  {
    if n == 0 then Got([], bs) else
      var (x, rest) :- item(bs);
      var (xs, rest') :- Many(rest, n - 1, item);
      Got([x] + xs, rest')
  }

  function LoadCounted<T>(bs: Bytes, item: Bytes -> Loaded<T>): (r: Loaded<seq<T>>) {
    var (n, rest) :- LoadInt(bs);
    Many(rest, n, item)
  }

  /** A missing source is that of the enclosing function. */
  function LoadFrame(bs: Bytes, p: Str): Loaded<Frame> {
    var (source, b1) :- LoadString(bs);
    var (linedefined, b2) :- LoadInt(b1);
    var (lastlinedefined, b3) :- LoadInt(b2);
    var (nups, b4) :- LoadByte(b3);
    var (numparams, b5) :- LoadByte(b4);
    var (isVararg, b6) :- LoadByte(b5);
    var (maxstacksize, b7) :- LoadByte(b6);
    Got(Frame(Some(if source.None? then p else source.value), linedefined, lastlinedefined, nups, numparams, isVararg,
              maxstacksize), b7)
  }

  function LoadDebug(bs: Bytes): Loaded<Debug> {
    var (lineinfo, b1) :- LoadCounted(bs, LoadInt32);
    var (locvars, b2) :- LoadCounted(b1, LoadLocVar);
    var (upvalues, b3) :- LoadCounted(b2, LoadString);
    Got(Debug(lineinfo, locvars, upvalues), b3)
  }

  /** A function, with some levels of nesting left; `check` is the check of the code. */
  function LoadFunction(bs: Bytes, p: Str, levels: nat, check: Proto -> bool): (r: Loaded<Proto>)
    ensures r.Got? ==> r.value.frame.source.Some?
    decreases levels, 0
  {
    if levels == 0 then Failed(CodeTooDeep) else
      var (frame, b1) :- LoadFrame(bs, p);
      var (code, b2) :- LoadCounted(b1, LoadWord);
      var (k, b3) :- LoadCounted(b2, LoadValue);
      var (n, b4) :- LoadInt(b3);
      var (ps, b5) :- LoadFunctions(b4, n, frame.source.value, levels - 1, check);
      var (debug, b6) :- LoadDebug(b5);
      var f := Proto(frame, code, k, ps, debug);
      if check(f) then Got(f, b6) else Failed(BadCode)
  }

  function LoadFunctions(bs: Bytes, n: nat, p: Str, levels: nat, check: Proto -> bool): (r: Loaded<seq<Proto>>)
    decreases levels, n + 1
  {
    if n == 0 then Got([], bs) else
      var (f, rest) :- LoadFunction(bs, p, levels, check);
      var (fs, rest') :- LoadFunctions(rest, n - 1, p, levels, check);
      Got([f] + fs, rest')
  }

  const UNKNOWN_SOURCE: Str := [61, 63]  // "=?"

  function Undump(bs: Bytes, check: Proto -> bool): Loaded<Proto> {
    var (header, rest) :- LoadBlock(bs, |HEADER|);
    if header != HEADER then Failed(BadHeader) else LoadFunction(rest, UNKNOWN_SOURCE, LUAI_MAXCCALLS, check)
  }
}
