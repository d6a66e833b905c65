/** Undumping what was dumped. */
module BytecodeRoundTrip {
  import opened Common
  import opened Bytecode

  // --------------------------------------------------------------- the parts

  lemma WordBack(w: Word, rest: Bytes)
    ensures LoadWord(DumpWord(w) + rest) == Got(w, rest)
  {
    Sizes();
    UnsignedOf(w, 4);
    var bs := DumpWord(w) + rest;
    assert bs[..4] == DumpWord(w) && bs[4..] == rest;
  }

  lemma Int32Back(x: Int32, rest: Bytes)
    ensures LoadInt32(DumpInt(x) + rest) == Got(x, rest)
  {
    WordBack(WordOfInt(x), rest);
  }

  lemma IntBack(x: Int31, rest: Bytes)
    ensures LoadInt(DumpInt(x) + rest) == Got(x, rest)
  {
    Int32Back(x, rest);
  }

  lemma BlockBack(block: Bytes, rest: Bytes)
    ensures LoadBlock(block + rest, |block|) == Got(block, rest)
  {
    var bs := block + rest;
    assert bs[..|block|] == block && bs[|block|..] == rest;
  }

  lemma ByteBack(b: Byte, rest: Bytes)
    ensures LoadByte([b] + rest) == Got(b, rest)
  {
    assert ([b] + rest)[1..] == rest;
  }

  lemma StringBack(s: Option<Str>, rest: Bytes)
    requires SizedString(s)
    ensures LoadString(DumpString(s) + rest) == Got(s, rest)
  {
    hide LittleEndian, Unsigned, LoadBlock;
    Sizes();
    var size := if s.None? then 0 else |s.value| + 1;
    UnsignedOf(size, 8);
    var text := if s.None? then [] else s.value + [0];
    assert DumpString(s) + rest == LittleEndian(size, 8) + (text + rest);
    BlockBack(LittleEndian(size, 8), text + rest);
    BlockBack(text, rest);
    if s.None? { assert text + rest == rest; } else { assert text[..|text| - 1] == s.value; }
  }

  lemma ValueBack(v: Value, rest: Bytes)
    requires SizedValue(v)
    ensures LoadValue(DumpValue(v) + rest) == Got(v, rest)
  {
    hide LoadString, DumpString, LoadBlock;
    match v
    case Nil => ByteBack(LUA_TNIL, rest);
    case Boolean(b) =>
      var bit: Byte := if b then 1 else 0;
      assert DumpValue(v) + rest == [LUA_TBOOLEAN] + ([bit] + rest);
      ByteBack(LUA_TBOOLEAN, [bit] + rest);
      ByteBack(bit, rest);
    case Number(raw) =>
      assert DumpValue(v) + rest == [LUA_TNUMBER] + (raw + rest);
      ByteBack(LUA_TNUMBER, raw + rest);
      BlockBack(raw, rest);
    case String(s) =>
      assert DumpValue(v) + rest == [LUA_TSTRING] + (DumpString(s) + rest);
      ByteBack(LUA_TSTRING, DumpString(s) + rest);
      StringBack(s, rest);
  }

  lemma LocVarBack(v: LocVar, rest: Bytes)
    requires SizedString(v.varname)
    ensures LoadLocVar(DumpLocVar(v) + rest) == Got(v, rest)
  {
    hide LoadString, DumpString, LoadInt, DumpInt;
    var b2 := DumpInt(v.endpc) + rest;
    var b1 := DumpInt(v.startpc) + b2;
    assert DumpLocVar(v) + rest == DumpString(v.varname) + b1;
    StringBack(v.varname, b1);
    IntBack(v.startpc, b2);
    IntBack(v.endpc, rest);
  }

  lemma {:induction false} ManyBack<T>(xs: seq<T>, bytes: T -> Bytes, item: Bytes -> Loaded<T>, rest: Bytes)
    requires forall i, r :: 0 <= i < |xs| ==> item(bytes(xs[i]) + r) == Got(xs[i], r)
    ensures Many(All(xs, bytes) + rest, |xs|, item) == Got(xs, rest)
  {
    if xs == [] {
      assert All(xs, bytes) + rest == rest;
    } else {
      var after := All(xs[1..], bytes) + rest;
      assert All(xs, bytes) + rest == bytes(xs[0]) + after;
      assert item(bytes(xs[0]) + after) == Got(xs[0], after);
      ManyBack(xs[1..], bytes, item, rest);
      assert xs == [xs[0]] + xs[1..];
    }
  }

  lemma CountedBack<T>(xs: seq<T>, bytes: T -> Bytes, item: Bytes -> Loaded<T>, rest: Bytes)
    requires |xs| < TWO_31 && forall i, r :: 0 <= i < |xs| ==> item(bytes(xs[i]) + r) == Got(xs[i], r)
    ensures LoadCounted(Counted(xs, bytes) + rest, item) == Got(xs, rest)
  {
    hide LoadInt, DumpInt, Many, All;
    var after := All(xs, bytes) + rest;
    assert Counted(xs, bytes) + rest == DumpInt(|xs|) + after;
    IntBack(|xs|, after);
    ManyBack(xs, bytes, item, rest);
  }

  lemma CodeBack(code: seq<Word>, rest: Bytes)
    requires |code| < TWO_31
    ensures LoadCounted(Counted(code, DumpWord) + rest, LoadWord) == Got(code, rest)
  {
    forall i, r | 0 <= i < |code| ensures LoadWord(DumpWord(code[i]) + r) == Got(code[i], r) { WordBack(code[i], r); }
    CountedBack(code, DumpWord, LoadWord, rest);
  }

  lemma ValuesBack(k: seq<Value>, rest: Bytes)
    requires |k| < TWO_31 && forall i :: 0 <= i < |k| ==> SizedValue(k[i])
    ensures LoadCounted(Counted(k, DumpValue) + rest, LoadValue) == Got(k, rest)
  {
    forall i, r | 0 <= i < |k| ensures LoadValue(DumpValue(k[i]) + r) == Got(k[i], r) { ValueBack(k[i], r); }
    CountedBack(k, DumpValue, LoadValue, rest);
  }

  lemma LinesBack(lines: seq<Int32>, rest: Bytes)
    requires |lines| < TWO_31
    ensures LoadCounted(Counted(lines, DumpInt) + rest, LoadInt32) == Got(lines, rest)
  {
    forall i,
      r | 0 <= i < |lines| ensures LoadInt32(DumpInt(lines[i]) + r) == Got(lines[i], r) { Int32Back(lines[i], r); }
    CountedBack(lines, DumpInt, LoadInt32, rest);
  }

  lemma LocVarsBack(vs: seq<LocVar>, rest: Bytes)
    requires |vs| < TWO_31 && forall i :: 0 <= i < |vs| ==> SizedString(vs[i].varname)
    ensures LoadCounted(Counted(vs, DumpLocVar) + rest, LoadLocVar) == Got(vs, rest)
  {
    forall i, r | 0 <= i < |vs| ensures LoadLocVar(DumpLocVar(vs[i]) + r) == Got(vs[i], r) { LocVarBack(vs[i], r); }
    CountedBack(vs, DumpLocVar, LoadLocVar, rest);
  }

  lemma StringsBack(ss: seq<Option<Str>>, rest: Bytes)
    requires |ss| < TWO_31 && forall i :: 0 <= i < |ss| ==> SizedString(ss[i])
    ensures LoadCounted(Counted(ss, DumpString) + rest, LoadString) == Got(ss, rest)
  {
    forall i, r | 0 <= i < |ss| ensures LoadString(DumpString(ss[i]) + r) == Got(ss[i], r) { StringBack(ss[i], r); }
    CountedBack(ss, DumpString, LoadString, rest);
  }

  lemma DebugBack(d: Debug, rest: Bytes)
    requires SizedDebug(d)
    ensures LoadDebug(DumpDebug(d) + rest) == Got(d, rest)
  {
    hide LoadCounted, Counted;
    var b2 := Counted(d.upvalues, DumpString) + rest;
    var b1 := Counted(d.locvars, DumpLocVar) + b2;
    assert DumpDebug(d) + rest == Counted(d.lineinfo, DumpInt) + b1;
    LinesBack(d.lineinfo, b1);
    LocVarsBack(d.locvars, b2);
    StringsBack(d.upvalues, rest);
  }

  // ------------------------------------------------------------ the functions

  /** What a function is after dumping it inside one with source `p` and loading it inside
      one whose source was loaded as `q`: without a dumped source it has the source `q`. */
  function Restored(f: Proto, p: Option<Str>, q: Str, strip: bool): (r: Proto)
    ensures r.frame.source.Some?
    decreases f, 0
  {
    var source := if f.frame.source == p || strip || f.frame.source.None? then q else f.frame.source.value;
    Proto(f.frame.(source := Some(source)), f.code, f.k,
          RestoredAll(f.p, f.frame.source, source, strip), StrippedDebug(f.debug, strip))
  }

  function RestoredAll(ps: seq<Proto>, p: Option<Str>, q: Str, strip: bool): (r: seq<Proto>)
    ensures |r| == |ps| && forall i :: 0 <= i < |ps| ==> r[i] == Restored(ps[i], p, q, strip)
    decreases ps, 1
  {
    if ps == [] then [] else [Restored(ps[0], p, q, strip)] + RestoredAll(ps[1..], p, q, strip)
  }

  function Depth(f: Proto): (n: nat)
    ensures n > 0
    decreases f, 0
  {
    1 + DepthAll(f.p)
  }

  function DepthAll(ps: seq<Proto>): nat
    decreases ps, 1
  {
    if ps == [] then 0 else if Depth(ps[0]) > DepthAll(ps[1..]) then Depth(ps[0]) else DepthAll(ps[1..])
  }

  /** The check accepts the function and all those inside it. */
  ghost predicate Accepted(f: Proto, check: Proto -> bool)
    decreases f
  {
    check(f) && forall i :: 0 <= i < |f.p| ==> Accepted(f.p[i], check)
  }

  lemma FrameBack(f: Frame, p: Option<Str>, q: Str, strip: bool, rest: Bytes)
    requires SizedString(f.source)
    ensures LoadFrame(DumpFrame(f, p, strip) + rest, q) ==
            Got(f.(source := Some(if f.source == p || strip || f.source.None? then q else f.source.value)), rest)
  {
    hide LoadString, DumpString, LoadInt, DumpInt, LoadByte;
    var source := if f.source == p || strip then None else f.source;
    var b6 := [f.maxstacksize] + rest;
    var b5 := [f.isVararg] + b6;
    var b4 := [f.numparams] + b5;
    var b3 := [f.nups] + b4;
    var b2 := DumpInt(f.lastlinedefined) + b3;
    var b1 := DumpInt(f.linedefined) + b2;
    assert DumpFrame(f, p, strip) + rest == DumpString(source) + b1;
    StringBack(source, b1);
    IntBack(f.linedefined, b2);
    IntBack(f.lastlinedefined, b3);
    ByteBack(f.nups, b4);
    ByteBack(f.numparams, b5);
    ByteBack(f.isVararg, b6);
    ByteBack(f.maxstacksize, rest);
  }

  /** A dumped function is loaded as the restored one, and exactly its bytes are taken,
      unless functions are nested too deep. */
  lemma {:induction false} FunctionBack(f: Proto, p: Option<Str>, q: Str, strip: bool, levels: nat,
      check: Proto -> bool, rest: Bytes)
    requires Sized(f) && Accepted(Restored(f, p, q, strip), check)
    ensures LoadFunction(DumpFunction(f, p, strip) + rest, q, levels, check) ==
            if Depth(f) <= levels then Got(Restored(f, p, q, strip), rest) else Failed(CodeTooDeep)
    decreases f, 0
  {
    hide DumpFunction, DumpFunctions, LoadFunctions, DumpFrame, LoadFrame, LoadCounted, Counted, DumpInt, LoadInt,
      DumpDebug, LoadDebug;
    if levels > 0 {
      var r, d := Restored(f, p, q, strip), StrippedDebug(f.debug, strip);
      var b5 := DumpDebug(d) + rest;
      var b4 := DumpFunctions(f.p, f.frame.source, strip) + b5;
      var b3 := DumpInt(|f.p|) + b4;
      var b2 := Counted(f.k, DumpValue) + b3;
      var b1 := Counted(f.code, DumpWord) + b2;
      DumpedParts(f, p, strip, rest);
      FrameBack(f.frame, p, q, strip, b1);
      CodeBack(f.code, b2);
      ValuesBack(f.k, b3);
      IntBack(|f.p|, b4);
      FunctionsBack(f.p, f.frame.source, r.frame.source.value, strip, levels - 1, check, b5);
      DebugBack(d, rest);
    }
  }

  lemma DumpedParts(f: Proto, p: Option<Str>, strip: bool, rest: Bytes)
    requires Sized(f)
    ensures DumpFunction(f, p, strip) + rest ==
            DumpFrame(f.frame, p, strip)
            + (Counted(f.code, DumpWord)
               + (Counted(f.k, DumpValue)
                  + (DumpInt(|f.p|) + (DumpFunctions(f.p, f.frame.source, strip)
                                       + (DumpDebug(StrippedDebug(f.debug, strip)) + rest)))))
  {
    hide DumpFrame, Counted, DumpFunctions, DumpDebug;
  }

  lemma {:induction false} FunctionsBack(ps: seq<Proto>, p: Option<Str>, q: Str, strip: bool, levels: nat,
      check: Proto -> bool, rest: Bytes)
    requires AllSized(ps) && forall i :: 0 <= i < |ps| ==> Accepted(RestoredAll(ps, p, q, strip)[i], check)
    ensures LoadFunctions(DumpFunctions(ps, p, strip) + rest, |ps|, q, levels, check) ==
            if DepthAll(ps) <= levels then Got(RestoredAll(ps, p, q, strip), rest) else Failed(CodeTooDeep)
    decreases ps, 1
  {
    hide DumpFunction, LoadFunction, Restored;
    if ps == [] {
      assert DumpFunctions(ps, p, strip) + rest == rest;
    } else {
      var after := DumpFunctions(ps[1..], p, strip) + rest;
      assert DumpFunctions(ps, p, strip) + rest == DumpFunction(ps[0], p, strip) + after;
      assert RestoredAll(ps, p, q, strip)[1..] == RestoredAll(ps[1..], p, q, strip);
      FunctionBack(ps[0], p, q, strip, levels, check, after);
      FunctionsBack(ps[1..], p, q, strip, levels, check, rest);
    }
  }

  /** Undumping a dump gives the restored function back, and leaves what follows. */
  lemma DumpUndump(f: Proto, strip: bool, check: Proto -> bool, rest: Bytes)
    requires Sized(f) && Accepted(Restored(f, None, UNKNOWN_SOURCE, strip), check)
    ensures Undump(Dump(f, strip) + rest, check) ==
            if Depth(f) <= LUAI_MAXCCALLS then Got(Restored(f, None, UNKNOWN_SOURCE, strip), rest)
               else Failed(CodeTooDeep)
  {
    hide DumpFunction, LoadFunction, LoadBlock;
    assert Dump(f, strip) + rest == HEADER + (DumpFunction(f, None, strip) + rest);
    BlockBack(HEADER, DumpFunction(f, None, strip) + rest);
    FunctionBack(f, None, UNKNOWN_SOURCE, strip, LUAI_MAXCCALLS, check, rest);
  }

  // ------------------------------------------------------- what is restored

  /** Every function has a source. */
  ghost predicate Sourced(f: Proto)
    decreases f
  {
    f.frame.source.Some? && forall i :: 0 <= i < |f.p| ==> Sourced(f.p[i])
  }

  /** Without stripping, exactly the functions that all have sources come back unchanged. */
  lemma UnstrippedSame(f: Proto)
    ensures Restored(f, None, UNKNOWN_SOURCE, false) == f <==> Sourced(f)
  {
    SameIff(f, None, UNKNOWN_SOURCE);
  }

  lemma {:induction false} SameIff(f: Proto, p: Option<Str>, q: Str)
    requires p.Some? ==> p.value == q
    ensures Restored(f, p, q, false) == f <==> Sourced(f)
    decreases f
  {
    var r := Restored(f, p, q, false);
    if f.frame.source.Some? {
      assert r.frame == f.frame;
      var all := RestoredAll(f.p, f.frame.source, f.frame.source.value, false);
      forall i | 0 <= i < |f.p| ensures all[i] == f.p[i] <==>
        Sourced(f.p[i]) { SameIff(f.p[i], f.frame.source, f.frame.source.value); }
      assert r.p == all;
      if Sourced(f) { assert all == f.p; }
    }
  }

  /** Nothing but code, constants and sizes: the source is unknown and there is no debug data. */
  ghost predicate StrippedOf(f: Proto, r: Proto)
    decreases f
  {
    && r.frame == f.frame.(source := Some(UNKNOWN_SOURCE)) && r.code == f.code && r.k == f.k
    && r.debug == Debug([], [], []) && |r.p| == |f.p| && forall i :: 0 <= i < |f.p| ==> StrippedOf(f.p[i], r.p[i])
  }

  lemma {:induction false} StripsAll(f: Proto, p: Option<Str>)
    ensures StrippedOf(f, Restored(f, p, UNKNOWN_SOURCE, true))
    decreases f
  {
    forall i | 0 <= i < |f.p| ensures StrippedOf(f.p[i], Restored(f, p, UNKNOWN_SOURCE, true).p[i]) {
      StripsAll(f.p[i], f.frame.source);
    }
  }

  // ---------------------------------------------------- dumping what was loaded

  lemma {:induction false} ManyAre<T>(bs: Bytes, n: nat, item: Bytes -> Loaded<T>, P: T -> bool)
    requires forall b :: item(b).Got? ==> P(item(b).value)
    ensures var r := Many(bs, n, item); r.Got? ==> forall i :: 0 <= i < n ==> P(r.value[i])
    decreases n
  {
    if n > 0 && item(bs).Got? {
      ManyAre(item(bs).rest, n - 1, item, P);
    }
  }

  lemma CountedAre<T>(bs: Bytes, item: Bytes -> Loaded<T>, P: T -> bool)
    requires forall b :: item(b).Got? ==> P(item(b).value)
    ensures var r := LoadCounted(bs, item); r.Got? ==> |r.value| < TWO_31 && forall i :: 0 <= i < |r.value| ==>
                                                                                           P(r.value[i])
  {
    hide Many;
    if LoadInt(bs).Got? { ManyAre(LoadInt(bs).rest, LoadInt(bs).value, item, P); }
  }

  lemma LoadedString(bs: Bytes)
    ensures LoadString(bs).Got? ==> SizedString(LoadString(bs).value)
  {
    hide Unsigned;
    Sizes();
    if |bs| >= 8 { assert Unsigned(bs[..8]) < Pow256(8); }
  }

  lemma LoadedValue(bs: Bytes)
    ensures LoadValue(bs).Got? ==> SizedValue(LoadValue(bs).value)
  {
    hide LoadString;
    if bs != [] { LoadedString(bs[1..]); }
  }

  lemma LoadedDebug(bs: Bytes)
    ensures LoadDebug(bs).Got? ==> SizedDebug(LoadDebug(bs).value)
  {
    hide LoadCounted, LoadString, LoadInt32, LoadInt;
    var named := (v: LocVar) => SizedString(v.varname);
    forall b ensures LoadLocVar(b).Got? ==> named(LoadLocVar(b).value) { LoadedString(b); }
    forall b ensures LoadString(b).Got? ==> SizedString(LoadString(b).value) { LoadedString(b); }
    var r1 := LoadCounted(bs, LoadInt32);
    CountedAre(bs, LoadInt32, x => true);
    if r1.Got? {
      CountedAre(r1.rest, LoadLocVar, named);
      var r2 := LoadCounted(r1.rest, LoadLocVar);
      if r2.Got? { CountedAre(r2.rest, LoadString, SizedString); }
    }
  }

  /** What loading gives: sizes that fit, sources, accepted code, and bounded nesting. */
  ghost predicate WellLoaded(f: Proto, levels: nat, check: Proto -> bool) {
    Sized(f) && Sourced(f) && Accepted(f, check) && Depth(f) <= levels
  }

  lemma {:induction false} LoadedFunction(bs: Bytes, p: Str, levels: nat, check: Proto -> bool)
    requires SizedString(Some(p))
    ensures var r := LoadFunction(bs, p, levels, check); r.Got? ==> WellLoaded(r.value, levels, check)
    decreases levels, 0
  {
    hide LoadFrame, LoadCounted, LoadDebug, LoadFunctions, LoadInt, SizedDebug, SizedString, SizedValue;
    if levels > 0 && LoadFrame(bs, p).Got? {
      LoadedFrame(bs, p);
      var f1 := LoadFrame(bs, p);
      forall b ensures LoadValue(b).Got? ==> SizedValue(LoadValue(b).value) { LoadedValue(b); }
      CountedAre(f1.rest, LoadWord, x => true);
      var c := LoadCounted(f1.rest, LoadWord);
      if c.Got? {
        CountedAre(c.rest, LoadValue, SizedValue);
        var k := LoadCounted(c.rest, LoadValue);
        if k.Got? && LoadInt(k.rest).Got? {
          var n := LoadInt(k.rest);
          LoadedFunctions(n.rest, n.value, f1.value.source.value, levels - 1, check);
          var ps := LoadFunctions(n.rest, n.value, f1.value.source.value, levels - 1, check);
          if ps.Got? { LoadedDebug(ps.rest); }
        }
      }
    }
  }

  lemma LoadedFrame(bs: Bytes, p: Str)
    requires SizedString(Some(p))
    ensures LoadFrame(bs, p).Got? ==> LoadFrame(bs, p).value.source.Some? && SizedString(LoadFrame(bs, p).value.source)
  {
    hide LoadString, LoadInt, LoadByte;
    LoadedString(bs);
  }

  lemma {:induction false} LoadedFunctions(bs: Bytes, n: nat, p: Str, levels: nat, check: Proto -> bool)
    requires SizedString(Some(p))
    ensures var r := LoadFunctions(bs, n, p, levels, check);
            r.Got? ==> |r.value| == n && AllSized(r.value) && DepthAll(r.value) <= levels
                       && forall i :: 0 <= i < n ==> Sourced(r.value[i]) && Accepted(r.value[i], check)
    decreases levels, n + 1
  {
    hide LoadFunction, Sized, Sourced, Accepted;
    if n > 0 && LoadFunction(bs, p, levels, check).Got? {
      var f := LoadFunction(bs, p, levels, check);
      LoadedFunction(bs, p, levels, check);
      LoadedFunctions(f.rest, n - 1, p, levels, check);
      var fs := LoadFunctions(f.rest, n - 1, p, levels, check);
      if fs.Got? { assert ([f.value] + fs.value)[1..] == fs.value; }
    }
  }

  /** Whatever was loaded, from any bytes, has sources throughout, and dumping it and loading
      the dump gives the same function again. */
  lemma UndumpDumpUndump(bs: Bytes, check: Proto -> bool, rest: Bytes)
    requires Undump(bs, check).Got?
    ensures var f := Undump(bs, check).value;
            Sized(f) && Sourced(f) && Undump(Dump(f, false) + rest, check) == Got(f, rest)
  {
    hide LoadFunction, Sized, Sourced, Accepted, Restored, Dump;
    var f := Undump(bs, check).value;
    Sizes();
    LoadedFunction(bs[|HEADER|..], UNKNOWN_SOURCE, LUAI_MAXCCALLS, check);
    UnstrippedSame(f);
    DumpUndump(f, false, check, rest);
  }
}
