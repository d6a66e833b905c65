/** Dumping prototypes through a writer, which may fail. */
module DumpState {
  import opened Common
  import opened Bytecode

  /** From what was written at one status to what is written at another, some bytes were
      to be written: all were, or the writer failed somewhere and nothing was written after. */
  ghost predicate Wrote(w: Bytes, status: int, bytes: Bytes, w': Bytes, status': int) {
    if status' == 0 then status == 0 && w' == w + bytes
    else if status != 0 then w' == w && status' == status
    else w <= w' <= w + bytes
  }

  lemma ThenWrote(w0: Bytes, s0: int, a: Bytes, w1: Bytes, s1: int, b: Bytes, w2: Bytes, s2: int)
    requires Wrote(w0, s0, a, w1, s1) && Wrote(w1, s1, b, w2, s2)
    ensures Wrote(w0, s0, a + b, w2, s2)
  {
    assert (w0 + a) + b == w0 + (a + b);
    if s0 == 0 && s1 != 0 { assert w0 + (a + b) == (w0 + a) + b; }
  }

  lemma NothingYet(w: Bytes, status: int)
    ensures Wrote(w, status, [], w, status)
  {
    assert w + [] == w;
  }

  /** All of the items up to one, and it. */
  lemma {:induction false} AllUpTo<T>(xs: seq<T>, i: nat, bytes: T -> Bytes)
    requires i < |xs|
    ensures All(xs[..i + 1], bytes) == All(xs[..i], bytes) + bytes(xs[i])
  {
    if i == 0 {
      assert xs[..1] == [xs[0]];
    } else {
      AllUpTo(xs[1..], i - 1, bytes);
      assert xs[..i + 1][1..] == xs[1..][..i] && xs[..i][1..] == xs[1..][..i - 1];
    }
  }

  lemma {:induction false} FunctionsUpTo(ps: seq<Proto>, i: nat, source: Option<Str>, strip: bool)
    requires i < |ps| && AllSized(ps)
    ensures AllSized(ps[..i]) && AllSized(ps[..i + 1]) && Sized(ps[i])
    ensures DumpFunctions(ps[..i + 1], source, strip) == DumpFunctions(ps[..i], source,
                                                                       strip) + DumpFunction(ps[i], source, strip)
  {
    hide DumpFunction, Sized;
    if i == 0 {
      assert ps[..1] == [ps[0]];
    } else {
      FunctionsUpTo(ps[1..], i - 1, source, strip);
      assert ps[..i + 1][1..] == ps[1..][..i] && ps[..i][1..] == ps[1..][..i - 1];
    }
  }

  class DumpState {
    var written: Bytes
    const writer: Bytes -> int  // the status it returns once so much is written
    const strip: bool
    var status: int

    constructor (writer: Bytes -> int, strip: bool)
      ensures written == [] && status == 0 && this.writer == writer && this.strip == strip
    {
      written, status := [], 0;
      this.writer, this.strip := writer, strip;
    }

    method Block(b: Bytes)
      modifies this
      ensures Wrote(old(written), old(status), b, written, status)
    {
      if status == 0 {
        status := writer(written + b);
        written := written + b;
      }
    }

    method Char(y: Byte)
      modifies this
      ensures Wrote(old(written), old(status), [y], written, status)
    {
      Block([y]);
    }

    method Int(x: Int32)
      modifies this
      ensures Wrote(old(written), old(status), DumpInt(x), written, status)
    {
      Block(LittleEndian(WordOfInt(x), 4));
    }

    method Text(s: Option<Str>)
      modifies this
      ensures Wrote(old(written), old(status), DumpString(s), written, status)
    {
      hide Wrote;
      if s.None? {
        Block(LittleEndian(0, 8));
      } else {
        Block(LittleEndian(|s.value| + 1, 8));
        ghost var w, st := written, status;
        Block(s.value + [0]);
        ThenWrote(old(written), old(status), LittleEndian(|s.value| + 1, 8), w, st, s.value + [0], written, status);
      }
    }

    /** A vector is written in one piece. */
    method Vector(ghost xs: seq<Word>, n: Int31, b: Bytes)
      requires n == |xs| && b == All(xs, DumpWord)
      modifies this
      ensures Wrote(old(written), old(status), Counted(xs, DumpWord), written, status)
    {
      hide Wrote;
      Int(n);
      ghost var w, st := written, status;
      Block(b);
      ThenWrote(old(written), old(status), DumpInt(n), w, st, b, written, status);
    }

    method Constant(v: Value)
      modifies this
      ensures Wrote(old(written), old(status), DumpValue(v), written, status)
    {
      hide Wrote;
      Char(if v.Nil? then LUA_TNIL else if v.Boolean? then LUA_TBOOLEAN else if v.Number? then LUA_TNUMBER
                                                                             else LUA_TSTRING);
      ghost var w, st := written, status;
      match v
      case Nil =>
      case Boolean(b) =>
        Char(if b then 1 else 0);
        ThenWrote(old(written), old(status), [LUA_TBOOLEAN], w, st, [if b then 1 else 0], written, status);
      case Number(raw) =>
        Block(raw);
        ThenWrote(old(written), old(status), [LUA_TNUMBER], w, st, raw, written, status);
      case String(s) =>
        Text(s);
        ThenWrote(old(written), old(status), [LUA_TSTRING], w, st, DumpString(s), written, status);
    }

    method Constants(k: seq<Value>)
      requires |k| < TWO_31
      modifies this
      ensures Wrote(old(written), old(status), Counted(k, DumpValue), written, status)
    {
      hide Wrote, DumpValue, DumpInt;
      Int(|k|);
      ghost var w1, s1 := written, status;
      NothingYet(w1, s1);
      var i := 0;
      while i < |k|
        invariant 0 <= i <= |k| && Wrote(w1, s1, All(k[..i], DumpValue), written, status)
      {
        ghost var w, st := written, status;
        Constant(k[i]);
        AllUpTo(k, i, DumpValue);
        ThenWrote(w1, s1, All(k[..i], DumpValue), w, st, DumpValue(k[i]), written, status);
        i := i + 1;
      }
      assert k[..|k|] == k;
      ThenWrote(old(written), old(status), DumpInt(|k|), w1, s1, All(k, DumpValue), written, status);
    }

    method Variable(v: LocVar)
      modifies this
      ensures Wrote(old(written), old(status), DumpLocVar(v), written, status)
    {
      hide Wrote, DumpString, DumpInt;
      Text(v.varname);
      ghost var w1, s1 := written, status;
      Int(v.startpc);
      ghost var w2, s2 := written, status;
      Int(v.endpc);
      ThenWrote(w1, s1, DumpInt(v.startpc), w2, s2, DumpInt(v.endpc), written, status);
      ThenWrote(old(written), old(status), DumpString(v.varname), w1, s1, DumpInt(v.startpc) + DumpInt(v.endpc),
                written, status);
    }

    method Variables(vs: seq<LocVar>)
      requires |vs| < TWO_31
      modifies this
      ensures Wrote(old(written), old(status), Counted(vs, DumpLocVar), written, status)
    {
      hide Wrote, DumpLocVar, DumpInt;
      Int(|vs|);
      ghost var w1, s1 := written, status;
      NothingYet(w1, s1);
      var i := 0;
      while i < |vs|
        invariant 0 <= i <= |vs| && Wrote(w1, s1, All(vs[..i], DumpLocVar), written, status)
      {
        ghost var w, st := written, status;
        Variable(vs[i]);
        AllUpTo(vs, i, DumpLocVar);
        ThenWrote(w1, s1, All(vs[..i], DumpLocVar), w, st, DumpLocVar(vs[i]), written, status);
        i := i + 1;
      }
      assert vs[..|vs|] == vs;
      ThenWrote(old(written), old(status), DumpInt(|vs|), w1, s1, All(vs, DumpLocVar), written, status);
    }

    method UpvalueNames(names: seq<Option<Str>>)
      requires |names| < TWO_31
      modifies this
      ensures Wrote(old(written), old(status), Counted(names, DumpString), written, status)
    {
      hide Wrote, DumpString, DumpInt;
      Int(|names|);
      ghost var w1, s1 := written, status;
      NothingYet(w1, s1);
      var i := 0;
      while i < |names|
        invariant 0 <= i <= |names| && Wrote(w1, s1, All(names[..i], DumpString), written, status)
      {
        ghost var w, st := written, status;
        Text(names[i]);
        AllUpTo(names, i, DumpString);
        ThenWrote(w1, s1, All(names[..i], DumpString), w, st, DumpString(names[i]), written, status);
        i := i + 1;
      }
      assert names[..|names|] == names;
      ThenWrote(old(written), old(status), DumpInt(|names|), w1, s1, All(names, DumpString), written, status);
    }

    method Lines(lines: seq<Int32>)
      requires |lines| < TWO_31
      modifies this
      ensures Wrote(old(written), old(status), Counted(lines, DumpInt), written, status)
    {
      hide Wrote, DumpInt;
      Int(|lines|);
      ghost var w, st := written, status;
      Block(All(lines, DumpInt));
      ThenWrote(old(written), old(status), DumpInt(|lines|), w, st, All(lines, DumpInt), written, status);
    }

    /** Debug information, or none when stripping. */
    method DebugInfo(d: Debug)
      requires SizedDebug(d)
      modifies this
      ensures Wrote(old(written), old(status), DumpDebug(StrippedDebug(d, strip)), written, status)
    {
      hide Wrote, Counted;
      Lines(if strip then [] else d.lineinfo);
      ghost var w1, s1 := written, status;
      Variables(if strip then [] else d.locvars);
      ghost var w2, s2 := written, status;
      UpvalueNames(if strip then [] else d.upvalues);
      ghost var e := StrippedDebug(d, strip);
      ThenWrote(w1, s1, Counted(e.locvars, DumpLocVar), w2, s2, Counted(e.upvalues, DumpString), written, status);
      ThenWrote(old(written), old(status), Counted(e.lineinfo, DumpInt), w1, s1,
                Counted(e.locvars, DumpLocVar) + Counted(e.upvalues, DumpString), written, status);
    }

    method Start(f: Frame, p: Option<Str>)
      modifies this
      ensures Wrote(old(written), old(status), DumpFrame(f, p, strip), written, status)
    {
      hide Wrote, DumpString, DumpInt;
      var source := if f.source == p || strip then None else f.source;
      Text(source);
      ghost var w1, s1 := written, status;
      Int(f.linedefined);
      ghost var w2, s2 := written, status;
      Int(f.lastlinedefined);
      ghost var w3, s3 := written, status;
      Char(f.nups);
      ghost var w4, s4 := written, status;
      Char(f.numparams);
      ghost var w5, s5 := written, status;
      Char(f.isVararg);
      ghost var w6, s6 := written, status;
      Char(f.maxstacksize);
      ThenWrote(w3, s3, [f.nups], w4, s4, [f.numparams], w5, s5);
      ThenWrote(w3, s3, [f.nups] + [f.numparams], w5, s5, [f.isVararg], w6, s6);
      ThenWrote(w3, s3, [f.nups] + [f.numparams] + [f.isVararg], w6, s6, [f.maxstacksize], written, status);
      ghost var four := [f.nups, f.numparams, f.isVararg, f.maxstacksize];
      assert [f.nups] + [f.numparams] + [f.isVararg] + [f.maxstacksize] == four;
      ThenWrote(w2, s2, DumpInt(f.lastlinedefined), w3, s3, four, written, status);
      ThenWrote(w1, s1, DumpInt(f.linedefined), w2, s2, DumpInt(f.lastlinedefined) + four, written, status);
      ThenWrote(old(written), old(status), DumpString(source), w1, s1,
                DumpInt(f.linedefined) + (DumpInt(f.lastlinedefined) + four), written, status);
    }

    method Function(f: Proto, p: Option<Str>)
      requires Sized(f)
      modifies this
      ensures Wrote(old(written), old(status), DumpFunction(f, p, strip), written, status)
      decreases f, 0
    {
      hide Wrote, DumpFrame, Counted, DumpInt, DumpDebug, DumpFunctions;
      Start(f.frame, p);
      ghost var w1, s1 := written, status;
      Vector(f.code, |f.code|, All(f.code, DumpWord));
      ghost var w2, s2 := written, status;
      Constants(f.k);
      ghost var w3, s3 := written, status;
      Int(|f.p|);
      ghost var w4, s4 := written, status;
      Functions(f.p, f.frame.source);
      ghost var w5, s5 := written, status;
      DebugInfo(f.debug);
      ghost var debug := DumpDebug(StrippedDebug(f.debug, strip));
      ghost var ps := DumpFunctions(f.p, f.frame.source, strip);
      ThenWrote(w4, s4, ps, w5, s5, debug, written, status);
      ThenWrote(w3, s3, DumpInt(|f.p|), w4, s4, ps + debug, written, status);
      ThenWrote(w2, s2, Counted(f.k, DumpValue), w3, s3, DumpInt(|f.p|) + (ps + debug), written, status);
      ThenWrote(w1, s1, Counted(f.code, DumpWord), w2, s2, Counted(f.k, DumpValue) + (DumpInt(|f.p|) + (ps + debug)),
                written, status);
      ThenWrote(old(written), old(status), DumpFrame(f.frame, p, strip), w1, s1,
                Counted(f.code, DumpWord) + (Counted(f.k, DumpValue) + (DumpInt(|f.p|) + (ps + debug))), written,
                  status);
    }

    method Functions(ps: seq<Proto>, source: Option<Str>)
      requires AllSized(ps)
      modifies this
      ensures Wrote(old(written), old(status), DumpFunctions(ps, source, strip), written, status)
      decreases ps, 1
    {
      hide Wrote, DumpFunction;
      NothingYet(written, status);
      var i := 0;
      while i < |ps|
        invariant 0 <= i <= |ps| && AllSized(ps[..i])
        invariant Wrote(old(written), old(status), DumpFunctions(ps[..i], source, strip), written, status)
      {
        ghost var w, st := written, status;
        FunctionsUpTo(ps, i, source, strip);
        Function(ps[i], source);
        ThenWrote(old(written), old(status), DumpFunctions(ps[..i], source, strip), w, st,
                  DumpFunction(ps[i], source, strip), written, status);
        i := i + 1;
      }
      assert ps[..|ps|] == ps;
    }

    /** A whole chunk: the writer got all of it, unless it failed. */
    method DumpChunk(f: Proto) returns (result: int)
      requires Sized(f) && written == [] && status == 0
      modifies this
      ensures result == status && (status == 0 ==> written == Dump(f, strip)) && written <= Dump(f, strip)
    {
      Block(HEADER);
      ghost var w, st := written, status;
      Function(f, None);
      ThenWrote([], 0, HEADER, w, st, DumpFunction(f, None, strip), written, status);
      assert [] + Dump(f, strip) == Dump(f, strip);
      result := status;
    }
  }
}
