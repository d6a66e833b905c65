/** Loading precompiled chunks from a buffered stream. */
module LoadState {
  import opened Common
  import opened Bytecode
  import opened BytecodeRoundTrip
  import opened Zio

  /** A prefix already loaded, before the rest of a sequence. */
  function Prepend<T>(acc: seq<T>, r: Loaded<seq<T>>): Loaded<seq<T>> {
    if r.Got? then Got(acc + r.value, r.rest) else r
  }

  lemma NoneYet<T>(r: Loaded<seq<T>>)
    ensures Prepend([], r) == r
  {
    if r.Got? { assert [] + r.value == r.value; }
  }

  /** One more item is loaded, or the whole sequence fails. */
  lemma OneMore<T>(acc: seq<T>, bs: Bytes, n: nat, item: Bytes -> Loaded<T>)
    requires n > 0
    ensures var first := item(bs);
            Prepend(acc, Many(bs, n, item)) ==
            if first.Got? then Prepend(acc + [first.value], Many(first.rest, n - 1, item)) else Failed(first.error)
  {
    var first := item(bs);
    if first.Got? {
      var r := Many(first.rest, n - 1, item);
      if r.Got? { assert acc + ([first.value] + r.value) == (acc + [first.value]) + r.value; }
    }
  }

  lemma AllLoaded<T>(acc: seq<T>, bs: Bytes, item: Bytes -> Loaded<T>)
    ensures Prepend(acc, Many(bs, 0, item)) == Got(acc, bs)
  {
    assert acc + [] == acc;
  }

  lemma OneMoreFunction(acc: seq<Proto>, bs: Bytes, n: nat, p: Str, levels: nat, check: Proto -> bool)
    requires n > 0
    ensures var first := LoadFunction(bs, p, levels, check);
            Prepend(acc, LoadFunctions(bs, n, p, levels, check)) ==
            if first.Got? then Prepend(acc + [first.value], LoadFunctions(first.rest, n - 1, p, levels, check))
               else Failed(first.error)
  {
    hide LoadFunction;
    var first := LoadFunction(bs, p, levels, check);
    if first.Got? {
      var r := LoadFunctions(first.rest, n - 1, p, levels, check);
      if r.Got? { assert acc + ([first.value] + r.value) == (acc + [first.value]) + r.value; }
    }
  }

  /** A vector that is read in one piece is its words read one by one. */
  lemma {:induction false} VectorIsWords(bs: Bytes, n: nat)
    ensures Many(bs, n, LoadWord) == if |bs| < 4 * n then Failed(UnexpectedEnd) else Got(WordsFrom(bs, n), bs[4 * n..])
    decreases n
  {
    if n > 0 && |bs| >= 4 {
      VectorIsWords(bs[4..], n - 1);
      if |bs| >= 4 * n { assert bs[4..][4 * (n - 1)..] == bs[4 * n..]; }
    }
  }

  function WordsFrom(bs: Bytes, n: nat): (ws: seq<Word>)
    requires |bs| >= 4 * n
    ensures |ws| == n
  {
    if n == 0 then [] else
      Sizes();
      [Unsigned(bs[..4])] + WordsFrom(bs[4..], n - 1)
  }

  lemma {:induction false} NthWord(bs: Bytes, n: nat, i: nat)
    requires |bs| >= 4 * n && i < n
    ensures WordsFrom(bs, n)[i] == Unsigned(bs[4 * i..4 * i + 4])
  {
    if i > 0 {
      NthWord(bs[4..], n - 1, i - 1);
      assert bs[4..][4 * (i - 1)..4 * (i - 1) + 4] == bs[4 * i..4 * i + 4];
    }
  }

  lemma {:induction false} WordsOfBlock(bs: Bytes, n: nat)
    requires |bs| >= 4 * n
    ensures WordsFrom(bs, n) == WordsFrom(bs[..4 * n], n)
  {
    forall i | 0 <= i < n ensures WordsFrom(bs, n)[i] == WordsFrom(bs[..4 * n], n)[i] {
      NthWord(bs, n, i);
      NthWord(bs[..4 * n], n, i);
      assert bs[..4 * n][4 * i..4 * i + 4] == bs[4 * i..4 * i + 4];
    }
  }

  function Signed(ws: seq<Word>): seq<Int32> { seq(|ws|, i requires 0 <= i < |ws| => IntOfWord(ws[i])) }

  lemma {:induction false} VectorIsInts(bs: Bytes, n: nat)
    ensures var r := Many(bs, n, LoadWord);
            Many(bs, n, LoadInt32) == if r.Got? then Got(Signed(r.value), r.rest) else Failed(r.error)
    decreases n
  {
    if n == 0 {
      assert Signed([]) == [];
    } else if |bs| >= 4 {
      VectorIsInts(bs[4..], n - 1);
      var r := Many(bs[4..], n - 1, LoadWord);
      if r.Got? {
        var w := LoadWord(bs).value;
        assert Signed([w] + r.value) == [IntOfWord(w)] + Signed(r.value);
      }
    }
  }

  class LoadState {
    const z: ZIO
    var levels: nat  // how much deeper functions may be nested
    const check: Proto -> bool

    ghost predicate Valid()
      reads this, z
    {
      z.Valid()
    }

    constructor (z: ZIO, check: Proto -> bool)
      requires z.Valid()
      ensures this.z == z && this.check == check && levels == LUAI_MAXCCALLS && Valid()
    {
      this.z, this.check, levels := z, check, LUAI_MAXCCALLS;
    }

    /** The value was loaded and its bytes taken, or the error is thrown. */
    ghost predicate Did<T>(r: Loaded<T>, error: Option<Error>, v: T)
      requires Valid()
      reads this, z
    {
      match error
      case None => r == Got(v, z.Ahead())
      case Some(e) => r == Failed(e)
    }

    method Block(size: nat) returns (error: Option<Error>, b: Bytes)
      requires Valid()
      modifies z
      ensures Valid() && Did(LoadBlock(old(z.Ahead()), size), error, b)
    {
      var missing;
      missing, b := z.Read(size);
      error := if missing != 0 then Some(UnexpectedEnd) else None;
    }

    method Char() returns (error: Option<Error>, x: Byte)
      requires Valid()
      modifies z
      ensures Valid() && Did(LoadByte(old(z.Ahead())), error, x)
    {
      var b;
      error, b := Block(1);
      x := if error.None? then b[0] else 0;
    }

    method Int() returns (error: Option<Error>, x: Int31)
      requires Valid()
      modifies z
      ensures Valid() && Did(LoadInt(old(z.Ahead())), error, x)
    {
      var b;
      error, b := Block(4);
      x := 0;
      if error.None? {
        Sizes();
        var w := IntOfWord(Unsigned(b));
        if w < 0 {
          error := Some(BadInteger);
        } else {
          x := w;
        }
      }
    }

    method Text() returns (error: Option<Error>, s: Option<Str>)
      requires Valid()
      modifies z
      ensures Valid() && Did(LoadString(old(z.Ahead())), error, s)
    {
      s := None;
      var b;
      error, b := Block(8);
      if error.Some? { return; }
      var size := Unsigned(b);
      if size == 0 { return; }
      error, b := Block(size);
      if error.None? { s := Some(b[..size - 1]); }  // without the trailing NUL
    }

    method Vector(n: nat) returns (error: Option<Error>, ws: seq<Word>)
      requires Valid()
      modifies z
      ensures Valid() && Did(Many(old(z.Ahead()), n, LoadWord), error, ws)
    {
      ghost var start := z.Ahead();
      VectorIsWords(start, n);
      var b;
      ws := [];
      error, b := Block(4 * n);
      if error.Some? { return; }
      WordsOfBlock(start, n);
      var i := 0;
      while i < n
        invariant Valid() && z.Ahead() == start[4 * n..]
        invariant 0 <= i <= n && |ws| == i && ws == WordsFrom(b, n)[..i]
      {
        NthWord(b, n, i);
        Sizes();
        ws := ws + [Unsigned(b[4 * i..4 * i + 4])];
        i := i + 1;
      }
      assert WordsFrom(b, n)[..n] == WordsFrom(b, n);
    }

    method Code() returns (error: Option<Error>, code: seq<Word>)
      requires Valid()
      modifies z
      ensures Valid() && Did(LoadCounted(old(z.Ahead()), LoadWord), error, code)
    {
      code := [];
      var n;
      error, n := Int();
      if error.Some? { return; }
      error, code := Vector(n);
    }

    method Constant() returns (error: Option<Error>, v: Value)
      requires Valid()
      modifies z
      ensures Valid() && Did(LoadValue(old(z.Ahead())), error, v)
    {
      v := Nil;
      var t;
      error, t := Char();
      if error.Some? { return; }
      if t == LUA_TNIL {
      } else if t == LUA_TBOOLEAN {
        var b;
        error, b := Char();
        v := Boolean(b != 0);
      } else if t == LUA_TNUMBER {
        var raw;
        error, raw := Block(8);
        v := Number(raw);
      } else if t == LUA_TSTRING {
        var s;
        error, s := Text();
        v := String(s);
      } else {
        error := Some(BadConstant);
      }
    }

    method Constants() returns (error: Option<Error>, k: seq<Value>)
      requires Valid()
      modifies z
      ensures Valid() && Did(LoadCounted(old(z.Ahead()), LoadValue), error, k)
    {
      hide LoadInt, LoadValue, Many, Prepend;
      k := [];
      var n;
      error, n := Int();
      if error.Some? { return; }
      ghost var start := z.Ahead();
      NoneYet(Many(start, n, LoadValue));
      var i := 0;
      while i < n
        invariant 0 <= i <= n && Valid() && error.None?
        invariant Many(start, n, LoadValue) == Prepend(k, Many(z.Ahead(), n - i, LoadValue))
      {
        OneMore(k, z.Ahead(), n - i, LoadValue);
        var v;
        error, v := Constant();
        if error.Some? { return; }
        k := k + [v];
        i := i + 1;
      }
      AllLoaded(k, z.Ahead(), LoadValue);
    }

    method Variable() returns (error: Option<Error>, v: LocVar)
      requires Valid()
      modifies z
      ensures Valid() && Did(LoadLocVar(old(z.Ahead())), error, v)
    {
      hide LoadInt, LoadString;
      v := LocVar(None, 0, 0);
      var name, startpc, endpc;
      error, name := Text();
      if error.Some? { return; }
      error, startpc := Int();
      if error.Some? { return; }
      error, endpc := Int();
      v := LocVar(name, startpc, endpc);
    }

    method Variables() returns (error: Option<Error>, vs: seq<LocVar>)
      requires Valid()
      modifies z
      ensures Valid() && Did(LoadCounted(old(z.Ahead()), LoadLocVar), error, vs)
    {
      hide LoadInt, LoadLocVar, Many, Prepend;
      vs := [];
      var n;
      error, n := Int();
      if error.Some? { return; }
      ghost var start := z.Ahead();
      NoneYet(Many(start, n, LoadLocVar));
      var i := 0;
      while i < n
        invariant 0 <= i <= n && Valid() && error.None?
        invariant Many(start, n, LoadLocVar) == Prepend(vs, Many(z.Ahead(), n - i, LoadLocVar))
      {
        OneMore(vs, z.Ahead(), n - i, LoadLocVar);
        var v;
        error, v := Variable();
        if error.Some? { return; }
        vs := vs + [v];
        i := i + 1;
      }
      AllLoaded(vs, z.Ahead(), LoadLocVar);
    }

    method UpvalueNames() returns (error: Option<Error>, names: seq<Option<Str>>)
      requires Valid()
      modifies z
      ensures Valid() && Did(LoadCounted(old(z.Ahead()), LoadString), error, names)
    {
      hide LoadInt, LoadString, Many, Prepend;
      names := [];
      var n;
      error, n := Int();
      if error.Some? { return; }
      ghost var start := z.Ahead();
      NoneYet(Many(start, n, LoadString));
      var i := 0;
      while i < n
        invariant 0 <= i <= n && Valid() && error.None?
        invariant Many(start, n, LoadString) == Prepend(names, Many(z.Ahead(), n - i, LoadString))
      {
        OneMore(names, z.Ahead(), n - i, LoadString);
        var s;
        error, s := Text();
        if error.Some? { return; }
        names := names + [s];
        i := i + 1;
      }
      AllLoaded(names, z.Ahead(), LoadString);
    }

    method Lines() returns (error: Option<Error>, lines: seq<Int32>)
      requires Valid()
      modifies z
      ensures Valid() && Did(LoadCounted(old(z.Ahead()), LoadInt32), error, lines)
    {
      hide LoadInt, LoadInt32, LoadWord, Many;
      lines := [];
      var n, ws;
      error, n := Int();
      if error.Some? { return; }
      VectorIsInts(z.Ahead(), n);
      error, ws := Vector(n);
      lines := Signed(ws);
    }

    method DebugInfo() returns (error: Option<Error>, d: Debug)
      requires Valid()
      modifies z
      ensures Valid() && Did(LoadDebug(old(z.Ahead())), error, d)
    {
      hide LoadCounted;
      d := Debug([], [], []);
      var lines, vs, names;
      error, lines := Lines();
      if error.Some? { return; }
      error, vs := Variables();
      if error.Some? { return; }
      error, names := UpvalueNames();
      d := Debug(lines, vs, names);
    }

    method Start(p: Str) returns (error: Option<Error>, f: Frame)
      requires Valid()
      modifies z
      ensures Valid() && Did(LoadFrame(old(z.Ahead()), p), error, f)
      ensures error.None? ==> f.source.Some?
    {
      hide LoadInt, LoadString, LoadByte;
      f := Frame(None, 0, 0, 0, 0, 0, 0);
      var source, linedefined, lastlinedefined, nups, numparams, isVararg, maxstacksize;
      error, source := Text();
      if error.Some? { return; }
      if source.None? { source := Some(p); }
      error, linedefined := Int();
      if error.Some? { return; }
      error, lastlinedefined := Int();
      if error.Some? { return; }
      error, nups := Char();
      if error.Some? { return; }
      error, numparams := Char();
      if error.Some? { return; }
      error, isVararg := Char();
      if error.Some? { return; }
      error, maxstacksize := Char();
      f := Frame(source, linedefined, lastlinedefined, nups, numparams, isVararg, maxstacksize);
    }

    method Function(p: Str) returns (error: Option<Error>, f: Proto)
      requires Valid()
      modifies this, z
      ensures Valid() && Did(LoadFunction(old(z.Ahead()), p, old(levels), check), error, f)
      ensures error.None? ==> levels == old(levels)
      decreases levels, 0
    {
      hide LoadCounted, LoadFrame, LoadDebug, LoadInt, LoadFunctions;
      f := Proto(Frame(None, 0, 0, 0, 0, 0, 0), [], [], [], Debug([], [], []));
      if levels == 0 {
        return Some(CodeTooDeep), f;
      }
      levels := levels - 1;
      var frame, code, k, n, ps, d;
      error, frame := Start(p);
      if error.Some? { return; }
      error, code := Code();
      if error.Some? { return; }
      error, k := Constants();
      if error.Some? { return; }
      error, n := Int();
      if error.Some? { return; }
      error, ps := Functions(n, frame.source.value);
      if error.Some? { return; }
      error, d := DebugInfo();
      if error.Some? { return; }
      f := Proto(frame, code, k, ps, d);
      if !check(f) {
        return Some(BadCode), f;
      }
      levels := levels + 1;
    }

    method Functions(n: nat, p: Str) returns (error: Option<Error>, ps: seq<Proto>)
      requires Valid()
      modifies this, z
      ensures Valid() && Did(LoadFunctions(old(z.Ahead()), n, p, old(levels), check), error, ps)
      ensures error.None? ==> levels == old(levels)
      decreases levels, 1
    {
      hide LoadFunction, Prepend;
      error, ps := None, [];
      ghost var start := z.Ahead();
      NoneYet(LoadFunctions(start, n, p, levels, check));
      var i := 0;
      while i < n
        invariant 0 <= i <= n && Valid() && error.None? && levels == old(levels)
        invariant LoadFunctions(start, n, p, levels,
                                check) == Prepend(ps, LoadFunctions(z.Ahead(), n - i, p, levels, check))
      {
        OneMoreFunction(ps, z.Ahead(), n - i, p, levels, check);
        var f;
        error, f := Function(p);
        if error.Some? { return; }
        ps := ps + [f];
        i := i + 1;
      }
      NoneLeft(ps, z.Ahead(), p, levels, check);
    }

    method UndumpChunk() returns (error: Option<Error>, f: Proto)
      requires Valid() && levels == LUAI_MAXCCALLS
      modifies this, z
      ensures Valid() && Did(Undump(old(z.Ahead()), check), error, f)
    {
      hide LoadFunction, LoadBlock;
      f := Proto(Frame(None, 0, 0, 0, 0, 0, 0), [], [], [], Debug([], [], []));
      var header;
      error, header := Block(|HEADER|);
      if error.Some? { return; }
      if header != HEADER {
        return Some(BadHeader), f;
      }
      error, f := Function(UNKNOWN_SOURCE);
    }
  }

  /** A dump is loaded back from any stream of its bytes, however it is cut into blocks. */
  lemma LoadedFromBlocks(f: Proto, strip: bool, check: Proto -> bool, blocks: seq<Bytes>)
    requires Sized(f) && Accepted(Restored(f, None, UNKNOWN_SOURCE, strip), check)
    requires Joined(blocks) == Dump(f, strip) && forall i :: 0 <= i < |blocks| ==> blocks[i] != []
    ensures Undump(Stream(blocks), check) ==
            if Depth(f) <= LUAI_MAXCCALLS then Got(Restored(f, None, UNKNOWN_SOURCE, strip), [])
               else Failed(CodeTooDeep)
  {
    CutAnyhow(blocks);
    assert Dump(f, strip) + [] == Dump(f, strip);
    DumpUndump(f, strip, check, []);
  }

  lemma NoneLeft(ps: seq<Proto>, bs: Bytes, p: Str, levels: nat, check: Proto -> bool)
    ensures Prepend(ps, LoadFunctions(bs, 0, p, levels, check)) == Got(ps, bs)
  {
    assert ps + [] == ps;
  }
}
