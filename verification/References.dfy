/** References to values: a table whose released references are chained through its own
    slots. */
module References {
  import opened Common
  import opened ScatterTable
  import opened TableContents
  import opened Table
  import opened TableSizes
  import opened Log2

  datatype Value = Number(n: int) | Object(id: int)

  const FREELIST_REF: int := 0
  const LUA_REFNIL: int := -1

  /** `lua_tointeger` of a field. */
  ghost function IntAt(m: map<Key, Value>, k: int): int {
    if Int(k) in m && m[Int(k)].Number? then m[Int(k)].n else 0
  }

  ghost function FieldOf(m: map<Key, Value>, k: int): Option<Value> {
    if Int(k) in m then Some(m[Int(k)]) else None
  }

  ghost function With(m: map<Key, Value>, k: int, v: Option<Value>): map<Key, Value> {
    if v.Some? then m[Int(k) := v.value] else m - {Int(k)}
  }

  /** The live references are present with their values; the released ones are chained from
      the first slot, each once, and end with something that is no reference. */
  ghost predicate Refs(m: map<Key, Value>, live: map<int, Value>, free: seq<int>) {
    && (forall r :: r in live ==> r > 0 && Int(r) in m && m[Int(r)] == live[r])
    && (forall i :: 0 <= i < |free| ==> free[i] > 0 && free[i] !in live)
    && (forall i, j :: 0 <= i < j < |free| ==> free[i] != free[j])
    && IntAt(m, FREELIST_REF) == (if free == [] then 0 else free[0])
    && (forall i, j :: 0 <= i && j == i + 1 && j < |free| ==> IntAt(m, free[i]) == free[j])
    && (free != [] ==> IntAt(m, free[|free| - 1]) == 0)
  }

  /** Only the head of the list and the field of `r` may differ. */
  ghost predicate SameElsewhere(m: map<Key, Value>, m': map<Key, Value>, r: int) {
    forall k :: k != Int(0) && k != Int(r) ==> (k in m <==> k in m') && (k in m ==> m[k] == m'[k])
  }

  lemma PutElsewhere(m: map<Key, Value>, r: int, v: Option<Value>, w: Option<Value>)
    ensures SameElsewhere(m, m, r) && SameElsewhere(m, With(m, r, v), r)
    ensures SameElsewhere(m, With(With(m, r, v), 0, w), r) && SameElsewhere(m, With(With(m, 0, v), r, w), r)
    ensures FREELIST_REF == 0 && LUA_REFNIL == -1
  {
  }

  /** The first released reference is taken: it is not live. */
  lemma TakeReleased(m: map<Key, Value>, live: map<int, Value>, free: seq<int>, v: Value)
    requires Refs(m, live, free) && free != []
    ensures var r := free[0];
            && r == IntAt(m, FREELIST_REF) > 0 && r !in live
            && Refs(With(With(m, FREELIST_REF, FieldOf(m, r)), r, Some(v)), live[r := v], free[1..])
  {
    var r, rest := free[0], free[1..];
    var m' := With(With(m, FREELIST_REF, FieldOf(m, r)), r, Some(v));
    assert IntAt(m', FREELIST_REF) == IntAt(m, r);
    if |free| > 1 { assert IntAt(m, r) == free[1]; }
    forall i | 0 <= i < |rest| ensures rest[i] == free[i + 1] && IntAt(m', rest[i]) == IntAt(m, free[i + 1]) {}
  }

  /** A reference past a boundary is new. */
  lemma TakeNew(m: map<Key, Value>, live: map<int, Value>, n: nat, v: Value)
    requires Refs(m, live, []) && Boundary(m, n)
    ensures n + 1 !in live && Refs(With(m, n + 1, Some(v)), live[n + 1 := v], [])
  {
    var m' := With(m, n + 1, Some(v));
    assert IntAt(m', FREELIST_REF) == IntAt(m, FREELIST_REF);
  }

  /** A live reference is released once. */
  lemma Release(m: map<Key, Value>, live: map<int, Value>, free: seq<int>, r: int)
    requires Refs(m, live, free) && r in live
    ensures Refs(With(With(m, r, FieldOf(m, FREELIST_REF)), FREELIST_REF, Some(Number(r))), live - {r}, [r] + free)
  {
    var m' := With(With(m, r, FieldOf(m, FREELIST_REF)), FREELIST_REF, Some(Number(r)));
    var free' := [r] + free;
    assert IntAt(m', r) == IntAt(m, FREELIST_REF);
    forall i | 0 <= i < |free| ensures free[i] != r && free'[i + 1] == free[i]
    && IntAt(m', free[i]) == IntAt(m, free[i]) {}
    forall i, j | 0 <= i && j == i + 1 && j < |free'| ensures IntAt(m', free'[i]) == free'[j] {
      if i > 0 { assert IntAt(m, free[i - 1]) == free[j - 1]; }
    }
    assert free'[|free'| - 1] == if free == [] then r else free[|free| - 1];
  }

  class RefTable {
    const t: LuaTable<Value>
    ghost var live: map<int, Value>
    ghost var free: seq<int>

    ghost predicate Valid()
      reads this, t
    {
      t.Valid() && Refs(t.Map(), live, free)
    }

    constructor (t: LuaTable<Value>)
      requires t.Valid() && IntAt(t.Map(), FREELIST_REF) == 0
      ensures Valid() && this.t == t && live == map[]
    {
      this.t, live, free := t, map[], [];
    }

    method IntField(k: int) returns (n: int)
      requires t.Valid()
      ensures n == IntAt(t.Map(), k)
    {
      var v := t.Get(Int(k));
      n := if v.Some? && v.value.Number? then v.value.n else 0;
    }

    method Field(k: int) returns (v: Option<Value>)
      requires t.Valid()
      ensures v == FieldOf(t.Map(), k)
    {
      v := t.Get(Int(k));
    }

    method SetField(k: int, v: Option<Value>) returns (ok: bool)
      requires t.Valid()
      modifies t
      ensures ok ==> t.Valid() && t.Map() == With(old(t.Map()), k, v)
      ensures !ok ==> |old(t.Map())| >= Pow2(MAX_BITS)
    {
      ok := t.Set(Int(k), v);
    }

    lemma Opened()
      requires Valid()
      ensures t.Valid() && Refs(t.Map(), live, free)
    {
    }

    lemma Closed()
      requires t.Valid() && Refs(t.Map(), live, free)
      ensures Valid()
    {
    }

    /** A reference to a value: never one that is live. It fails only if the table cannot
        grow. */
    method Ref(v: Option<Value>) returns (ref: int, ok: bool)
      requires Valid()
      modifies this, t
      ensures ok ==> Valid() && if v.None? then ref == -1 && live == old(live)
                                else ref > 0 && ref !in old(live) && live == old(live)[ref := v.value]
      ensures ok ==> if v.None? || old(free) == [] then free == old(free)
                     else ref == old(free)[0] && free == old(free)[1..]
      ensures ok ==> SameElsewhere(old(t.Map()), t.Map(), ref)
      ensures ok ==> |t.Map()| <= |old(t.Map())| + 1
      ensures !ok ==> |old(t.Map())| >= Pow2(MAX_BITS)
    {
      hide *;
      Opened();
      ok := true;
      ghost var m := t.Map();
      if v.None? {
        PutElsewhere(m, -1, v, v);
        return LUA_REFNIL, true;
      }
      ref := IntField(FREELIST_REF);
      if ref != 0 {
        IsReleased(m, live, free);
        TakeReleased(m, live, free, v.value);
        SizeWith(m, FREELIST_REF, FieldOf(m, ref));
        PresentAt(m, FREELIST_REF);
        var next := Field(ref);
        PutElsewhere(m, ref, next, v);
        ok := SetField(FREELIST_REF, next);
        if !ok { return; }
      } else {
        EmptyList(m, live, free);
        var n := t.GetN();
        TakeNew(m, live, n, v.value);
        ref := n + 1;
        PutElsewhere(m, ref, v, v);
      }
      SizeWith(t.Map(), ref, v);
      ok := SetField(ref, v);
      if !ok { return; }
      live := live[ref := v.value];
      free := if free == [] then [] else free[1..];
      Closed();
    }

    /** Give a live reference back; others are ignored if they are negative. */
    method Unref(ref: int) returns (ok: bool)
      requires Valid() && (ref in live || ref < 0)
      modifies this, t
      ensures ok ==> Valid() && live == old(live) - {ref} && |t.Map()| <= |old(t.Map())| + 1
      ensures ok ==> free == (if ref < 0 then old(free) else [ref] + old(free))
      ensures ok ==> SameElsewhere(old(t.Map()), t.Map(), ref)
      ensures !ok ==> |old(t.Map())| >= Pow2(MAX_BITS)
    {
      hide *;
      Opened();
      ghost var m := t.Map();
      LivePositive(m, live, free, ref);
      ok := true;
      if ref >= 0 {
        Release(m, live, free, ref);
        SizeWith(m, ref, FieldOf(m, FREELIST_REF));
        var first := Field(FREELIST_REF);
        PutElsewhere(m, ref, first, Some(Number(ref)));
        ok := SetField(ref, first);
        if !ok { return; }
        SizeWith(t.Map(), FREELIST_REF, Some(Number(ref)));
        ok := SetField(FREELIST_REF, Some(Number(ref)));
        if !ok { return; }
        live, free := live - {ref}, [ref] + free;
        Closed();
      } else {
        assert live - {ref} == live;
        PutElsewhere(m, ref, None, None);
      }
    }

    /** The value of a live reference. */
    method Deref(ref: int) returns (v: Option<Value>)
      requires Valid() && (ref in live || ref == LUA_REFNIL)
      ensures ref in live ==> v == Some(live[ref])
    {
      v := None;
      if ref != LUA_REFNIL {
        v := t.Get(Int(ref));
      }
    }

    /** Over any run in which references are released when they are no longer held: every
        held reference keeps its value, and no two are the same. */
    method Run(ops: seq<Op>) returns (held: seq<int>, ok: bool)
      requires Valid() && live == map[]
      modifies this, t
      ensures ok ==> Valid() && HeldRefs(live, held, ValuesAfter([], ops))
      ensures !ok ==> |old(t.Map())| + |ops| >= Pow2(MAX_BITS)
    {
      hide *;
      held, ok := [], true;
      ghost var values := [];
      NoneHeld(live);
      NoSteps([], ops);
      var i := 0;
      while i < |ops|
        invariant 0 <= i <= |ops| && Valid() && HeldRefs(live, held, values) && ok && |t.Map()| <= |old(t.Map())| + i
        invariant ValuesAfter(values, ops[i..]) == ValuesAfter([], ops)
      {
        OneStep(values, ops, i);
        ghost var was := live;
        var op := ops[i];
        if op.MakeRef? {
          var ref;
          ref, ok := Ref(op.v);
          if !ok { return; }
          OneHeld(was, live, held, values, ref, op.v);
          held := held + [ref];
        } else if 0 <= op.i < |held| {
          IsHeld(live, held, values, op.i);
          ok := Unref(held[op.i]);
          if !ok { return; }
          OneReleased(was, live, held, values, op.i);
          held := held[..op.i] + held[op.i + 1..];
        } else {
          SameCount(live, held, values);
        }
        values := ValuesStep(values, op);
        i := i + 1;
      }
      NoSteps(values, ops);
    }
  }

  lemma SizeWith(m: map<Key, Value>, k: int, v: Option<Value>)
    ensures var r := With(m, k, v); |r| <= |m| + 1 && (Int(k) in m || v.None? ==> |r| <= |m|)
  {
    if v.Some? {
      assert (m[Int(k) := v.value]).Keys == m.Keys + {Int(k)};
    } else {
      assert (m - {Int(k)}).Keys == m.Keys - {Int(k)};
    }
  }

  lemma LivePositive(m: map<Key, Value>, live: map<int, Value>, free: seq<int>, r: int)
    requires Refs(m, live, free)
    ensures r in live ==> r > 0 && Int(r) in m
  {
  }

  lemma IsReleased(m: map<Key, Value>, live: map<int, Value>, free: seq<int>)
    requires Refs(m, live, free) && IntAt(m, FREELIST_REF) != 0
    ensures free != []
  {
  }

  lemma PresentAt(m: map<Key, Value>, k: int)
    requires IntAt(m, k) != 0
    ensures Int(k) in m
  {
  }

  lemma EmptyList(m: map<Key, Value>, live: map<int, Value>, free: seq<int>)
    requires Refs(m, live, free) && IntAt(m, FREELIST_REF) == 0
    ensures free == []
  {
    assert forall i :: 0 <= i < |free| ==> free[i] > 0;
  }

  /** References are made for values (None is nil) and released. */
  datatype Op = MakeRef(v: Option<Value>) | Unreference(i: int)

  function ValuesStep(values: seq<Option<Value>>, op: Op): seq<Option<Value>> {
    match op
    case MakeRef(v) => values + [v]
    case Unreference(i) => if 0 <= i < |values| then values[..i] + values[i + 1..] else values
  }

  function ValuesAfter(values: seq<Option<Value>>, ops: seq<Op>): seq<Option<Value>>
    decreases |ops|
  {
    if ops == [] then values else ValuesAfter(ValuesStep(values, ops[0]), ops[1..])
  }

  lemma OneStep(values: seq<Option<Value>>, ops: seq<Op>, i: nat)
    requires i < |ops|
    ensures ValuesAfter(values, ops[i..]) == ValuesAfter(ValuesStep(values, ops[i]), ops[i + 1..])
    ensures var op := ops[i];
            if op.MakeRef? then ValuesStep(values, op) == values + [op.v]
            else if 0 <= op.i < |values| then ValuesStep(values, op) == values[..op.i] + values[op.i + 1..]
            else ValuesStep(values, op) == values
  {
    assert ops[i..][0] == ops[i] && ops[i..][1..] == ops[i + 1..];
  }

  lemma NoSteps(values: seq<Option<Value>>, ops: seq<Op>)
    ensures ops[0..] == ops && ValuesAfter(values, ops[|ops|..]) == values
  {
  }

  /** The references that are held, and what each is a reference to: no two are the same. */
  ghost predicate HeldRefs(live: map<int, Value>, held: seq<int>, values: seq<Option<Value>>) {
    && |held| == |values|
    && (forall i :: 0 <= i < |held| ==>
          if values[i].None? then held[i] == -1
             else held[i] > 0 && held[i] in live && live[held[i]] == values[i].value)
    && (forall i, j :: 0 <= i < j < |held| && values[i].Some? && values[j].Some? ==> held[i] != held[j])
  }

  lemma NoneHeld(live: map<int, Value>)
    ensures HeldRefs(live, [], [])
  {
  }

  lemma SameCount(live: map<int, Value>, held: seq<int>, values: seq<Option<Value>>)
    requires HeldRefs(live, held, values)
    ensures |held| == |values|
  {
  }

  lemma IsHeld(live: map<int, Value>, held: seq<int>, values: seq<Option<Value>>, i: int)
    requires HeldRefs(live, held, values) && 0 <= i < |held|
    ensures held[i] in live || held[i] < 0
  {
  }

  lemma OneHeld(was: map<int, Value>, live: map<int, Value>, held: seq<int>, values: seq<Option<Value>>, ref: int,
      v: Option<Value>)
    requires HeldRefs(was, held, values)
    requires if v.None? then ref == -1 && live == was else ref > 0 && ref !in was && live == was[ref := v.value]
    ensures HeldRefs(live, held + [ref], values + [v])
  {
  }

  lemma OneReleased(was: map<int, Value>, live: map<int, Value>, held: seq<int>, values: seq<Option<Value>>, i: int)
    requires HeldRefs(was, held, values) && 0 <= i < |held| && live == was - {held[i]}
    ensures |values| == |held| && HeldRefs(live, held[..i] + held[i + 1..], values[..i] + values[i + 1..])
  {
    var h, vs := held[..i] + held[i + 1..], values[..i] + values[i + 1..];
    forall k | 0 <= k < |h|
      ensures var j := if k < i then k else k + 1;
                                            h[k] == held[j] && vs[k] == values[j] && (vs[k].Some? ==> h[k] != held[i])
    {
      var j := if k < i then k else k + 1;
      assert values[j].Some? && values[i].None? ==> held[j] > 0 > held[i];
    }
  }
}
