/** The mark phase as functions on colours and worklists: marking one object,
    traversing one gray object, and draining the gray list. */
module Marking {
  import opened Common
  import opened ObjectGraph

  /** The two whites alternate between cycles; `bit` tells them apart. */
  datatype Color = White(bit: bool) | Gray | Black

  datatype Marks = Marks(color: map<Ref, Color>, gray: seq<Ref>, grayagain: seq<Ref>)

  predicate IsWhite(m: Marks, o: Ref) {
    o in m.color && m.color[o].White?
  }

  ghost function Whites(m: Marks): set<Ref> {
    set o | o in m.color && m.color[o].White?
  }

  /** Mark one object if it is white. Strings stay gray, userdata and closed
      upvalues turn black at once, the rest wait in the gray list. */
  function MarkObject(g: Graph, m: Marks, o: Ref): (r: Marks)
    ensures r.color.Keys == m.color.Keys && r.grayagain == m.grayagain
    ensures Whites(r) <= Whites(m)
    ensures r == m || Whites(r) < Whites(m)
    decreases Whites(m), 0, 0
  {
    if !IsWhite(m, o) || o !in g then m
    else
      var m1 := m.(color := m.color[o := Gray]);
      assert o in Whites(m) && o !in Whites(m1) && Whites(m1) <= Whites(m);
      match g[o].kind
      case String => m1
      case Userdata =>
        var m2 := m.(color := m.color[o := Black]);
        assert o !in Whites(m2) && Whites(m2) <= Whites(m);
        MarkValues(g, m2, g[o].slots)
      case Upvalue =>
        var m2 := MarkValues(g, m1, Kids(g, o));
        assert o !in Whites(m2);
        if g[o].loc.Closed? then
          var m3 := m2.(color := m2.color[o := Black]);
          assert Whites(m3) <= Whites(m2);
          m3
        else m2
      case _ => m1.(gray := [o] + m.gray)
  }

  function MarkValues(g: Graph, m: Marks, vs: seq<Option<Ref>>): (r: Marks)
    ensures r.color.Keys == m.color.Keys && r.grayagain == m.grayagain
    ensures Whites(r) <= Whites(m)
    ensures r == m || Whites(r) < Whites(m)
    decreases Whites(m), 1, |vs|
  {
    if vs == [] then m
    else
      var m1 := if vs[0].None? then m else MarkObject(g, m, vs[0].value);
      MarkValues(g, m1, vs[1..])
  }

  /** Traverse the first gray object, turning it black; a thread stays gray and
      is kept for the atomic phase. */
  function PropagateMark(g: Graph, m: Marks): (r: Marks)
    requires m.gray != []
    ensures r.color.Keys == m.color.Keys
    ensures Whites(r) <= Whites(m)
    ensures Whites(r) < Whites(m) || r.gray == m.gray[1..]
  {
    var o := m.gray[0];
    if o !in g then m.(gray := m.gray[1..])
    else if g[o].kind == Thread then
      MarkValues(g, m.(gray := m.gray[1..], grayagain := [o] + m.grayagain), g[o].slots)
    else
      var m1 := Marks(m.color[o := Black], m.gray[1..], m.grayagain);
      assert o in m.color ==> Whites(m1) <= Whites(m);
      if o in m.color then MarkValues(g, m1, g[o].slots) else m.(gray := m.gray[1..])
  }

  function PropagateAll(g: Graph, m: Marks): (r: Marks)
    ensures r.gray == [] && r.color.Keys == m.color.Keys && Whites(r) <= Whites(m)
    decreases Whites(m), |m.gray|
  {
    if m.gray == [] then m else PropagateAll(g, PropagateMark(g, m))
  }

  // ------------------------------------------------------------ invariants

  ghost predicate KidsMarked(g: Graph, m: Marks, x: Ref) {
    forall c :: Edge(g, x, c) ==> !IsWhite(m, c)
  }

  /** Every marked object outside `lax` and outside the gray list has only marked kids. */
  ghost predicate Tricolor(g: Graph, m: Marks, lax: set<Ref>) {
    forall x :: x in m.color && !IsWhite(m, x) && x !in lax && x !in m.gray ==> KidsMarked(g, m, x)
  }

  predicate IsOpen(g: Graph, x: Ref) {
    x in g && g[x].loc.Open?
  }

  /** The worklists hold gray objects, each once, of the kinds that are ever listed. */
  ghost predicate ListsOk(g: Graph, m: Marks) {
    && NoDuplicates(m.gray + m.grayagain)
    && (forall x :: x in m.gray || x in m.grayagain ==>
          x in m.color && m.color[x] == Gray && x in g && g[x].kind !in {String, Userdata, Upvalue})
  }

  /** Only strings, open upvalues, `busy` objects and members of the lists are gray. */
  ghost predicate GrayListed(g: Graph, m: Marks, busy: set<Ref>) {
    forall x :: x in g && x in m.color && m.color[x] == Gray ==>
      g[x].kind == String || g[x].loc.Open? || x in m.gray || x in m.grayagain || x in busy
  }

  /** Strings, threads and open upvalues are never black. */
  ghost predicate BlackKinds(g: Graph, m: Marks) {
    forall x :: x in g && x in m.color && m.color[x] == Black ==>
      g[x].kind != String && g[x].kind != Thread && !g[x].loc.Open?
  }

  ghost predicate Typed(g: Graph) {
    forall x :: x in g ==>
      && (g[x].kind == String ==> g[x].slots == [])
      && (g[x].loc.Open? ==> g[x].kind == Upvalue && g[x].slots == [])
  }

  ghost predicate MarkInv(g: Graph, m: Marks, lax: set<Ref>, busy: set<Ref>) {
    && Typed(g)
    && m.color.Keys == g.Keys
    && ListsOk(g, m)
    && GrayListed(g, m, busy)
    && BlackKinds(g, m)
    && Tricolor(g, m, lax)
  }

  /** What marking never undoes: marked objects keep their colour and listed ones stay listed. */
  ghost predicate Grows(m: Marks, r: Marks) {
    && (forall x :: x in m.color && !IsWhite(m, x) ==> x in r.color && r.color[x] == m.color[x])
    && (forall x :: x in m.gray ==> x in r.gray)
    && r.grayagain == m.grayagain
  }

  /** First step of marking `o`: it leaves the whites for gray or black and is not yet settled. */
  lemma StartMarking(g: Graph, m: Marks, lax: set<Ref>, busy: set<Ref>, o: Ref, col: Color)
    requires MarkInv(g, m, lax, busy) && IsWhite(m, o)
    requires col == Gray || (col == Black && g[o].kind == Userdata)
    ensures MarkInv(g, m.(color := m.color[o := col]), lax + {o}, busy + {o})
    ensures Grows(m, m.(color := m.color[o := col]))
    ensures Whites(m.(color := m.color[o := col])) < Whites(m)
  {
    var r := m.(color := m.color[o := col]);
    assert o in Whites(m) && o !in Whites(r) && Whites(r) <= Whites(m);
    StartTricolor(g, m, lax, o, col);
    StartLists(g, m, busy, o, col);
    hide Tricolor, ListsOk, GrayListed, Typed;
  }

  lemma StartLists(g: Graph, m: Marks, busy: set<Ref>, o: Ref, col: Color)
    requires ListsOk(g, m) && GrayListed(g, m, busy) && IsWhite(m, o)
    ensures ListsOk(g, m.(color := m.color[o := col])) && GrayListed(g, m.(color := m.color[o := col]), busy + {o})
  {
  }

  lemma StartTricolor(g: Graph, m: Marks, lax: set<Ref>, o: Ref, col: Color)
    requires Tricolor(g, m, lax) && IsWhite(m, o)
    requires col == Gray || col == Black
    ensures Tricolor(g, m.(color := m.color[o := col]), lax + {o})
  {
    hide Edge;
  }

  /** Last step of marking `o`: its kids are marked and it takes its final colour. */
  lemma FinishMarking(g: Graph, m: Marks, lax: set<Ref>, busy: set<Ref>, o: Ref, col: Color)
    requires MarkInv(g, m, lax + {o}, busy + {o}) && o in g && !IsWhite(m, o)
    requires o !in m.gray && o !in m.grayagain && KidsMarked(g, m, o)
    requires (col == Gray && m.color[o] == Gray && (g[o].kind == String || g[o].loc.Open?))
          || (col == Black && g[o].kind != String && g[o].kind != Thread && g[o].loc.Closed?)
    ensures MarkInv(g, m.(color := m.color[o := col]), lax, busy)
  {
  }

  lemma ListGray(g: Graph, m: Marks, lax: set<Ref>, busy: set<Ref>, o: Ref)
    requires MarkInv(g, m, lax, busy) && IsWhite(m, o)
    requires g[o].kind !in {String, Userdata, Upvalue}
    ensures MarkInv(g, m.(color := m.color[o := Gray], gray := [o] + m.gray), lax, busy)
  {
    var r := m.(color := m.color[o := Gray], gray := [o] + m.gray);
    assert r.gray + r.grayagain == [o] + (m.gray + m.grayagain);
  }

  lemma {:induction false} MarkObjectInv(g: Graph, m: Marks, lax: set<Ref>, busy: set<Ref>, o: Ref)
    requires MarkInv(g, m, lax, busy)
    ensures MarkInv(g, MarkObject(g, m, o), lax, busy)
    ensures Grows(m, MarkObject(g, m, o)) && !IsWhite(MarkObject(g, m, o), o)
    decreases Whites(m), 1, 0
  {
    if IsWhite(m, o) {
      match g[o].kind {
        case String =>
          StartMarking(g, m, lax, busy, o, Gray);
          var m1 := m.(color := m.color[o := Gray]);
          FinishMarking(g, m1, lax, busy, o, Gray);
          assert m1.(color := m1.color[o := Gray]) == m1;
        case Userdata => MarkUserdataInv(g, m, lax, busy, o);
        case Upvalue => MarkUpvalueInv(g, m, lax, busy, o);
        case _ => ListGray(g, m, lax, busy, o);
      }
    }
  }

  lemma {:induction false} MarkUserdataInv(g: Graph, m: Marks, lax: set<Ref>, busy: set<Ref>, o: Ref)
    requires MarkInv(g, m, lax, busy) && IsWhite(m, o) && g[o].kind == Userdata
    ensures MarkInv(g, MarkObject(g, m, o), lax, busy)
    ensures Grows(m, MarkObject(g, m, o)) && !IsWhite(MarkObject(g, m, o), o)
    decreases Whites(m), 0, 0
  {
    hide Tricolor, GrayListed, BlackKinds;
    StartMarking(g, m, lax, busy, o, Black);
    var m1 := m.(color := m.color[o := Black]);
    MarkValuesInv(g, m1, lax + {o}, busy + {o}, g[o].slots);
    var m2 := MarkValues(g, m1, g[o].slots);
    FinishMarking(g, m2, lax, busy, o, Black);
    assert m2.(color := m2.color[o := Black]) == m2;
  }

  lemma {:induction false} MarkUpvalueInv(g: Graph, m: Marks, lax: set<Ref>, busy: set<Ref>, o: Ref)
    requires MarkInv(g, m, lax, busy) && IsWhite(m, o) && g[o].kind == Upvalue
    ensures MarkInv(g, MarkObject(g, m, o), lax, busy)
    ensures Grows(m, MarkObject(g, m, o)) && !IsWhite(MarkObject(g, m, o), o)
    decreases Whites(m), 0, 0
  {
    hide Tricolor, GrayListed, BlackKinds;
    StartMarking(g, m, lax, busy, o, Gray);
    var m1 := m.(color := m.color[o := Gray]);
    MarkValuesInv(g, m1, lax + {o}, busy + {o}, Kids(g, o));
    var m2 := MarkValues(g, m1, Kids(g, o));
    if g[o].loc.Closed? {
      FinishMarking(g, m2, lax, busy, o, Black);
    } else {
      FinishMarking(g, m2, lax, busy, o, Gray);
      assert m2.(color := m2.color[o := Gray]) == m2;
    }
  }

  lemma {:induction false} MarkValuesInv(g: Graph, m: Marks, lax: set<Ref>, busy: set<Ref>, vs: seq<Option<Ref>>)
    requires MarkInv(g, m, lax, busy)
    ensures MarkInv(g, MarkValues(g, m, vs), lax, busy)
    ensures Grows(m, MarkValues(g, m, vs))
    ensures forall c :: Some(c) in vs ==> !IsWhite(MarkValues(g, m, vs), c)
    decreases Whites(m), 2, |vs|
  {
    if vs != [] {
      var m1 := if vs[0].None? then m else MarkObject(g, m, vs[0].value);
      if vs[0].Some? { MarkObjectInv(g, m, lax, busy, vs[0].value); }
      MarkValuesInv(g, m1, lax, busy, vs[1..]);
      forall c | Some(c) in vs ensures !IsWhite(MarkValues(g, m, vs), c) {
        assert Some(c) == vs[0] || Some(c) in vs[1..];
      }
    }
  }

  /** What is still white after marking had that very white before. */
  ghost predicate WhitesKept(m: Marks, r: Marks) {
    forall x :: x in r.color && r.color[x].White? ==> x in m.color && m.color[x] == r.color[x]
  }

  lemma {:induction false} MarkObjectWhites(g: Graph, m: Marks, o: Ref)
    ensures WhitesKept(m, MarkObject(g, m, o))
    decreases Whites(m), 0, 0
  {
    if IsWhite(m, o) && o in g {
      var m1 := m.(color := m.color[o := Gray]);
      var m2 := m.(color := m.color[o := Black]);
      assert o in Whites(m) && o !in Whites(m1) && Whites(m1) <= Whites(m) && Whites(m2) == Whites(m1);
      match g[o].kind {
        case String =>
        case Userdata => MarkValuesWhites(g, m2, g[o].slots);
        case Upvalue => MarkValuesWhites(g, m1, Kids(g, o));
        case _ =>
      }
    }
  }

  lemma {:induction false} MarkValuesWhites(g: Graph, m: Marks, vs: seq<Option<Ref>>)
    ensures WhitesKept(m, MarkValues(g, m, vs))
    decreases Whites(m), 1, |vs|
  {
    if vs != [] {
      var m1 := if vs[0].None? then m else MarkObject(g, m, vs[0].value);
      if vs[0].Some? { MarkObjectWhites(g, m, vs[0].value); }
      MarkValuesWhites(g, m1, vs[1..]);
    }
  }

  lemma {:induction false} PropagateMarkInv(g: Graph, m: Marks, lax: set<Ref>, busy: set<Ref>)
    requires MarkInv(g, m, lax, busy) && m.gray != []
    ensures MarkInv(g, PropagateMark(g, m), lax, busy)
    ensures forall x :: x in m.grayagain ==> x in PropagateMark(g, m).grayagain
    ensures var o, r := m.gray[0], PropagateMark(g, m);
            && o in g && o in r.color && KidsMarked(g, r, o)
            && if g[o].kind == Thread then r.color[o] == Gray && o in r.grayagain else r.color[o] == Black
    ensures forall x :: x in m.color && x != m.gray[0] && !IsWhite(m, x) ==> PropagateMark(g, m).color[x] == m.color[x]
  {
    var o := m.gray[0];
    assert o in m.gray;
    var m1 := if g[o].kind == Thread then m.(gray := m.gray[1..], grayagain := [o] + m.grayagain)
              else Marks(m.color[o := Black], m.gray[1..], m.grayagain);
    PopGray(g, m, lax, busy, m1);
    MarkValuesInv(g, m1, lax + {o}, busy, g[o].slots);
    var r := MarkValues(g, m1, g[o].slots);
    assert r == PropagateMark(g, m);
    assert KidsMarked(g, r, o);
  }

  /** `m` without the head of its gray list, as `m1`. */
  ghost predicate Popped(g: Graph, m: Marks, m1: Marks) {
    && m.gray != [] && m.gray[0] in g && m.gray[0] in m.color
    && m1 == if g[m.gray[0]].kind == Thread
             then m.(gray := m.gray[1..], grayagain := [m.gray[0]] + m.grayagain)
             else Marks(m.color[m.gray[0] := Black], m.gray[1..], m.grayagain)
  }

  lemma PopGray(g: Graph, m: Marks, lax: set<Ref>, busy: set<Ref>, m1: Marks)
    requires MarkInv(g, m, lax, busy) && Popped(g, m, m1)
    ensures MarkInv(g, m1, lax + {m.gray[0]}, busy)
    ensures forall x :: x in m.grayagain ==> x in m1.grayagain
  {
    var o := m.gray[0];
    assert o in m.gray;
    PopGrayLists(g, m, m1);
    hide NoDuplicates;
    assert m.gray == [o] + m.gray[1..];
    assert forall x :: x in m.gray <==> x == o || x in m.gray[1..];
    assert ListsOk(g, m1);
    hide ListsOk;
    assert Tricolor(g, m1, lax + {o}) by {
      hide GrayListed, BlackKinds;
      forall x | x in m1.color && !IsWhite(m1, x) && x !in lax + {o} && x !in m1.gray ensures KidsMarked(g, m1, x) {
        assert KidsMarked(g, m, x);
      }
    }
  }

  lemma PopGrayLists(g: Graph, m: Marks, m1: Marks)
    requires NoDuplicates(m.gray + m.grayagain) && Popped(g, m, m1)
    ensures NoDuplicates(m1.gray + m1.grayagain) && m.gray[0] !in m1.gray && m.gray[0] !in m.grayagain
  {
    var o, n := m.gray[0], |m1.gray|;
    var all, rest := m.gray + m.grayagain, m1.gray + m1.grayagain;
    forall i, j | 0 <= i < j < |rest| ensures rest[i] != rest[j] {
      var i' := if i < n then i + 1 else if g[o].kind == Thread then (if i == n then 0 else i) else i + 1;
      var j' := if j < n then j + 1 else if g[o].kind == Thread then (if j == n then 0 else j) else j + 1;
      assert rest[i] == all[i'] && rest[j] == all[j'];
    }
    forall k | 0 <= k < |m1.gray| ensures m1.gray[k] != o {
      assert all[0] == o && all[k + 1] == m1.gray[k];
    }
    forall k | 0 <= k < |m.grayagain| ensures m.grayagain[k] != o {
      assert all[0] == o && all[|m.gray| + k] == m.grayagain[k];
    }
  }

  lemma {:induction false} PropagateAllInv(g: Graph, m: Marks, lax: set<Ref>, busy: set<Ref>)
    requires MarkInv(g, m, lax, busy)
    ensures MarkInv(g, PropagateAll(g, m), lax, busy)
    ensures forall x :: x in m.grayagain ==> x in PropagateAll(g, m).grayagain
    decreases Whites(m), |m.gray|
  {
    if m.gray != [] {
      PropagateMarkInv(g, m, lax, busy);
      PropagateAllInv(g, PropagateMark(g, m), lax, busy);
    }
  }

  lemma {:induction false} PropagateMarkWhites(g: Graph, m: Marks)
    requires m.gray != []
    ensures WhitesKept(m, PropagateMark(g, m))
  {
    var o := m.gray[0];
    if o in g && g[o].kind == Thread {
      MarkValuesWhites(g, m.(gray := m.gray[1..], grayagain := [o] + m.grayagain), g[o].slots);
    } else if o in g && o in m.color {
      MarkValuesWhites(g, Marks(m.color[o := Black], m.gray[1..], m.grayagain), g[o].slots);
    }
  }

  lemma {:induction false} PropagateAllWhites(g: Graph, m: Marks)
    ensures WhitesKept(m, PropagateAll(g, m))
    decreases Whites(m), |m.gray|
  {
    if m.gray != [] {
      PropagateMarkWhites(g, m);
      PropagateAllWhites(g, PropagateMark(g, m));
    }
  }

  // ------------------------------------------- marking marks nothing too much

  ghost predicate MarkedWithin(m: Marks, c: set<Ref>) {
    && (forall x :: x in m.color && !IsWhite(m, x) ==> x in c)
    && (forall x :: x in m.gray || x in m.grayagain ==> x in c)
  }

  lemma {:induction false} MarkObjectWithin(g: Graph, m: Marks, c: set<Ref>, o: Ref)
    requires MarkedWithin(m, c) && ClosedUnder(g, c) && o in c
    requires Typed(g)
    ensures MarkedWithin(MarkObject(g, m, o), c)
    decreases Whites(m), 0, 0
  {
    if IsWhite(m, o) && o in g {
      var m1 := m.(color := m.color[o := Gray]);
      var m2 := m.(color := m.color[o := Black]);
      assert o in Whites(m) && o !in Whites(m1) && Whites(m1) <= Whites(m) && Whites(m2) == Whites(m1);
      match g[o].kind {
        case String =>
        case Userdata => MarkValuesWithin(g, m2, c, Kids(g, o));
        case Upvalue => MarkValuesWithin(g, m1, c, Kids(g, o));
        case _ =>
      }
    }
  }

  lemma {:induction false} MarkValuesWithin(g: Graph, m: Marks, c: set<Ref>, vs: seq<Option<Ref>>)
    requires MarkedWithin(m, c) && ClosedUnder(g, c) && Typed(g)
    requires forall v :: Some(v) in vs ==> v in c
    ensures MarkedWithin(MarkValues(g, m, vs), c)
    decreases Whites(m), 1, |vs|
  {
    if vs != [] {
      var m1 := if vs[0].None? then m else MarkObject(g, m, vs[0].value);
      if vs[0].Some? {
        assert vs[0] in vs;
        MarkObjectWithin(g, m, c, vs[0].value);
      }
      MarkValuesWithin(g, m1, c, vs[1..]);
    }
  }

  lemma {:induction false} PropagateMarkWithin(g: Graph, m: Marks, c: set<Ref>)
    requires MarkedWithin(m, c) && ClosedUnder(g, c) && Typed(g) && m.gray != []
    requires m.gray[0] in g && m.gray[0] in m.color && g[m.gray[0]].kind != Upvalue
    ensures MarkedWithin(PropagateMark(g, m), c)
  {
    var o := m.gray[0];
    assert o in m.gray;
    var m1 := if g[o].kind == Thread then m.(gray := m.gray[1..], grayagain := [o] + m.grayagain)
              else Marks(m.color[o := Black], m.gray[1..], m.grayagain);
    forall v | Some(v) in g[o].slots ensures v in c { assert Edge(g, o, v); }
    MarkValuesWithin(g, m1, c, g[o].slots);
  }

  lemma {:induction false} PropagateAllWithin(g: Graph, m: Marks, c: set<Ref>, lax: set<Ref>, busy: set<Ref>)
    requires MarkedWithin(m, c) && ClosedUnder(g, c) && MarkInv(g, m, lax, busy)
    ensures MarkedWithin(PropagateAll(g, m), c)
    decreases Whites(m), |m.gray|
  {
    if m.gray != [] {
      assert m.gray[0] in m.gray;
      PropagateMarkWithin(g, m, c);
      PropagateMarkInv(g, m, lax, busy);
      PropagateAllWithin(g, PropagateMark(g, m), c, lax, busy);
    }
  }
}
