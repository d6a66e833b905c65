/** Open upvalues: variables in the stack that closures share, and their closing. Pointers
    are indices into an arena of upvalues; index 0 is the head of the ring of all open ones. */
module UpValues {
  import opened Common

  const HEAD: int := 0
  const NULL: int := -1

  /** An open upvalue is chained in its thread and linked in the ring; a closed one has
      its value in the place of the links. */
  datatype UpVal<+V> =
    | Head(prev: int, next: int)
    | Open(v: int, chain: int, prev: int, next: int, dead: bool)
    | Closed(value: V, dead: bool)
    | Freed

  predicate Linked<V>(u: UpVal<V>) { u.Head? || u.Open? }

  function SetNext<V>(uv: seq<UpVal<V>>, i: int, x: int): seq<UpVal<V>>
    requires 0 <= i < |uv| && Linked(uv[i])
  {
    uv[i := if uv[i].Head? then Head(uv[i].prev, x) else Open(uv[i].v, uv[i].chain, uv[i].prev, x, uv[i].dead)]
  }

  function SetPrev<V>(uv: seq<UpVal<V>>, i: int, x: int): seq<UpVal<V>>
    requires 0 <= i < |uv| && Linked(uv[i])
  {
    uv[i := if uv[i].Head? then Head(x, uv[i].next) else Open(uv[i].v, uv[i].chain, x, uv[i].next, uv[i].dead)]
  }

  function SetChain<V>(uv: seq<UpVal<V>>, i: int, x: int): seq<UpVal<V>>
    requires 0 <= i < |uv| && uv[i].Open?
  {
    uv[i := Open(uv[i].v, x, uv[i].prev, uv[i].next, uv[i].dead)]
  }

  // ------------------------------------------------------------- the ring

  /** The ring through the head, which is at both ends. */
  ghost function At(ring: seq<int>, i: int): int { if 0 < i <= |ring| then ring[i - 1] else HEAD }

  ghost predicate RingOk<V>(uv: seq<UpVal<V>>, ring: seq<int>) {
    && |uv| > 0 && uv[HEAD].Head? && NoDuplicates(ring)
    && (forall i :: 0 <= i < |ring| ==> 0 < ring[i] < |uv| && uv[ring[i]].Open?)
    && (forall i, j :: 0 <= i && j == i + 1 && j < |ring| + 2 ==>
          uv[At(ring, i)].next == At(ring, j) && uv[At(ring, j)].prev == At(ring, i))
  }

  /** Link an upvalue right after the head. */
  function LinkFirst<V>(uv: seq<UpVal<V>>, u: int): seq<UpVal<V>>
    requires |uv| > 0 && uv[HEAD].Head? && 0 < u < |uv| && uv[u].Open?
    requires 0 <= uv[HEAD].next < |uv| && Linked(uv[uv[HEAD].next])
  {
    var first := uv[HEAD].next;
    var a := SetNext(SetPrev(uv, u, HEAD), u, first);
    var b := SetPrev(a, first, u);
    SetNext(b, HEAD, u)
  }

  lemma LinkFirstOk<V>(uv: seq<UpVal<V>>, u: int, ring: seq<int>)
    requires RingOk(uv, ring) && 0 < u < |uv| && uv[u].Open? && u !in ring
    ensures 0 <= uv[HEAD].next < |uv| && Linked(uv[uv[HEAD].next])
    ensures RingOk(LinkFirst(uv, u), [u] + ring)
  {
    assert uv[At(ring, 0)].next == At(ring, 1);
    var r, full := LinkFirst(uv, u), [u] + ring;
    forall i, j | 0 <= i && j == i + 1 && j < |full| + 2 ensures r[At(full, i)].next == At(full, j)
    && r[At(full, j)].prev == At(full, i) {
      if i >= 2 { assert At(full, i) == At(ring, i - 1) && At(full, j) == At(ring, j - 1); }
      if i == 1 { assert At(full, j) == At(ring, 1); }
    }
  }

  /** `unlinkupval`: the neighbours of an upvalue are linked to each other. */
  function Unlink<V>(uv: seq<UpVal<V>>, u: int): (r: seq<UpVal<V>>)
    requires 0 <= u < |uv| && uv[u].Open? && 0 <= uv[u].next < |uv| && 0 <= uv[u].prev < |uv|
    requires Linked(uv[uv[u].next]) && Linked(uv[uv[u].prev])
    ensures |r| == |uv|
  {
    SetNext(SetPrev(uv, uv[u].next, uv[u].prev), uv[u].prev, uv[u].next)
  }

  lemma UnlinkOk<V>(uv: seq<UpVal<V>>, ring: seq<int>, k: int)
    requires RingOk(uv, ring) && 0 <= k < |ring|
    ensures var u := ring[k];
            && 0 <= uv[u].next < |uv| && 0 <= uv[u].prev < |uv| && Linked(uv[uv[u].next]) && Linked(uv[uv[u].prev])
            && uv[u].next != u && uv[u].prev != u
            && RingOk(Unlink(uv, u), ring[..k] + ring[k + 1..])
  {
    hide RingOk, Unlink;
    RingMembers(uv, ring);
    var u := ring[k];
    Neighbours(uv, ring, k);
    var rest := ring[..k] + ring[k + 1..];
    var r := Unlink(uv, u);
    RestOfRing(ring, k);
    assert r[HEAD].Head? by { UnlinkElsewhere(uv, u, HEAD); }
    forall i | 0 <= i < |rest| ensures 0 < rest[i] < |r| && r[rest[i]].Open? {
      assert rest[i] in rest;
      UnlinkElsewhere(uv, u, rest[i]);
    }
    forall i, j | 0 <= i && j == i + 1 && j < |rest| + 2 ensures r[At(rest, i)].next == At(rest, j)
    && r[At(rest, j)].prev == At(rest, i) {
      RestAt(ring, k, i);
      RestAt(ring, k, j);
      RelinkedAt(uv, ring, k, if i <= k then i else i + 1);
    }
    IsRing(r, rest);
  }

  lemma RingMembers<V>(uv: seq<UpVal<V>>, ring: seq<int>)
    requires RingOk(uv, ring)
    ensures |uv| > 0 && uv[HEAD].Head? && NoDuplicates(ring)
    ensures forall i :: 0 <= i < |ring| ==> 0 < ring[i] < |uv| && uv[ring[i]].Open?
  {
  }

  lemma IsRing<V>(uv: seq<UpVal<V>>, ring: seq<int>)
    requires |uv| > 0 && uv[HEAD].Head? && NoDuplicates(ring)
    requires forall i :: 0 <= i < |ring| ==> 0 < ring[i] < |uv| && uv[ring[i]].Open?
    requires forall i, j :: 0 <= i && j == i + 1 && j < |ring| + 2 ==>
               uv[At(ring, i)].next == At(ring, j) && uv[At(ring, j)].prev == At(ring, i)
    ensures RingOk(uv, ring)
  {
  }

  lemma RestAt(ring: seq<int>, k: int, i: int)
    requires 0 <= k < |ring|
    ensures At(ring[..k] + ring[k + 1..], i) == At(ring, if i <= k then i else i + 1)
  {
  }

  /** Past the unlinked one, the next one in the ring is the next but one. */
  lemma RelinkedAt<V>(uv: seq<UpVal<V>>, ring: seq<int>, k: int, i: int)
    requires RingOk(uv, ring) && 0 <= k < |ring| && 0 <= i <= |ring| && i != k + 1
    requires var u := ring[k]; 0 <= uv[u].next < |uv| && 0 <= uv[u].prev < |uv| && Linked(uv[uv[u].next])
                               && Linked(uv[uv[u].prev])
    ensures var r, j := Unlink(uv, ring[k]), if i == k then k + 2 else i + 1;
            && 0 <= At(ring, i) < |r| && 0 <= At(ring, j) < |r| && Linked(r[At(ring, i)]) && Linked(r[At(ring, j)])
            && r[At(ring, i)].next == At(ring, j) && r[At(ring, j)].prev == At(ring, i)
  {
    Neighbours(uv, ring, k);
    var j := if i == k then k + 2 else i + 1;
    if i != k {
      assert uv[At(ring, i)].next == At(ring, j);
      assert At(ring, i) != At(ring, k) && At(ring, j) != At(ring, k + 2);
    }
  }

  lemma Neighbours<V>(uv: seq<UpVal<V>>, ring: seq<int>, k: int)
    requires RingOk(uv, ring) && 0 <= k < |ring|
    ensures var u := ring[k];
            && uv[u].prev == At(ring, k) && uv[u].next == At(ring, k + 2)
            && 0 <= uv[u].next < |uv| && 0 <= uv[u].prev < |uv| && Linked(uv[uv[u].next]) && Linked(uv[uv[u].prev])
            && uv[u].next != u && uv[u].prev != u
  {
    assert At(ring, k + 1) == ring[k];
    assert uv[At(ring, k)].next == ring[k] && uv[At(ring, k + 1)].next == At(ring, k + 2);
  }

  // ------------------------------------------------------------- the chain

  /** The open upvalues of the thread, with strictly descending stack levels. */
  ghost predicate ChainOk<V>(uv: seq<UpVal<V>>, first: int, chain: seq<int>) {
    && first == (if chain == [] then NULL else chain[0])
    && (forall i :: 0 <= i < |chain| ==> 0 < chain[i] < |uv| && uv[chain[i]].Open?)
    && (forall i, j :: 0 <= i && j == i + 1 && j < |chain| ==> uv[chain[i]].chain == chain[j])
    && (chain != [] ==> uv[chain[|chain| - 1]].chain == NULL)
    && (forall i, j :: 0 <= i < j < |chain| ==> uv[chain[i]].v > uv[chain[j]].v)
  }

  /** The chain and the ring hold exactly the open upvalues. */
  ghost predicate AllListed<V>(uv: seq<UpVal<V>>, chain: seq<int>, ring: seq<int>) {
    forall u :: 0 <= u < |uv| ==> (uv[u].Open? <==> u in chain) && (uv[u].Open? <==> u in ring)
  }

  /** A new upvalue chained after `prev`, or first if `prev` is NULL, at chain position `k`. */
  lemma ChainInsert<V>(uv: seq<UpVal<V>>, r: seq<UpVal<V>>, first: int, chain: seq<int>, k: int, u: int)
    requires ChainOk(uv, first, chain) && 0 <= k <= |chain| && |uv| <= |r| && 0 < u < |r| && u !in chain
    requires r[u].Open? && r[u].chain == (if k < |chain| then chain[k] else NULL)
    requires forall i :: 0 <= i < k ==> uv[chain[i]].v > r[u].v
    requires forall i :: k <= i < |chain| ==> r[u].v > uv[chain[i]].v
    requires forall i :: 0 <= i < |chain| ==> r[chain[i]].Open? && r[chain[i]].v == uv[chain[i]].v
    requires forall i :: 0 <= i < |chain| ==> r[chain[i]].chain == if i == k - 1 then u else uv[chain[i]].chain
    ensures ChainOk(r, if k == 0 then u else first, chain[..k] + [u] + chain[k..])
  {
    hide ChainOk;
    var c := chain[..k] + [u] + chain[k..];
    assert forall i :: 0 <= i < |c| ==> c[i] == Inserted(chain, k, u, i);
    forall i | 0 <= i < |c| ensures 0 < c[i] < |r| && r[c[i]].Open? {
      if i < |chain| { ChainLinks(uv, r, first, chain, k, u, i); } else { LastLinks(uv, r, first, chain, k, u); }
    }
    forall i, j | 0 <= i < j < |c| ensures r[c[i]].v > r[c[j]].v {
      ChainAbove(uv, r, first, chain, k, u, i, j);
    }
    forall i | 0 <= i < |c| - 1 ensures 0 < c[i] < |r| && r[c[i]].Open? && r[c[i]].chain == c[i + 1] {
      ChainLinks(uv, r, first, chain, k, u, i);
    }
    LastLinks(uv, r, first, chain, k, u);
    ChainStart(uv, first, chain);
    IsChain(r, if k == 0 then u else first, c);
  }

  lemma ChainStart<V>(uv: seq<UpVal<V>>, first: int, chain: seq<int>)
    requires ChainOk(uv, first, chain)
    ensures chain != [] ==> first == chain[0]
  {
  }

  lemma IsChain<V>(uv: seq<UpVal<V>>, first: int, c: seq<int>)
    requires c != [] && first == c[0]
    requires forall i :: 0 <= i < |c| ==> 0 < c[i] < |uv| && uv[c[i]].Open?
    requires forall i, j :: 0 <= i < j < |c| ==> uv[c[i]].v > uv[c[j]].v
    requires forall i :: 0 <= i < |c| - 1 ==> uv[c[i]].chain == c[i + 1]
    requires uv[c[|c| - 1]].chain == NULL
    ensures ChainOk(uv, first, c)
  {
    forall i, j | 0 <= i && j == i + 1 && j < |c| ensures uv[c[i]].chain == c[j] { assert i < |c| - 1; }
  }

  ghost function Inserted(chain: seq<int>, k: int, u: int, i: int): int
    requires 0 <= k <= |chain| && 0 <= i <= |chain|
  {
    if i < k then chain[i] else if i == k then u else chain[i - 1]
  }

  lemma ChainAbove<V>(uv: seq<UpVal<V>>, r: seq<UpVal<V>>, first: int, chain: seq<int>, k: int, u: int, i: int, j: int)
    requires ChainOk(uv, first, chain) && 0 <= k <= |chain| && |uv| <= |r| && 0 < u < |r| && r[u].Open?
    requires forall i :: 0 <= i < k ==> uv[chain[i]].v > r[u].v
    requires forall i :: k <= i < |chain| ==> r[u].v > uv[chain[i]].v
    requires forall i :: 0 <= i < |chain| ==> r[chain[i]].Open? && r[chain[i]].v == uv[chain[i]].v
    requires 0 <= i < j <= |chain|
    ensures var a, b := Inserted(chain, k, u, i), Inserted(chain, k, u, j);
            0 < a < |r| && 0 < b < |r| && r[a].Open? && r[b].Open? && r[a].v > r[b].v
  {
  }

  lemma ChainLinks<V>(uv: seq<UpVal<V>>, r: seq<UpVal<V>>, first: int, chain: seq<int>, k: int, u: int, i: int)
    requires ChainOk(uv, first, chain) && 0 <= k <= |chain| && |uv| <= |r| && 0 < u < |r|
    requires r[u].Open? && r[u].chain == (if k < |chain| then chain[k] else NULL)
    requires forall i :: 0 <= i < |chain| ==>
               r[chain[i]].Open? && r[chain[i]].chain == if i == k - 1 then u else uv[chain[i]].chain
    requires 0 <= i < |chain|
    ensures var a := Inserted(chain, k, u, i);
            0 < a < |r| && r[a].Open? && r[a].chain == Inserted(chain, k, u, i + 1)
  {
    if i + 1 < k { assert uv[chain[i]].chain == chain[i + 1]; }
    if i > k { assert uv[chain[i - 1]].chain == chain[i]; }
  }

  lemma LastLinks<V>(uv: seq<UpVal<V>>, r: seq<UpVal<V>>, first: int, chain: seq<int>, k: int, u: int)
    requires ChainOk(uv, first, chain) && 0 <= k <= |chain| && |uv| <= |r| && 0 < u < |r|
    requires r[u].Open? && r[u].chain == (if k < |chain| then chain[k] else NULL)
    requires forall i :: 0 <= i < |chain| ==>
               r[chain[i]].Open? && r[chain[i]].chain == if i == k - 1 then u else uv[chain[i]].chain
    ensures var a := Inserted(chain, k, u, |chain|); 0 < a < |r| && r[a].Open? && r[a].chain == NULL
  {
  }

  lemma LinksElsewhere<V>(uv: seq<UpVal<V>>, u: int, w: int)
    requires |uv| > 0 && uv[HEAD].Head? && 0 < u < |uv| && uv[u].Open?
    requires 0 <= uv[HEAD].next < |uv| && Linked(uv[uv[HEAD].next]) && 0 <= w < |uv|
    ensures var r := LinkFirst(uv, u); |r| == |uv| && SameVar(uv[w], r[w])
  {
  }

  /** Only the links may differ. */
  ghost predicate SameVar<V>(a: UpVal<V>, b: UpVal<V>) {
    if a.Open? then b.Open? && b.v == a.v && b.chain == a.chain && b.dead == a.dead
    else if a.Head? then b.Head?
    else b == a
  }

  lemma UnlinkElsewhere<V>(uv: seq<UpVal<V>>, u: int, w: int)
    requires 0 <= u < |uv| && uv[u].Open? && 0 <= uv[u].next < |uv| && 0 <= uv[u].prev < |uv|
    requires Linked(uv[uv[u].next]) && Linked(uv[uv[u].prev]) && 0 <= w < |uv|
    ensures var r := Unlink(uv, u); |r| == |uv| && SameVar(uv[w], r[w])
  {
  }

  ghost predicate Shape<V>(uv: seq<UpVal<V>>, first: int, chain: seq<int>, ring: seq<int>) {
    RingOk(uv, ring) && ChainOk(uv, first, chain) && AllListed(uv, chain, ring)
  }

  // -------------------------------------------------------------- variables

  /** Variables as cells: which cell each stack slot is, and what the cells hold. */
  datatype Cells<V> = Cells(cellOf: seq<int>, store: seq<V>)

  ghost predicate StackIs<V>(stack: seq<V>, c: Cells<V>) {
    && |c.cellOf| == |stack| && NoDuplicates(c.cellOf)
    && forall s :: 0 <= s < |stack| ==> 0 <= c.cellOf[s] < |c.store| && c.store[c.cellOf[s]] == stack[s]
  }

  /** Every upvalue is the cell of its variable: that of its slot while it is open, and
      one that is no slot's cell once it is closed. */
  ghost predicate VarsAre<V>(uv: seq<UpVal<V>>, cell: map<int, int>, stackSize: int, c: Cells<V>) {
    && |c.cellOf| == stackSize
    && (forall u :: 0 <= u < |uv| && uv[u].Open? ==>
          u in cell && 0 <= uv[u].v < stackSize && cell[u] == c.cellOf[uv[u].v])
    && (forall u :: 0 <= u < |uv| && uv[u].Closed? ==>
          u in cell && 0 <= cell[u] < |c.store| && c.store[cell[u]] == uv[u].value && cell[u] !in c.cellOf)
    && (forall u :: u in cell ==> 0 <= u < |uv| && (uv[u].Open? || uv[u].Closed?))
    && (forall u, w :: u in cell && w in cell && u != w ==> cell[u] != cell[w])
  }

  class Thread<V> {
    var stack: seq<V>
    var openupval: int
    var uv: seq<UpVal<V>>
    ghost var chain: seq<int>
    ghost var ring: seq<int>
    ghost var cell: map<int, int>
    ghost var cells: Cells<V>

    ghost predicate Valid()
      reads this
    {
      && Shape(uv, openupval, chain, ring)
      && StackIs(stack, cells) && VarsAre(uv, cell, |stack|, cells)
    }

    constructor (s: seq<V>)
      ensures Valid() && stack == s && cells == Cells(seq(|s|, i => i), s) && cell == map[]
    {
      stack, openupval, uv := s, NULL, [Head(HEAD, HEAD)];
      chain, ring, cell := [], [], map[];
      cells := Cells(seq(|s|, i => i), s);
    }

    /** The current value of a variable. */
    method Read(u: int) returns (x: V)
      requires Valid() && u in cell
      ensures x == cells.store[cell[u]]
    {
      x := if uv[u].Open? then stack[uv[u].v] else uv[u].value;
    }

    method Write(u: int, x: V)
      requires Valid() && u in cell
      modifies this
      ensures Valid() && cell == old(cell) && cells == old(cells).(store := old(cells).store[cell[u] := x])
      ensures openupval == old(openupval) && chain == old(chain) && |stack| == |old(stack)| && |uv| == |old(uv)|
      ensures forall w :: w in cell && 0 <= w < |uv| ==> SameStatus(old(uv)[w], uv[w])
    {
      hide Shape, StackIs, VarsAre;
      VarExists(uv, cell, stack, cells, u);
      ghost var c := cells;
      var m := uv[u];
      cells := cells.(store := cells.store[cell[u] := x]);
      if m.Open? {
        OpenWritten(uv, cell, stack, c, u, x);
        stack := stack[m.v := x];
      } else {
        ClosedWritten(uv, openupval, chain, ring, cell, stack, c, u, x);
        uv := uv[u := Closed(x, m.dead)];
      }
    }

    /** Assign to a stack slot, and so to the variable in it. */
    method SetSlot(i: int, x: V)
      requires Valid() && 0 <= i < |stack|
      modifies this
      ensures Valid() && cell == old(cell) && |stack| == |old(stack)| && uv == old(uv)
      ensures cells == old(cells).(store := old(cells).store[old(cells).cellOf[i] := x])
    {
      hide Shape, StackIs, VarsAre;
      SlotWritten(uv, cell, stack, cells, i, x);
      cells := cells.(store := cells.store[cells.cellOf[i] := x]);
      stack := stack[i := x];
    }

    /** The open upvalue of a stack slot: an existing one, brought back if it was dead, or a
        new one chained in its place. Whoever captures the slot gets the same variable. */
    method FindUpval(level: int) returns (u: int)
      requires Valid() && 0 <= level < |stack|
      modifies this
      ensures Valid() && stack == old(stack) && cells == old(cells) && |uv| >= |old(uv)|
      ensures u in cell && cell[u] == cells.cellOf[level] && 0 <= u < |uv| && uv[u].Open? && uv[u].v == level
              && !uv[u].dead
      ensures cell == old(cell) || (cell == old(cell)[u := cells.cellOf[level]] && u == |old(uv)|)
      ensures forall w :: w in old(cell) && w != u ==> 0 <= w < |old(uv)| && SameStatus(old(uv)[w], uv[w])
      ensures forall w :: w in old(cell) && old(cell)[w] == cells.cellOf[level] ==> w == u
    {
      hide Shape, StackIs, VarsAre;
      ChainOf(uv, openupval, chain, ring);
      var pp, p := NULL, openupval;
      ghost var k := 0;
      while p != NULL && uv[p].v >= level
        invariant unchanged(this) && 0 <= k <= |chain|
        invariant p == (if k < |chain| then chain[k] else NULL) && pp == (if k > 0 then chain[k - 1] else NULL)
        invariant forall i :: 0 <= i < k ==> uv[chain[i]].v > level
        decreases |chain| - k
      {
        if uv[p].v == level {
          Revived(uv, openupval, chain, ring, cell, |stack|, cells, p, false);
          OnlyVar(uv, cell, |stack|, cells, p);
          if uv[p].dead { uv := Marked(uv, p, false); }
          return p;
        }
        assert k < |chain| && chain[k] == p;
        assert uv[chain[k]].chain == if k + 1 < |chain| then chain[k + 1] else NULL;
        pp, p := p, uv[p].chain;
        k := k + 1;
      }
      u := NewUpval(level, pp, p, k);
    }

    /** A new upvalue, chained between `pp` and `p` and linked in the ring. */
    method NewUpval(level: int, pp: int, p: int, ghost k: int) returns (u: int)
      requires Valid() && 0 <= level < |stack| && 0 <= k <= |chain|
      requires forall i :: 0 <= i < |chain| ==> 0 < chain[i] < |uv| && uv[chain[i]].Open?
      requires p == (if k < |chain| then chain[k] else NULL) && pp == (if k > 0 then chain[k - 1] else NULL)
      requires forall i :: 0 <= i < k ==> uv[chain[i]].v > level
      requires k < |chain| ==> uv[chain[k]].v < level
      modifies this
      ensures Valid() && stack == old(stack) && cells == old(cells) && u == |old(uv)| && |uv| == u + 1
      ensures cell == old(cell)[u := cells.cellOf[level]] && uv[u].Open? && uv[u].v == level && !uv[u].dead
      ensures forall w :: w in old(cell) ==> 0 <= w < u && SameStatus(old(uv)[w], uv[w])
                                             && old(cell)[w] != cells.cellOf[level]
    {
      hide Shape, StackIs, VarsAre, SameStatus, LinkFirst;
      u := |uv|;
      Created(uv, openupval, chain, ring, cell, stack, cells, level, k);
      NoVar(uv, openupval, chain, ring, cell, stack, cells, level, k);
      uv := uv + [Open(level, p, HEAD, HEAD, false)];
      if pp == NULL {
        openupval := u;
      } else {
        uv := SetChain(uv, pp, u);
      }
      uv := LinkFirst(uv, u);
      chain, ring := chain[..k] + [u] + chain[k..], [u] + ring;
      cell := cell[u := cells.cellOf[level]];
    }

    /** `luaF_close`: the variables of the slots from `level` on go out of scope. Their open
        upvalues are closed with the values they have, or freed if dead; all other
        variables stay as they are. */
    method Close(level: int)
      requires Valid() && 0 <= level <= |stack|
      modifies this
      ensures Valid() && stack == old(stack) && |uv| == |old(uv)| && cells == Renewed(old(cells), stack, level)
      ensures forall u :: u in old(cell) && 0 <= u < |uv| ==> ClosedFrom(old(uv)[u], uv[u], level)
      ensures forall u :: u in old(cell) && 0 <= u < |uv| ==> (u in cell <==> !uv[u].Freed?)
      ensures forall u :: u in cell ==> u in old(cell) && cell[u] == old(cell)[u]
    {
      hide Shape, StackIs, VarsAre, VarsPart, Unlink, ClosedSoFar, Renewed;
      ghost var c := cells;
      RenewedIs(stack, c, level);
      StartClosing(uv, cell, |stack|, c, stack, level);
      StartClosed(uv, cell, |stack|, c, level);
      FirstOf(uv, openupval, chain, ring);
      cells := Renewed(cells, stack, level);
      while openupval != NULL && uv[openupval].v >= level
        invariant stack == old(stack) && |uv| == |old(uv)| && cells == Renewed(c, stack, level) && c == old(cells)
        invariant StackIs(stack, c) && Shape(uv, openupval, chain, ring) && VarsPart(uv, cell, |stack|, c, cells, level)
        invariant openupval != NULL ==> 0 <= openupval < |uv| && uv[openupval].Open?
        invariant ClosedSoFar(old(uv), old(cell), uv, cell, level)
        decreases |chain|
      {
        var u := openupval;
        ghost var was, before := uv, cell;
        ghost var k := FirstLinks(uv, openupval, chain, ring);
        var m := uv[u];
        openupval := m.chain;
        uv := Unlink(uv, u);
        ValueOf(was, before, stack, c, cells, level, u);
        if m.dead {
          uv := uv[u := Freed];
          cell := cell - {u};
        } else {
          uv := uv[u := Closed(stack[m.v], false)];
        }
        OneClosed(was, u, chain, ring, k, uv);
        OneClosedVars(was, u, before, |stack|, c, cells, level, uv, cell);
        OneMoreClosed(old(uv), old(cell), was, before, u, uv, cell, level);
        chain, ring := chain[1..], ring[..k] + ring[k + 1..];
        FirstOf(uv, openupval, chain, ring);
      }
      EndClosing(uv, openupval, chain, ring, cell, |stack|, c, cells, level);
      AllClosed(old(uv), old(cell), uv, cell, level);
      RenewedKeeps(c, stack, level);
    }

    /** The collector finds an open upvalue that nothing refers to, and has not freed it yet. */
    method Die(u: int)
      requires Valid() && 0 <= u < |uv| && uv[u].Open?
      modifies this`uv
      ensures Valid() && |uv| == |old(uv)| && forall w :: w in cell && w != u && 0 <= w < |uv| ==> uv[w] == old(uv)[w]
    {
      hide Shape, StackIs, VarsAre;
      Revived(uv, openupval, chain, ring, cell, |stack|, cells, u, true);
      uv := Marked(uv, u, true);
    }

    /** `sweepwholelist` of the open upvalues of the thread: those that are dead leave the
        chain and the ring and are freed (`luaF_freeupval`); the others stay as they are. */
    method SweepOpen()
      requires Valid()
      modifies this
      ensures Valid() && stack == old(stack) && cells == old(cells) && |uv| == |old(uv)|
      ensures forall u :: 0 <= u < |uv| ==> SweptVar(old(uv)[u], uv[u])
      ensures forall u :: u in cell <==> u in old(cell) && 0 <= u < |uv| && !(old(uv)[u].Open? && old(uv)[u].dead)
      ensures forall u :: u in cell ==> cell[u] == old(cell)[u]
      ensures forall u :: 0 <= u < |uv| && uv[u].Open? ==> !uv[u].dead
    {
      hide Shape, StackIs, VarsAre, SweptSoFar, Unlink, SweptVar;
      ChainPlace(uv, openupval, chain, ring, 0);
      SweepStarts(uv, cell, |stack|, cells, chain);
      var pp, p := NULL, openupval;
      ghost var k := 0;
      while p != NULL
        invariant stack == old(stack) && cells == old(cells) && 0 <= k <= |chain|
        invariant Shape(uv, openupval, chain, ring) && StackIs(stack, cells) && VarsAre(uv, cell, |stack|, cells)
        invariant p == (if k < |chain| then chain[k] else NULL) && pp == (if k > 0 then chain[k - 1] else NULL)
        invariant SweptSoFar(old(uv), old(cell), uv, cell, chain[..k])
        decreases |chain| - k
      {
        ChainPlace(uv, openupval, chain, ring, k);
        ghost var was, before := uv, cell;
        var next := uv[p].chain;
        if uv[p].dead {
          ghost var j := FreedLinks(uv, openupval, chain, ring, k);
          FreedOk(uv, openupval, chain, ring, k, j, cell, |stack|, cells);
          if pp == NULL { openupval := next; } else { uv := SetChain(uv, pp, next); }
          assert uv == Bypassed(was, chain, k);
          uv := Unlink(uv, p)[p := Freed];
          cell := cell - {p};
          FreedSoFar(old(uv), old(cell), was, before, uv, cell, chain, k);
          SkippedAt(chain, k);
          chain, ring := chain[..k] + chain[k + 1..], ring[..j] + ring[j + 1..];
        } else {
          KeptSoFar(old(uv), old(cell), uv, cell, chain, k);
          pp := p;
          k := k + 1;
        }
        p := next;
      }
      ChainPlace(uv, openupval, chain, ring, k);
      assert chain[..k] == chain;
      SweptAll(old(uv), old(cell), uv, openupval, cell, chain, ring);
    }

    /** The upvalues that the closures hold are the cells they captured. */
    ghost predicate Holds(held: seq<int>, m: Model<V>)
      reads this
    {
      m.cells == cells && Held(held, m.handles, uv, cell)
    }

    method Perform(held: seq<int>, op: Op<V>, ghost m: Model<V>) returns (now: seq<int>, out: seq<V>)
      requires Valid() && Holds(held, m) && ModelOk(m) && Allowed(m, op)
      modifies this
      ensures Valid() && Holds(now, Step(m, op)) && out == Out(m, op)
    {
      hide Shape, StackIs, VarsAre, Held, SameStatus, ModelOk, Renewed;
      now, out := held, [];
      HeldInRange(uv, cell, stack, cells);
      ghost var was, before := uv, cell;
      if op.Capture? {
        var u := FindUpval(op.level);
        now := held + [u];
        CaptureHeld(held, m.handles, was, before, uv, cell, u);
      } else if op.ReadVar? {
        HeldCell(held, m.handles, uv, cell, op.h);
        var x := Read(held[op.h]);
        out := [x];
      } else if op.WriteVar? {
        HeldCell(held, m.handles, uv, cell, op.h);
        Write(held[op.h], op.x);
        StillHeld(held, m.handles, was, before, uv, cell);
      } else if op.Assign? {
        SetSlot(op.i, op.x);
      } else if op.Leave? {
        Close(op.level);
        LeaveHeld(held, m.handles, was, before, uv, cell, op.level);
      } else if op.Sweep? {
        SweepOpen();
        SweepHeld(held, m.handles, was, before, uv, cell);
      } else if 0 <= op.u < |uv| && uv[op.u].Open? && op.u !in held {
        Die(op.u);
        DieHeld(held, m.handles, was, uv, cell, op.u);
      }
    }

    /** Any run: what closures read is what they would read from cells of their own. */
    method Run(ops: seq<Op<V>>) returns (held: seq<int>, out: seq<V>, ghost m: Model<V>)
      requires Valid() && ModelOk(Model(cells, [])) && AllAllowed(Model(cells, []), ops)
      modifies this
      ensures m == Steps(Model(old(cells), []), ops) && out == Outs(Model(old(cells), []), ops)
      ensures Valid() && Holds(held, m)
    {
      hide Shape, StackIs, VarsAre, Held, ModelOk, Step, Out, Allowed;
      held, out, m := [], [], Model(cells, []);
      NoneHeld(uv, cell);
      var i := 0;
      while i < |ops|
        invariant 0 <= i <= |ops| && Valid() && Holds(held, m) && ModelOk(m) && AllAllowed(m, ops[i..])
        invariant Steps(m, ops[i..]) == Steps(Model(old(cells), []), ops)
        invariant out + Outs(m, ops[i..]) == Outs(Model(old(cells), []), ops)
      {
        assert ops[i..][0] == ops[i] && ops[i..][1..] == ops[i + 1..];
        var x: seq<V>;
        ghost var before := out;
        held, x := Perform(held, ops[i], m);
        out := out + x;
        assert before + (x + Outs(Step(m, ops[i]), ops[i + 1..])) == out + Outs(Step(m, ops[i]), ops[i + 1..]);
        m := Step(m, ops[i]);
        i := i + 1;
      }
    }
  }

  predicate Alive<V>(u: UpVal<V>) { (u.Open? && !u.dead) || (u.Closed? && !u.dead) }

  /** What happens to variables: a closure captures the one in a slot, closures read and
      write theirs, slots are assigned, scopes are left, upvalues become unreachable and the
      collector sweeps the open ones. */
  datatype Op<V> =
    | Capture(level: int)
    | ReadVar(h: int)
    | WriteVar(h: int, x: V)
    | Assign(i: int, x: V)
    | Leave(level: int)
    | Unreached(u: int)
    | Sweep

  /** The reference: variables are cells, and each closure holds the cell it captured. */
  datatype Model<V> = Model(cells: Cells<V>, handles: seq<int>)

  ghost predicate ModelOk<V>(m: Model<V>) {
    && NoDuplicates(m.cells.cellOf)
    && (forall s :: 0 <= s < |m.cells.cellOf| ==> 0 <= m.cells.cellOf[s] < |m.cells.store|)
    && (forall h :: 0 <= h < |m.handles| ==> 0 <= m.handles[h] < |m.cells.store|)
  }

  ghost predicate Allowed<V>(m: Model<V>, op: Op<V>) {
    match op
    case Capture(level) => 0 <= level < |m.cells.cellOf|
    case ReadVar(h) => 0 <= h < |m.handles|
    case WriteVar(h, _) => 0 <= h < |m.handles|
    case Assign(i, _) => 0 <= i < |m.cells.cellOf|
    case Leave(level) => 0 <= level <= |m.cells.cellOf|
    case Unreached(_) => true
    case Sweep => true
  }

  ghost function Step<V>(m: Model<V>, op: Op<V>): (r: Model<V>)
    requires ModelOk(m) && Allowed(m, op)
    ensures ModelOk(r) && |r.cells.cellOf| == |m.cells.cellOf|
  {
    var c := m.cells;
    match op
    case Capture(level) => m.(handles := m.handles + [c.cellOf[level]])
    case ReadVar(_) => m
    case WriteVar(h, x) => m.(cells := c.(store := c.store[m.handles[h] := x]))
    case Assign(i, x) => m.(cells := c.(store := c.store[c.cellOf[i] := x]))
    case Leave(level) => m.(cells := Renewed(c, SlotValues(c), level))
    case Unreached(_) => m
    case Sweep => m
  }

  ghost function SlotValues<V>(c: Cells<V>): seq<V>
    requires forall s :: 0 <= s < |c.cellOf| ==> 0 <= c.cellOf[s] < |c.store|
  {
    seq(|c.cellOf|, s requires 0 <= s < |c.cellOf| => c.store[c.cellOf[s]])
  }

  ghost function Out<V>(m: Model<V>, op: Op<V>): seq<V>
    requires ModelOk(m) && Allowed(m, op)
  {
    if op.ReadVar? then [m.cells.store[m.handles[op.h]]] else []
  }

  ghost predicate AllAllowed<V>(m: Model<V>, ops: seq<Op<V>>)
    requires ModelOk(m)
    decreases |ops|
  {
    ops == [] || (Allowed(m, ops[0]) && AllAllowed(Step(m, ops[0]), ops[1..]))
  }

  ghost function Steps<V>(m: Model<V>, ops: seq<Op<V>>): Model<V>
    requires ModelOk(m) && AllAllowed(m, ops)
    decreases |ops|
  {
    if ops == [] then m else Steps(Step(m, ops[0]), ops[1..])
  }

  ghost function Outs<V>(m: Model<V>, ops: seq<Op<V>>): seq<V>
    requires ModelOk(m) && AllAllowed(m, ops)
    decreases |ops|
  {
    if ops == [] then [] else Out(m, ops[0]) + Outs(Step(m, ops[0]), ops[1..])
  }

  /** The upvalues that the closures hold, and the cells those are. */
  ghost predicate Held<V>(held: seq<int>, handles: seq<int>, uv: seq<UpVal<V>>, cell: map<int, int>) {
    && |held| == |handles|
    && forall h :: 0 <= h < |held| ==>
         held[h] in cell && cell[held[h]] == handles[h] && 0 <= held[h] < |uv| && Alive(uv[held[h]])
  }

  lemma NoneHeld<V>(uv: seq<UpVal<V>>, cell: map<int, int>)
    ensures Held([], [], uv, cell)
  {
  }

  lemma HeldCell<V>(held: seq<int>, handles: seq<int>, uv: seq<UpVal<V>>, cell: map<int, int>, h: int)
    requires Held(held, handles, uv, cell) && 0 <= h < |handles|
    ensures |held| == |handles| && held[h] in cell && cell[held[h]] == handles[h]
  {
  }

  lemma StillHeld<V>(held: seq<int>, handles: seq<int>, was: seq<UpVal<V>>, before: map<int, int>, uv: seq<UpVal<V>>,
      cell: map<int, int>)
    requires Held(held, handles, was, before) && cell == before && |uv| == |was|
    requires forall w :: w in cell && 0 <= w < |uv| ==> SameStatus(was[w], uv[w])
    ensures Held(held, handles, uv, cell)
  {
  }

  lemma CaptureHeld<V>(held: seq<int>, handles: seq<int>, was: seq<UpVal<V>>, before: map<int, int>, uv: seq<UpVal<V>>,
      cell: map<int, int>, u: int)
    requires Held(held, handles, was, before) && |uv| >= |was| && u in cell && 0 <= u < |uv| && Alive(uv[u])
    requires cell == before || (cell == before[u := cell[u]] && u == |was|)
    requires forall w :: w in before && w != u ==> 0 <= w < |was| && SameStatus(was[w], uv[w])
    ensures Held(held + [u], handles + [cell[u]], uv, cell)
  {
  }

  lemma LeaveHeld<V>(held: seq<int>, handles: seq<int>, was: seq<UpVal<V>>, before: map<int, int>, uv: seq<UpVal<V>>,
      cell: map<int, int>, level: int)
    requires Held(held, handles, was, before) && |uv| == |was|
    requires forall u :: u in before && 0 <= u < |uv| ==>
                           ClosedFrom(was[u], uv[u], level) && (u in cell <==> !uv[u].Freed?)
    requires forall u :: u in cell ==> u in before && cell[u] == before[u]
    ensures Held(held, handles, uv, cell)
  {
  }

  lemma DieHeld<V>(held: seq<int>, handles: seq<int>, was: seq<UpVal<V>>, uv: seq<UpVal<V>>, cell: map<int, int>,
      u: int)
    requires Held(held, handles, was, cell) && |uv| == |was| && u !in held
    requires forall w :: w in cell && w != u && 0 <= w < |uv| ==> uv[w] == was[w]
    ensures Held(held, handles, uv, cell)
  {
  }

  lemma SweepHeld<V>(held: seq<int>, handles: seq<int>, was: seq<UpVal<V>>, before: map<int, int>, uv: seq<UpVal<V>>,
      cell: map<int, int>)
    requires Held(held, handles, was, before) && |uv| == |was|
    requires forall u :: 0 <= u < |uv| ==> SweptVar(was[u], uv[u])
    requires forall u :: u in cell <==> u in before && 0 <= u < |uv| && !(was[u].Open? && was[u].dead)
    requires forall u :: u in cell ==> cell[u] == before[u]
    ensures Held(held, handles, uv, cell)
  {
  }

  // -------------------------------------------------------------- sweeping

  /** A dead open upvalue is freed; another one keeps everything but its links. */
  ghost predicate SweptVar<V>(a: UpVal<V>, b: UpVal<V>) {
    if a.Open? && a.dead then b.Freed?
    else if a.Open? then b.Open? && b.v == a.v && !b.dead
    else if a.Head? then b.Head?
    else b == a
  }

  /** The chain has been swept up to some place; what comes after is as it was. */
  ghost predicate SweptSoFar<V>(uv0: seq<UpVal<V>>, cell0: map<int, int>, uv: seq<UpVal<V>>, cell: map<int, int>,
      done: seq<int>) {
    && |uv| == |uv0|
    && (forall u :: 0 <= u < |uv| ==> SweptVar(uv0[u], uv[u]) || (uv0[u].Open? && uv[u].Open? && uv[u].v == uv0[u].v
                                                                 && uv[u].dead == uv0[u].dead && u !in done))
    && (forall u :: u in cell ==> u in cell0 && cell[u] == cell0[u])
    && (forall u :: u in cell0 ==> 0 <= u < |uv| && (uv0[u].Open? || uv0[u].Closed?) && (u in cell <==> !uv[u].Freed?))
  }

  lemma ChainPlace<V>(uv: seq<UpVal<V>>, first: int, chain: seq<int>, ring: seq<int>, k: int)
    requires Shape(uv, first, chain, ring) && 0 <= k <= |chain|
    ensures k == 0 ==> first == if chain == [] then NULL else chain[0]
    ensures k < |chain| ==> 0 < chain[k] < |uv| && uv[chain[k]].Open?
                            && uv[chain[k]].chain == if k + 1 < |chain| then chain[k + 1] else NULL
  {
    hide RingOk, AllListed;
    if k < |chain| { Successor(uv, first, chain, k); }
  }

  lemma SweepStarts<V>(uv: seq<UpVal<V>>, cell: map<int, int>, size: int, c: Cells<V>, chain: seq<int>)
    requires VarsAre(uv, cell, size, c)
    ensures SweptSoFar(uv, cell, uv, cell, chain[..0])
  {
  }

  /** The one at place `k` of the chain is somewhere in the ring. */
  lemma FreedLinks<V>(uv: seq<UpVal<V>>, first: int, chain: seq<int>, ring: seq<int>, k: int) returns (j: int)
    requires Shape(uv, first, chain, ring) && 0 <= k < |chain|
    ensures 0 <= j < |ring| && ring[j] == chain[k]
  {
    assert chain[k] in ring;
    j :| 0 <= j < |ring| && ring[j] == chain[k];
  }

  lemma SkippedAt(chain: seq<int>, k: int)
    requires 0 <= k < |chain|
    ensures var rest := chain[..k] + chain[k + 1..];
            |rest| == |chain| - 1 && (k < |rest| ==> rest[k] == chain[k + 1]) && (k > 0 ==> rest[k - 1] == chain[k - 1])
  {
  }

  /** The one before it in the chain gets its successor. */
  function Bypassed<V>(uv: seq<UpVal<V>>, chain: seq<int>, k: int): (r: seq<UpVal<V>>)
    requires 0 <= k < |chain| && 0 <= chain[k] < |uv| && uv[chain[k]].Open?
    requires k > 0 ==> 0 <= chain[k - 1] < |uv| && uv[chain[k - 1]].Open?
    ensures |r| == |uv|
  {
    if k == 0 then uv else SetChain(uv, chain[k - 1], uv[chain[k]].chain)
  }

  lemma FreedOk<V>(uv: seq<UpVal<V>>, first: int, chain: seq<int>, ring: seq<int>, k: int, j: int, cell: map<int, int>,
      size: int, c: Cells<V>)
    requires Shape(uv, first, chain, ring) && 0 <= k < |chain| && 0 <= j < |ring| && ring[j] == chain[k]
    requires VarsAre(uv, cell, size, c)
    ensures var u := chain[k];
            && 0 <= u < |uv| && uv[u].Open? && (k > 0 ==> 0 <= chain[k - 1] < |uv| && uv[chain[k - 1]].Open?)
            && var a := Bypassed(uv, chain, k);
            && a[u].Open? && 0 <= a[u].next < |a| && 0 <= a[u].prev < |a|
            && Linked(a[a[u].next]) && Linked(a[a[u].prev])
            && var r := Unlink(a, u)[u := Freed];
            && Shape(r, if k == 0 then uv[u].chain else first, chain[..k] + chain[k + 1..], ring[..j] + ring[j + 1..])
            && VarsAre(r, cell - {u}, size, c)
            && (forall w :: 0 <= w < |uv| && w != u ==>
                  if uv[w].Open? then r[w].Open? && r[w].v == uv[w].v && r[w].dead == uv[w].dead
                  else if uv[w].Head? then r[w].Head? else r[w] == uv[w])
  {
    hide RingOk, ChainOk, AllListed, VarsAre, Unlink;
    ChainMembers(uv, first, chain);
    var u, a := chain[k], Bypassed(uv, chain, k);
    assert a[u] == uv[u] by { assert k > 0 ==> chain[k - 1] != chain[k]; }
    RingKept(uv, a, ring);
    UnlinkOk(a, ring, j);
    var r := Unlink(a, u)[u := Freed];
    RingClosed(a, u, ring, j, r);
    ChainWithout(uv, r, first, chain, k);
    FreedListed(uv, u, chain, k, ring, ring[..j] + ring[j + 1..], r);
    FreedVars(uv, u, cell, size, c, r);
  }

  lemma ChainMembers<V>(uv: seq<UpVal<V>>, first: int, chain: seq<int>)
    requires ChainOk(uv, first, chain)
    ensures forall i :: 0 <= i < |chain| ==> 0 < chain[i] < |uv| && uv[chain[i]].Open?
    ensures forall i, j :: 0 <= i < j < |chain| ==> chain[i] != chain[j]
  {
    forall i, j | 0 <= i < j < |chain| ensures chain[i] != chain[j] { assert uv[chain[i]].v > uv[chain[j]].v; }
  }

  lemma ChainWithout<V>(uv: seq<UpVal<V>>, r: seq<UpVal<V>>, first: int, chain: seq<int>, k: int)
    requires ChainOk(uv, first, chain) && 0 <= k < |chain| && |r| == |uv|
    requires forall i :: 0 <= i < |chain| && i != k ==>
               0 < chain[i] < |uv| && r[chain[i]].Open? && r[chain[i]].v == uv[chain[i]].v
               && r[chain[i]].chain == if i == k - 1 then uv[chain[k]].chain else uv[chain[i]].chain
    ensures ChainOk(r, if k == 0 then uv[chain[0]].chain else first, chain[..k] + chain[k + 1..])
  {
    var rest := chain[..k] + chain[k + 1..];
    forall i | 0 <= i < |rest| ensures rest[i] == chain[if i < k then i else i + 1] {}
    ChainMembers(uv, first, chain);
    hide ChainOk;
    forall i, j | 0 <= i < j < |rest| ensures r[rest[i]].v > r[rest[j]].v {
      var x, y := if i < k then i else i + 1, if j < k then j else j + 1;
      assert rest[i] == chain[x] && rest[j] == chain[y];
      InOrder(uv, first, chain, x, y);
    }
    forall i | 0 <= i < |rest| ensures r[rest[i]].chain == if i + 1 < |rest| then rest[i + 1] else NULL {
      var x := if i < k then i else i + 1;
      assert rest[i] == chain[x] && (i + 1 < |rest| ==> rest[i + 1] == chain[if i + 1 < k then i + 1 else i + 2]);
      Successor(uv, first, chain, x);
      Successor(uv, first, chain, k);
    }
    Successor(uv, first, chain, k);
    ChainStart(uv, first, chain);
    if rest == [] {
      EmptyChain(r);
    } else {
      IsChain(r, if k == 0 then uv[chain[0]].chain else first, rest);
    }
  }

  lemma InOrder<V>(uv: seq<UpVal<V>>, first: int, chain: seq<int>, i: int, j: int)
    requires ChainOk(uv, first, chain) && 0 <= i < j < |chain|
    ensures uv[chain[i]].v > uv[chain[j]].v
  {
  }

  lemma Successor<V>(uv: seq<UpVal<V>>, first: int, chain: seq<int>, i: int)
    requires ChainOk(uv, first, chain) && 0 <= i < |chain|
    ensures 0 < chain[i] < |uv| && uv[chain[i]].Open?
    ensures uv[chain[i]].chain == if i + 1 < |chain| then chain[i + 1] else NULL
  {
    if i + 1 < |chain| {
      var j := i + 1;
      assert uv[chain[i]].chain == chain[j];
    }
  }

  lemma EmptyChain<V>(uv: seq<UpVal<V>>)
    ensures ChainOk(uv, NULL, [])
  {
  }

  lemma FreedListed<V>(uv: seq<UpVal<V>>, u: int, chain: seq<int>, k: int, ring: seq<int>, rest: seq<int>,
      r: seq<UpVal<V>>)
    requires AllListed(uv, chain, ring) && |r| == |uv| && 0 <= k < |chain| && chain[k] == u && 0 <= u < |r|
    requires !r[u].Open? && forall i, j :: 0 <= i < j < |chain| ==> chain[i] != chain[j]
    requires forall w :: w in rest <==> w in ring && w != u
    requires forall w :: 0 <= w < |uv| && w != u ==> (r[w].Open? <==> uv[w].Open?)
    ensures AllListed(r, chain[..k] + chain[k + 1..], rest)
  {
    var c := chain[..k] + chain[k + 1..];
    assert chain == chain[..k] + [chain[k]] + chain[k + 1..];
    assert forall i :: 0 <= i < |c| ==> c[i] == chain[if i < k then i else i + 1];
    assert forall w :: w in c <==> w in chain && w != u;
  }

  lemma FreedVars<V>(uv: seq<UpVal<V>>, u: int, cell: map<int, int>, size: int, c: Cells<V>, r: seq<UpVal<V>>)
    requires VarsAre(uv, cell, size, c) && |r| == |uv| && 0 <= u < |uv| && r[u].Freed?
    requires forall w :: 0 <= w < |uv| && w != u ==>
               if uv[w].Open? then r[w].Open? && r[w].v == uv[w].v
               else if uv[w].Head? then r[w].Head? else r[w] == uv[w]
    ensures VarsAre(r, cell - {u}, size, c)
  {
  }

  lemma FreedSoFar<V>(uv0: seq<UpVal<V>>, cell0: map<int, int>, was: seq<UpVal<V>>, before: map<int, int>,
      uv: seq<UpVal<V>>, cell: map<int, int>, chain: seq<int>, k: int)
    requires 0 <= k < |chain| && SweptSoFar(uv0, cell0, was, before, chain[..k]) && |uv| == |was|
    requires var u := chain[k];
             0 <= u < |uv| && was[u].Open? && was[u].dead && uv[u].Freed? && cell == before - {u}
    requires forall w :: 0 <= w < |uv| && w != chain[k] ==>
               if was[w].Open? then uv[w].Open? && uv[w].v == was[w].v && uv[w].dead == was[w].dead
               else if was[w].Head? then uv[w].Head? else uv[w] == was[w]
    ensures SweptSoFar(uv0, cell0, uv, cell, (chain[..k] + chain[k + 1..])[..k])
  {
    assert (chain[..k] + chain[k + 1..])[..k] == chain[..k];
  }

  lemma KeptSoFar<V>(uv0: seq<UpVal<V>>, cell0: map<int, int>, uv: seq<UpVal<V>>, cell: map<int, int>,
      chain: seq<int>, k: int)
    requires 0 <= k < |chain| && SweptSoFar(uv0, cell0, uv, cell, chain[..k])
    requires 0 <= chain[k] < |uv| && uv[chain[k]].Open? && !uv[chain[k]].dead
    ensures SweptSoFar(uv0, cell0, uv, cell, chain[..k + 1])
  {
    assert chain[..k + 1] == chain[..k] + [chain[k]];
  }

  lemma SweptAll<V>(uv0: seq<UpVal<V>>, cell0: map<int, int>, uv: seq<UpVal<V>>, first: int, cell: map<int, int>,
      chain: seq<int>, ring: seq<int>)
    requires SweptSoFar(uv0, cell0, uv, cell, chain) && Shape(uv, first, chain, ring)
    ensures |uv| == |uv0|
    ensures forall u :: 0 <= u < |uv| ==> SweptVar(uv0[u], uv[u])
    ensures forall u :: u in cell <==> u in cell0 && 0 <= u < |uv| && !(uv0[u].Open? && uv0[u].dead)
    ensures forall u :: u in cell ==> cell[u] == cell0[u]
    ensures forall u :: 0 <= u < |uv| && uv[u].Open? ==> !uv[u].dead
  {
    hide RingOk, ChainOk;
  }

  /** No closure writes to a variable during a run. */
  ghost predicate NotWritten<V>(m: Model<V>, ops: seq<Op<V>>, cell: int)
    requires ModelOk(m) && AllAllowed(m, ops)
    decreases |ops|
  {
    ops == [] || (!(ops[0].WriteVar? && m.handles[ops[0].h] == cell) && NotWritten(Step(m, ops[0]), ops[1..], cell))
  }

  /** A captured variable outlives its scope: leaving the scope keeps its value, and then,
      whatever is captured, assigned, left, closed or swept, only a closure that captured it
      can change it. */
  lemma OutlivesScope<V>(m: Model<V>, level: int, h: int, ops: seq<Op<V>>)
    requires ModelOk(m) && Allowed(m, Leave(level)) && 0 <= h < |m.handles|
    requires forall s :: 0 <= s < level ==> m.cells.cellOf[s] != m.handles[h]
    requires AllAllowed(Step(m, Leave(level)), ops) && NotWritten(Step(m, Leave(level)), ops, m.handles[h])
    ensures var r := Steps(Step(m, Leave(level)), ops);
            && |m.handles| <= |r.handles| && r.handles[h] == m.handles[h] && 0 <= m.handles[h] < |r.cells.store|
            && r.cells.store[m.handles[h]] == m.cells.store[m.handles[h]]
  {
    Untouched(Step(m, Leave(level)), m.handles[h], h, ops);
  }

  lemma {:induction false} Untouched<V>(m: Model<V>, cell: int, h: int, ops: seq<Op<V>>)
    requires ModelOk(m) && AllAllowed(m, ops) && NotWritten(m, ops, cell)
    requires 0 <= h < |m.handles| && m.handles[h] == cell && cell !in m.cells.cellOf
    ensures var r := Steps(m, ops);
            && |m.handles| <= |r.handles| && r.handles[h] == cell && 0 <= cell < |m.cells.store| <= |r.cells.store|
            && r.cells.store[cell] == m.cells.store[cell]
    decreases |ops|
  {
    if ops != [] {
      StepUntouched(m, cell, h, ops[0]);
      Untouched(Step(m, ops[0]), cell, h, ops[1..]);
    }
  }

  lemma StepUntouched<V>(m: Model<V>, cell: int, h: int, op: Op<V>)
    requires ModelOk(m) && Allowed(m, op) && !(op.WriteVar? && m.handles[op.h] == cell)
    requires 0 <= h < |m.handles| && m.handles[h] == cell && cell !in m.cells.cellOf
    ensures var r := Step(m, op);
            && |m.handles| <= |r.handles| && r.handles[h] == cell && cell !in r.cells.cellOf
            && 0 <= cell < |m.cells.store| <= |r.cells.store| && r.cells.store[cell] == m.cells.store[cell]
  {
  }

  lemma RenewedKeeps<V>(c: Cells<V>, stack: seq<V>, level: int)
    requires 0 <= level <= |stack| && level <= |c.cellOf|
    ensures Renewed(c, stack, level).store[..|c.store|] == c.store
  {
  }

  lemma HeldInRange<V>(uv: seq<UpVal<V>>, cell: map<int, int>, stack: seq<V>, c: Cells<V>)
    requires StackIs(stack, c) && VarsAre(uv, cell, |stack|, c)
    ensures |c.cellOf| == |stack| && forall u :: u in cell ==> 0 <= cell[u] < |c.store|
    ensures (forall s :: 0 <= s < |c.cellOf| ==> 0 <= c.cellOf[s] < |c.store|) && SlotValues(c) == stack
  {
  }

  /** The slots from a level on become new variables, with the values that are there. */
  ghost function Renewed<V>(c: Cells<V>, stack: seq<V>, level: int): (r: Cells<V>)
    requires 0 <= level <= |stack| && level <= |c.cellOf|
  {
    Cells(c.cellOf[..level] + seq(|stack| - level, i => |c.store| + i), c.store + stack[level..])
  }

  lemma RenewedIs<V>(stack: seq<V>, c: Cells<V>, level: int)
    requires StackIs(stack, c) && 0 <= level <= |stack|
    ensures |c.cellOf| == |stack| && StackIs(stack, Renewed(c, stack, level))
  {
    var r := Renewed(c, stack, level);
    forall s | 0 <= s < |stack| ensures 0 <= r.cellOf[s] < |r.store| && r.store[r.cellOf[s]] == stack[s] {
      if s >= level { assert r.cellOf[s] == |c.store| + (s - level)
                     && r.store[r.cellOf[s]] == stack[level..][s - level]; }
    }
  }

  /** What closing from a level does to an upvalue. */
  ghost predicate ClosedFrom<V>(a: UpVal<V>, b: UpVal<V>, level: int) {
    if a.Open? && a.v >= level then (if a.dead then b.Freed? else b.Closed? && !b.dead)
    else SameStatus(a, b)
  }

  /** The variables while slots from a level on are closed: those still open from the
      level on are the cells their slots had. */
  ghost predicate VarsPart<V>(uv: seq<UpVal<V>>, cell: map<int, int>, size: int, c: Cells<V>, d: Cells<V>, level: int) {
    && |c.cellOf| == |d.cellOf| == size && 0 <= level
    && (forall u :: 0 <= u < |uv| && uv[u].Open? ==>
          u in cell && 0 <= uv[u].v < size && cell[u] == if uv[u].v < level then d.cellOf[uv[u].v]
          else c.cellOf[uv[u].v])
    && (forall u :: 0 <= u < |uv| && uv[u].Closed? ==>
          u in cell && 0 <= cell[u] < |d.store| && d.store[cell[u]] == uv[u].value && cell[u] !in d.cellOf)
    && (forall u :: u in cell ==> 0 <= u < |uv| && (uv[u].Open? || uv[u].Closed?))
    && (forall u, w :: u in cell && w in cell && u != w ==> cell[u] != cell[w])
    && (forall s :: level <= s < size ==> 0 <= c.cellOf[s] < |c.store| && c.cellOf[s] !in d.cellOf)
    && |c.store| <= |d.store| && d.store[..|c.store|] == c.store
  }

  lemma StartClosing<V>(uv: seq<UpVal<V>>, cell: map<int, int>, size: int, c: Cells<V>, stack: seq<V>, level: int)
    requires StackIs(stack, c) && VarsAre(uv, cell, size, c) && size == |stack| && 0 <= level <= size
    ensures VarsPart(uv, cell, size, c, Renewed(c, stack, level), level)
  {
    var d := Renewed(c, stack, level);
    forall u | 0 <= u < |uv| && uv[u].Closed? ensures cell[u] !in d.cellOf { }
    forall s | level <= s < size ensures c.cellOf[s] !in d.cellOf { }
  }

  lemma EndClosing<V>(uv: seq<UpVal<V>>, first: int, chain: seq<int>, ring: seq<int>, cell: map<int, int>, size: int,
      c: Cells<V>, d: Cells<V>, level: int)
    requires Shape(uv, first, chain, ring) && VarsPart(uv, cell, size, c, d, level)
    requires first != NULL ==> 0 <= first < |uv| && uv[first].Open? && uv[first].v < level
    ensures VarsAre(uv, cell, size, d)
    ensures forall u :: 0 <= u < |uv| && uv[u].Open? ==> uv[u].v < level
  {
    forall u | 0 <= u < |uv| && uv[u].Open? ensures uv[u].v < level {
      assert u in chain;
      var i :| 0 <= i < |chain| && chain[i] == u;
      if i > 0 { assert uv[chain[0]].v > uv[chain[i]].v; }
    }
  }

  lemma FirstLinks<V>(uv: seq<UpVal<V>>, first: int, chain: seq<int>, ring: seq<int>) returns (k: int)
    requires Shape(uv, first, chain, ring) && first != NULL
    ensures |chain| > 0 && first == chain[0] && 0 <= first < |uv| && uv[first].Open? && 0 <= k < |ring|
            && ring[k] == first
    ensures 0 <= uv[first].next < |uv| && 0 <= uv[first].prev < |uv| && Linked(uv[uv[first].next])
            && Linked(uv[uv[first].prev])
  {
    assert first in ring;
    k :| 0 <= k < |ring| && ring[k] == first;
    UnlinkOk(uv, ring, k);
  }

  lemma FirstOf<V>(uv: seq<UpVal<V>>, first: int, chain: seq<int>, ring: seq<int>)
    requires Shape(uv, first, chain, ring)
    ensures first != NULL ==> 0 <= first < |uv| && uv[first].Open?
  {
  }

  /** The value of the variable that is closed. */
  lemma ValueOf<V>(uv: seq<UpVal<V>>, cell: map<int, int>, stack: seq<V>, c: Cells<V>, d: Cells<V>, level: int, u: int)
    requires StackIs(stack, c) && VarsPart(uv, cell, |stack|, c, d, level) && 0 <= u < |uv| && uv[u].Open?
    ensures 0 <= uv[u].v < |stack| == |c.cellOf| && 0 <= c.cellOf[uv[u].v] < |c.store|
            && c.store[c.cellOf[uv[u].v]] == stack[uv[u].v] && u in cell
  {
  }

  /** The first upvalue unlinked and no longer open. */
  lemma OneClosed<V>(uv: seq<UpVal<V>>, u: int, chain: seq<int>, ring: seq<int>, k: int, r: seq<UpVal<V>>)
    requires Shape(uv, u, chain, ring) && |chain| > 0 && chain[0] == u && 0 <= k < |ring| && ring[k] == u
    requires 0 <= u < |uv| && uv[u].Open? && 0 <= uv[u].next < |uv| && 0 <= uv[u].prev < |uv| && Linked(uv[uv[u].next])
             && Linked(uv[uv[u].prev])
    requires |r| == |uv| && (r[u].Closed? || r[u].Freed?) && r == Unlink(uv, u)[u := r[u]]
    ensures Shape(r, uv[u].chain, chain[1..], ring[..k] + ring[k + 1..])
    ensures forall w :: 0 <= w < |uv| && w != u ==> SameVar(uv[w], r[w])
  {
    hide RingOk, ChainOk, AllListed, Unlink;
    RingClosed(uv, u, ring, k, r);
    ChainTail(uv, r, u, chain);
    RestListed(uv, u, chain, ring, ring[..k] + ring[k + 1..], r);
  }

  lemma RingClosed<V>(uv: seq<UpVal<V>>, u: int, ring: seq<int>, k: int, r: seq<UpVal<V>>)
    requires RingOk(uv, ring) && 0 <= k < |ring| && ring[k] == u
    requires 0 <= u < |uv| && uv[u].Open? && 0 <= uv[u].next < |uv| && 0 <= uv[u].prev < |uv| && Linked(uv[uv[u].next])
             && Linked(uv[uv[u].prev])
    requires |r| == |uv| && r == Unlink(uv, u)[u := r[u]]
    ensures var rest := ring[..k] + ring[k + 1..]; RingOk(r, rest) && forall w :: w in rest <==> w in ring && w != u
    ensures forall w :: 0 <= w < |uv| && w != u ==> SameVar(uv[w], r[w])
  {
    hide Unlink;
    var a, rest := Unlink(uv, u), ring[..k] + ring[k + 1..];
    UnlinkOk(uv, ring, k);
    forall w | 0 <= w < |uv| && w != u ensures SameVar(uv[w], r[w]) { UnlinkElsewhere(uv, u, w); }
    RestOfRing(ring, k);
    RingWithout(a, r, rest, u);
  }

  lemma RestListed<V>(uv: seq<UpVal<V>>, u: int, chain: seq<int>, ring: seq<int>, rest: seq<int>, r: seq<UpVal<V>>)
    requires AllListed(uv, chain, ring) && |r| == |uv| && |chain| > 0 && chain[0] == u && u !in chain[1..]
             && 0 <= u < |r| && !r[u].Open?
    requires forall w :: w in rest <==> w in ring && w != u
    requires forall w :: 0 <= w < |uv| && w != u ==> SameVar(uv[w], r[w])
    ensures AllListed(r, chain[1..], rest)
  {
    assert chain == [u] + chain[1..];
  }

  lemma ChainTail<V>(uv: seq<UpVal<V>>, r: seq<UpVal<V>>, u: int, chain: seq<int>)
    requires ChainOk(uv, u, chain) && |chain| > 0 && |r| == |uv|
    requires forall w :: 0 <= w < |uv| && w != u ==> SameVar(uv[w], r[w])
    ensures ChainOk(r, uv[u].chain, chain[1..]) && u !in chain[1..]
  {
    var c := chain[1..];
    forall i | 0 <= i < |c| ensures c[i] == chain[i + 1] && uv[c[i]].v < uv[u].v && SameVar(uv[c[i]], r[c[i]]) {
      assert uv[chain[0]].v > uv[chain[i + 1]].v;
    }
    assert uv[u].chain == if |chain| > 1 then chain[1] else NULL;
  }

  lemma RestOfRing(ring: seq<int>, k: int)
    requires NoDuplicates(ring) && 0 <= k < |ring|
    ensures var rest := ring[..k] + ring[k + 1..]; NoDuplicates(rest) && ring[k] !in rest && forall w ::
                                                     w in rest <==> w in ring && w != ring[k]
  {
    assert ring == ring[..k] + [ring[k]] + ring[k + 1..];
  }

  lemma RingWithout<V>(a: seq<UpVal<V>>, r: seq<UpVal<V>>, ring: seq<int>, u: int)
    requires RingOk(a, ring) && 0 < u < |a| && |r| == |a| && r == a[u := r[u]] && u !in ring
    ensures RingOk(r, ring)
  {
    assert forall i :: At(ring, i) != u;
  }

  lemma OneClosedVars<V>(uv: seq<UpVal<V>>, u: int, cell: map<int, int>, size: int, c: Cells<V>, d: Cells<V>,
      level: int, r: seq<UpVal<V>>, cell': map<int, int>)
    requires VarsPart(uv, cell, size, c, d, level) && 0 <= u < |uv| && uv[u].Open? && uv[u].v >= level && |r| == |uv|
    requires forall w :: 0 <= w < |uv| && w != u ==> SameVar(uv[w], r[w])
    requires if r[u].Freed? then cell' == cell - {u}
             else r[u].Closed? && cell' == cell && 0 <= uv[u].v < size && 0 <= c.cellOf[uv[u].v] < |c.store|
                  && r[u].value == c.store[c.cellOf[uv[u].v]]
    ensures VarsPart(r, cell', size, c, d, level)
  {
  }

  /** The upvalues closed so far, from the first on. */
  ghost predicate ClosedSoFar<V>(uv0: seq<UpVal<V>>, cell0: map<int, int>, uv: seq<UpVal<V>>, cell: map<int, int>,
      level: int) {
    && |uv| == |uv0|
    && (forall u :: u in cell0 ==> 0 <= u < |uv0| && (uv0[u].Open? || uv0[u].Closed?))
    && (forall u :: u in cell ==> u in cell0 && cell[u] == cell0[u])
    && (forall u :: u in cell0 && 0 <= u < |uv| ==> (u in cell <==> !uv[u].Freed?))
    && (forall u :: u in cell0 && 0 <= u < |uv| ==>
                      SameStatus(uv0[u], uv[u]) || (uv0[u].Open? && uv0[u].v >= level
                                                    && ClosedFrom(uv0[u], uv[u], level)))
  }

  lemma StartClosed<V>(uv: seq<UpVal<V>>, cell: map<int, int>, size: int, c: Cells<V>, level: int)
    requires VarsAre(uv, cell, size, c)
    ensures ClosedSoFar(uv, cell, uv, cell, level)
  {
  }

  lemma OneMoreClosed<V>(uv0: seq<UpVal<V>>, cell0: map<int, int>, was: seq<UpVal<V>>, before: map<int, int>, u: int,
                         uv: seq<UpVal<V>>, cell: map<int, int>, level: int)
    requires ClosedSoFar(uv0, cell0, was, before, level) && 0 <= u < |was| == |uv| && was[u].Open? && was[u].v >= level
             && u in before
    requires forall w :: 0 <= w < |was| && w != u ==> SameVar(was[w], uv[w])
    requires if was[u].dead then uv[u].Freed? && cell == before - {u}
             else uv[u].Closed? && !uv[u].dead && cell == before
    ensures ClosedSoFar(uv0, cell0, uv, cell, level)
  {
  }

  lemma AllClosed<V>(uv0: seq<UpVal<V>>, cell0: map<int, int>, uv: seq<UpVal<V>>, cell: map<int, int>, level: int)
    requires ClosedSoFar(uv0, cell0, uv, cell, level)
    requires forall u :: 0 <= u < |uv| && uv[u].Open? ==> uv[u].v < level
    ensures forall u :: u in cell0 && 0 <= u < |uv| ==>
                          ClosedFrom(uv0[u], uv[u], level) && (u in cell <==> !uv[u].Freed?)
    ensures forall u :: u in cell ==> u in cell0 && cell[u] == cell0[u]
  {
  }

  lemma SlotWritten<V>(uv: seq<UpVal<V>>, cell: map<int, int>, stack: seq<V>, c: Cells<V>, i: int, x: V)
    requires StackIs(stack, c) && VarsAre(uv, cell, |stack|, c) && 0 <= i < |stack|
    ensures 0 <= i < |c.cellOf| && 0 <= c.cellOf[i] < |c.store|
    ensures var c' := c.(store := c.store[c.cellOf[i] := x]);
            StackIs(stack[i := x], c') && VarsAre(uv, cell, |stack|, c')
  {
  }

  lemma ChainOf<V>(uv: seq<UpVal<V>>, first: int, chain: seq<int>, ring: seq<int>)
    requires Shape(uv, first, chain, ring)
    ensures first == (if chain == [] then NULL else chain[0])
    ensures forall i :: 0 <= i < |chain| ==> 0 < chain[i] < |uv| && uv[chain[i]].Open?
                                             && uv[chain[i]].chain == if i + 1 < |chain| then chain[i + 1] else NULL
    ensures forall i, j :: 0 <= i < j < |chain| ==> uv[chain[i]].v > uv[chain[j]].v
  {
  }

  function Marked<V>(uv: seq<UpVal<V>>, p: int, dead: bool): seq<UpVal<V>>
    requires 0 <= p < |uv| && uv[p].Open?
  {
    uv[p := Open(uv[p].v, uv[p].chain, uv[p].prev, uv[p].next, dead)]
  }

  lemma Revived<V>(uv: seq<UpVal<V>>, first: int, chain: seq<int>, ring: seq<int>, cell: map<int, int>, size: int,
      c: Cells<V>, p: int, dead: bool)
    requires Shape(uv, first, chain, ring) && VarsAre(uv, cell, size, c) && 0 <= p < |uv| && uv[p].Open?
    ensures var r := Marked(uv, p, dead);
            Shape(r, first, chain, ring) && VarsAre(r, cell, size, c)
  {
    RingKept(uv, Marked(uv, p, dead), ring);
    hide RingOk;
  }

  /** The ring does not depend on anything but the links. */
  lemma RingKept<V>(uv: seq<UpVal<V>>, r: seq<UpVal<V>>, ring: seq<int>)
    requires RingOk(uv, ring) && |r| >= |uv|
    requires forall w :: 0 <= w < |uv| && Linked(uv[w]) ==>
               (uv[w].Open? <==> r[w].Open?) && Linked(r[w]) && r[w].next == uv[w].next && r[w].prev == uv[w].prev
    ensures RingOk(r, ring)
  {
    forall i | 0 <= i <= |ring| + 1 ensures 0 <= At(ring, i) < |uv| && Linked(uv[At(ring, i)]) {}
  }

  lemma OnlyVar<V>(uv: seq<UpVal<V>>, cell: map<int, int>, size: int, c: Cells<V>, p: int)
    requires VarsAre(uv, cell, size, c) && 0 <= p < |uv| && uv[p].Open?
    ensures p in cell && 0 <= uv[p].v < |c.cellOf| && cell[p] == c.cellOf[uv[p].v]
    ensures forall w :: w in cell && cell[w] == cell[p] ==> w == p
    ensures forall w :: w in cell ==> 0 <= w < |uv|
  {
  }

  /** No upvalue is the variable of a slot that no open upvalue is for. */
  lemma NoVar<V>(uv: seq<UpVal<V>>, first: int, chain: seq<int>, ring: seq<int>, cell: map<int, int>, stack: seq<V>,
      c: Cells<V>, level: int, k: int)
    requires Shape(uv, first, chain, ring) && StackIs(stack, c) && VarsAre(uv, cell, |stack|, c) && 0 <= level < |stack|
             && 0 <= k <= |chain|
    requires forall i :: 0 <= i < k ==> uv[chain[i]].v > level
    requires k < |chain| ==> uv[chain[k]].v < level
    ensures forall w :: w in cell ==> 0 <= w < |uv| && cell[w] != c.cellOf[level]
  {
    forall w | w in cell ensures 0 <= w < |uv| && cell[w] != c.cellOf[level] {
      if uv[w].Open? {
        assert w in chain;
        var i :| 0 <= i < |chain| && chain[i] == w;
        assert uv[w].v != level;
      }
    }
  }

  ghost function WithNew<V>(uv: seq<UpVal<V>>, chain: seq<int>, level: int, k: int): seq<UpVal<V>>
    requires 0 <= k <= |chain| && (k > 0 ==> 0 <= chain[k - 1] < |uv| && uv[chain[k - 1]].Open?)
  {
    var a := uv + [Open(level, if k < |chain| then chain[k] else NULL, HEAD, HEAD, false)];
    if k == 0 then a else SetChain(a, chain[k - 1], |uv|)
  }

  lemma NewChained<V>(uv: seq<UpVal<V>>, first: int, chain: seq<int>, ring: seq<int>, level: int, k: int)
    requires Shape(uv, first, chain, ring) && 0 <= k <= |chain|
    requires forall i :: 0 <= i < k ==> uv[chain[i]].v > level
    requires k < |chain| ==> uv[chain[k]].v < level
    ensures k > 0 ==> 0 <= chain[k - 1] < |uv| && uv[chain[k - 1]].Open?
    ensures var r := WithNew(uv, chain, level, k);
            && |r| == |uv| + 1 && r[|uv|].Open? && r[|uv|].v == level && !r[|uv|].dead
            && RingOk(r, ring) && ChainOk(r, if k == 0 then |uv| else first, chain[..k] + [|uv|] + chain[k..])
            && forall w :: 0 <= w < |uv| ==> SameStatus(uv[w], r[w]) && (uv[w].Open? <==> r[w].Open?)
                                             && (!uv[w].Open? ==> r[w] == uv[w])
  {
    hide RingOk, AllListed, ChainOk;
    Below(uv, first, chain, level, k);
    var r := WithNew(uv, chain, level, k);
    WithNewIs(uv, chain, level, k);
    NotListed(uv, chain, ring);
    hide WithNew;
    RingKept(uv, r, ring);
    ChainInsert(uv, r, first, chain, k, |uv|);
  }

  /** The new upvalue is the only difference, but for the one it is chained after. */
  lemma WithNewIs<V>(uv: seq<UpVal<V>>, chain: seq<int>, level: int, k: int)
    requires 0 <= k <= |chain| && (k > 0 ==> 0 <= chain[k - 1] < |uv| && uv[chain[k - 1]].Open?)
    ensures var r := WithNew(uv, chain, level, k);
            && |r| == |uv| + 1
            && r[|uv|] == Open(level, if k < |chain| then chain[k] else NULL, HEAD, HEAD, false)
            && forall w :: 0 <= w < |uv| ==>
                 r[w] == if k > 0 && w == chain[k - 1] then Open(uv[w].v, |uv|, uv[w].prev, uv[w].next, uv[w].dead)
                         else uv[w]
  {
  }

  lemma Below<V>(uv: seq<UpVal<V>>, first: int, chain: seq<int>, level: int, k: int)
    requires ChainOk(uv, first, chain) && 0 <= k <= |chain|
    requires k < |chain| ==> uv[chain[k]].v < level
    ensures forall i :: 0 <= i < |chain| ==> 0 < chain[i] < |uv| && uv[chain[i]].Open?
                                             && (k > 0 && i != k - 1 ==> chain[i] != chain[k - 1])
    ensures forall i :: k <= i < |chain| ==> level > uv[chain[i]].v
  {
    forall i | k <= i < |chain| ensures level > uv[chain[i]].v {
      if i > k { assert uv[chain[k]].v > uv[chain[i]].v; }
    }
    forall i | 0 <= i < |chain| && k > 0 && i != k - 1 ensures chain[i] != chain[k - 1] {
      assert uv[chain[i]].v != uv[chain[k - 1]].v;
    }
  }

  lemma Created<V>(uv: seq<UpVal<V>>, first: int, chain: seq<int>, ring: seq<int>, cell: map<int, int>, stack: seq<V>,
      c: Cells<V>, level: int, k: int)
    requires Shape(uv, first, chain, ring) && StackIs(stack, c) && VarsAre(uv, cell, |stack|, c) && 0 <= level < |stack|
             && 0 <= k <= |chain|
    requires forall i :: 0 <= i < k ==> uv[chain[i]].v > level
    requires k < |chain| ==> uv[chain[k]].v < level
    ensures k > 0 ==> 0 <= chain[k - 1] < |uv| && uv[chain[k - 1]].Open?
    ensures var u, a := |uv|, WithNew(uv, chain, level, k);
            && 0 < u < |a| && a[HEAD].Head? && a[u].Open? && 0 <= a[HEAD].next < |a| && Linked(a[a[HEAD].next])
            && |c.cellOf| == |stack|
            && var r := LinkFirst(a, u);
            && Shape(r, if k == 0 then u else first, chain[..k] + [u] + chain[k..], [u] + ring)
            && VarsAre(r, cell[u := c.cellOf[level]], |stack|, c)
            && |r| == |uv| + 1 && r[u].Open? && r[u].v == level && !r[u].dead
            && forall w :: 0 <= w < |uv| ==> SameStatus(uv[w], r[w])
  {
    var u, a := |uv|, WithNew(uv, chain, level, k);
    hide StackIs, VarsAre, WithNew, RingOk, ChainOk, AllListed, LinkFirst;
    NewChained(uv, first, chain, ring, level, k);
    ShapeParts(uv, first, chain, ring);
    NotListed(uv, chain, ring);
    NewLinked(uv, a, if k == 0 then u else first, chain, ring, k);
    NoVar(uv, first, chain, ring, cell, stack, c, level, k);
    NewVar(uv, LinkFirst(a, u), cell, stack, c, level);
    StackSize(stack, c);
  }

  lemma StackSize<V>(stack: seq<V>, c: Cells<V>)
    requires StackIs(stack, c)
    ensures |c.cellOf| == |stack|
  {
  }

  lemma ShapeParts<V>(uv: seq<UpVal<V>>, first: int, chain: seq<int>, ring: seq<int>)
    requires Shape(uv, first, chain, ring)
    ensures RingOk(uv, ring) && AllListed(uv, chain, ring) && forall i :: 0 <= i < |chain| ==> 0 < chain[i] < |uv|
  {
  }

  /** Linking the new upvalue, already chained, into the ring. */
  lemma NewLinked<V>(uv: seq<UpVal<V>>, a: seq<UpVal<V>>, first: int, chain: seq<int>, ring: seq<int>, k: int)
    requires 0 <= k <= |chain| && |uv| > 0 && |a| == |uv| + 1 && a[|uv|].Open?
    requires RingOk(a, ring) && ChainOk(a, first, chain[..k] + [|uv|] + chain[k..])
    requires AllListed(uv, chain, ring) && |uv| !in chain && |uv| !in ring
    requires forall w :: 0 <= w < |uv| ==> SameStatus(uv[w], a[w]) && (uv[w].Open? <==> a[w].Open?)
                                           && (!uv[w].Open? ==> a[w] == uv[w])
    ensures a[HEAD].Head? && 0 <= a[HEAD].next < |a| && Linked(a[a[HEAD].next])
    ensures var r := LinkFirst(a, |uv|);
            && Shape(r, first, chain[..k] + [|uv|] + chain[k..], [|uv|] + ring) && |r| == |a|
            && r[|uv|].Open? && r[|uv|].v == a[|uv|].v && r[|uv|].dead == a[|uv|].dead
            && forall w :: 0 <= w < |uv| ==>
                 SameStatus(uv[w], r[w]) && (uv[w].Open? <==> r[w].Open?) && (uv[w].Closed? ==> r[w] == uv[w])
                 && (r[w].Closed? ==> uv[w].Closed?)
  {
    var u, chain1 := |uv|, chain[..k] + [|uv|] + chain[k..];
    HeadOk(a, ring);
    LinkFirstOk(a, u, ring);
    var r := LinkFirst(a, u);
    hide LinkFirst, RingOk;
    forall w | 0 <= w < |a| ensures SameVar(a[w], r[w]) { LinksElsewhere(a, u, w); }
    KeepsChain(a, r, first, chain1);
    hide ChainOk;
    forall w | 0 <= w < |r| ensures (r[w].Open? <==> w in chain1) && (r[w].Open? <==> w in [u] + ring) {
      SplitIn(chain, k, u, w);
      assert w < |uv| ==> (r[w].Open? <==> uv[w].Open?);
    }
  }

  lemma HeadOk<V>(uv: seq<UpVal<V>>, ring: seq<int>)
    requires RingOk(uv, ring)
    ensures |uv| > 0 && uv[HEAD].Head?
  {
  }

  lemma SplitIn(s: seq<int>, k: int, u: int, w: int)
    requires 0 <= k <= |s|
    ensures w in s[..k] + [u] + s[k..] <==> w in s || w == u
  {
    assert s == s[..k] + s[k..];
  }

  lemma NotListed<V>(uv: seq<UpVal<V>>, chain: seq<int>, ring: seq<int>)
    requires AllListed(uv, chain, ring) && RingOk(uv, ring) && forall i :: 0 <= i < |chain| ==> 0 < chain[i] < |uv|
    ensures |uv| !in chain && |uv| !in ring && |uv| > 0
  {
  }

  lemma KeepsChain<V>(a: seq<UpVal<V>>, r: seq<UpVal<V>>, first: int, chain: seq<int>)
    requires ChainOk(a, first, chain) && |r| == |a| && forall w :: 0 <= w < |a| ==> SameVar(a[w], r[w])
    ensures ChainOk(r, first, chain)
  {
  }

  lemma NewVar<V>(uv: seq<UpVal<V>>, r: seq<UpVal<V>>, cell: map<int, int>, stack: seq<V>, c: Cells<V>, level: int)
    requires StackIs(stack, c) && VarsAre(uv, cell, |stack|, c) && 0 <= level < |stack| && |r| == |uv| + 1
    requires r[|uv|].Open? && r[|uv|].v == level
    requires forall w :: 0 <= w < |uv| ==> SameStatus(uv[w], r[w]) && (uv[w].Open? <==> r[w].Open?)
                                           && (uv[w].Closed? ==> r[w] == uv[w]) && (r[w].Closed? ==> uv[w].Closed?)
    requires forall w :: w in cell ==> cell[w] != c.cellOf[level]
    ensures VarsAre(r, cell[|uv| := c.cellOf[level]], |stack|, c)
  {
  }

  lemma VarExists<V>(uv: seq<UpVal<V>>, cell: map<int, int>, stack: seq<V>, c: Cells<V>, u: int)
    requires StackIs(stack, c) && VarsAre(uv, cell, |stack|, c) && u in cell
    ensures 0 <= u < |uv| && (uv[u].Open? || uv[u].Closed?) && (uv[u].Open? ==> 0 <= uv[u].v < |stack|)
    ensures 0 <= cell[u] < |c.store|
  {
  }

  lemma OpenWritten<V>(uv: seq<UpVal<V>>, cell: map<int, int>, stack: seq<V>, c: Cells<V>, u: int, x: V)
    requires StackIs(stack, c) && VarsAre(uv, cell, |stack|, c) && u in cell && 0 <= u < |uv| && uv[u].Open?
             && 0 <= uv[u].v < |stack|
    ensures 0 <= cell[u] < |c.store|
    ensures var c' := c.(store := c.store[cell[u] := x]);
            StackIs(stack[uv[u].v := x], c') && VarsAre(uv, cell, |stack|, c')
  {
  }

  lemma ClosedWritten<V>(uv: seq<UpVal<V>>, first: int, chain: seq<int>, ring: seq<int>, cell: map<int, int>,
      stack: seq<V>, c: Cells<V>, u: int, x: V)
    requires Shape(uv, first, chain, ring) && StackIs(stack, c) && VarsAre(uv, cell, |stack|, c)
    requires u in cell && 0 <= u < |uv| && uv[u].Closed? && 0 <= cell[u] < |c.store|
    ensures var c', r := c.(store := c.store[cell[u] := x]), uv[u := Closed(x, uv[u].dead)];
            Shape(r, first, chain, ring) && StackIs(stack, c') && VarsAre(r, cell, |stack|, c')
  {
    ClosedWrite(uv, u, x, first, chain, ring);
    hide RingOk, ChainOk, AllListed;
  }

  /** The same variable: open at the same slot or closed, and as dead. */
  predicate SameStatus<V>(a: UpVal<V>, b: UpVal<V>) {
    if a.Open? then b.Open? && b.v == a.v && b.dead == a.dead
    else if a.Closed? then b.Closed? && b.dead == a.dead
    else true
  }

  lemma ClosedWrite<V>(uv: seq<UpVal<V>>, u: int, x: V, first: int, chain: seq<int>, ring: seq<int>)
    requires RingOk(uv, ring) && ChainOk(uv, first, chain) && AllListed(uv, chain, ring) && 0 <= u < |uv|
             && uv[u].Closed?
    ensures var r := uv[u := Closed(x, uv[u].dead)];
            RingOk(r, ring) && ChainOk(r, first, chain) && AllListed(r, chain, ring)
  {
    RingKept(uv, uv[u := Closed(x, uv[u].dead)], ring);
    hide RingOk;
  }
}
