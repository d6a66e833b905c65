/** Interning: the table in which every string is found, and its sweeping. Pointers to
    strings are indices into an arena. */
module StringTable {
  import opened Common

  const NULL: int := -1
  const MINSTRTABSIZE: nat := 32

  /** A string; `dead` ones were not marked and are not swept yet. */
  datatype TString = TString(text: string, hash: nat, next: int, dead: bool) | Freed

  // ------------------------------------------------------------- the buckets

  /** The links from a head are exactly a chain of strings. */
  ghost predicate Chained(strs: seq<TString>, head: int, chain: seq<int>) {
    && head == (if chain == [] then NULL else chain[0])
    && (forall i :: 0 <= i < |chain| ==> 0 <= chain[i] < |strs| && strs[chain[i]].TString?)
    && (forall i, j :: 0 <= i && j == i + 1 && j < |chain| ==> strs[chain[i]].next == chain[j])
    && (chain != [] ==> strs[chain[|chain| - 1]].next == NULL)
    && NoDuplicates(chain)
  }

  /** Every string of a chain is in the bucket of its hash. */
  ghost predicate InBucket(strs: seq<TString>, chain: seq<int>, b: int, size: nat)
    requires size > 0
  {
    forall i :: 0 <= i < |chain| ==> 0 <= chain[i] < |strs| && strs[chain[i]].TString?
                                     && strs[chain[i]].hash % size == b
  }

  ghost predicate Buckets(strs: seq<TString>, heads: seq<int>, chains: seq<seq<int>>) {
    && |heads| == |chains| > 0
    && forall b :: 0 <= b < |heads| ==> Chained(strs, heads[b], chains[b]) && InBucket(strs, chains[b], b, |heads|)
  }

  /** Every string is in a chain. */
  ghost predicate AllIn(strs: seq<TString>, chains: seq<seq<int>>)
    requires |chains| > 0
  {
    forall u :: 0 <= u < |strs| && strs[u].TString? ==> u in chains[strs[u].hash % |chains|]
  }

  /** No two strings have equal text. */
  ghost predicate Canonical(strs: seq<TString>, hashOf: string -> nat) {
    && (forall u :: 0 <= u < |strs| && strs[u].TString? ==> strs[u].hash == hashOf(strs[u].text))
    && (forall u, w :: 0 <= u < w < |strs| && strs[u].TString? && strs[w].TString? ==> strs[u].text != strs[w].text)
  }

  /** The number of strings in all chains. */
  ghost function Total(chains: seq<seq<int>>): nat {
    if chains == [] then 0 else |chains[0]| + Total(chains[1..])
  }

  lemma {:induction false} TotalWith(chains: seq<seq<int>>, b: nat, chain: seq<int>)
    requires b < |chains|
    ensures Total(chains[b := chain]) == Total(chains) - |chains[b]| + |chain|
  {
    if b == 0 {
      assert chains[0 := chain][1..] == chains[1..];
    } else {
      TotalWith(chains[1..], b - 1, chain);
      assert chains[b := chain][1..] == chains[1..][b - 1 := chain];
    }
  }

  lemma {:induction false} TotalEmpty(n: nat)
    ensures Total(seq(n, i => [])) == 0
  {
    if n > 0 {
      TotalEmpty(n - 1);
      assert seq<seq<int>>(n, i => [])[1..] == seq<seq<int>>(n - 1, i => []);
    }
  }

  /** Chains only depend on the links of their members. */
  lemma SameChain(strs: seq<TString>, strs': seq<TString>, head: int, chain: seq<int>, b: int, size: nat)
    requires size > 0 && Chained(strs, head, chain) && InBucket(strs, chain, b, size) && |strs'| >= |strs|
    requires forall u :: u in chain && 0 <= u < |strs| ==> SameLink(strs[u], strs'[u])
    ensures Chained(strs', head, chain) && InBucket(strs', chain, b, size)
  {
    forall i | 0 <= i < |chain| ensures SameLink(strs[chain[i]], strs'[chain[i]]) { assert chain[i] in chain; }
  }

  predicate SameLink(a: TString, b: TString) {
    a.TString? ==> b.TString? && b.hash == a.hash && b.next == a.next
  }

  // ------------------------------------------------------------ one creation

  /** A string that is in none of the places of its chain does not exist. */
  lemma NotThere(strs: seq<TString>, heads: seq<int>, chains: seq<seq<int>>, hashOf: string -> nat, text: string)
    requires Buckets(strs, heads, chains) && AllIn(strs, chains) && Canonical(strs, hashOf)
    requires var chain := chains[hashOf(text) % |chains|];
             forall i :: 0 <= i < |chain| ==> 0 <= chain[i] < |strs| && strs[chain[i]].TString?
                                              && strs[chain[i]].text != text
    ensures forall u :: 0 <= u < |strs| && strs[u].TString? ==> strs[u].text != text
  {
    forall u | 0 <= u < |strs| && strs[u].TString? ensures strs[u].text != text {
      var chain := chains[hashOf(text) % |chains|];
      if strs[u].hash % |chains| == hashOf(text) % |chains| {
        assert u in chain;
        var i :| 0 <= i < |chain| && chain[i] == u;
      }
    }
  }

  /** A new string at the front of its chain. */
  lemma Created(strs: seq<TString>, heads: seq<int>, chains: seq<seq<int>>, hashOf: string -> nat, text: string)
    requires Buckets(strs, heads, chains) && AllIn(strs, chains) && Canonical(strs, hashOf)
    requires forall u :: 0 <= u < |strs| && strs[u].TString? ==> strs[u].text != text
    ensures var b, u := hashOf(text) % |heads|, |strs|;
            var strs', heads', chains' := strs + [TString(text, hashOf(text), heads[b], false)], heads[b := u],
              chains[b := [u] + chains[b]];
            && Buckets(strs', heads', chains') && AllIn(strs', chains') && Canonical(strs', hashOf)
            && Total(chains') == Total(chains) + 1
  {
    var b, u := hashOf(text) % |heads|, |strs|;
    var strs', heads', chains' := strs + [TString(text, hashOf(text), heads[b], false)], heads[b := u],
      chains[b := [u] + chains[b]];
    TotalWith(chains, b, [u] + chains[b]);
    hide AllIn, Canonical, Total;
    forall c | 0 <= c < |heads| ensures Chained(strs', heads'[c], chains'[c])
    && InBucket(strs', chains'[c], c, |heads|) {
      SameChain(strs, strs', heads[c], chains[c], c, |heads|);
      if c == b {
        AtFront(strs', heads[b], chains[b], u);
      }
    }
    assert AllIn(strs', chains') by { AllInWith(strs, strs', chains, b, u); }
    assert Canonical(strs', hashOf) by { CanonicalWith(strs, hashOf, strs'[u]); }
  }

  lemma AtFront(strs: seq<TString>, head: int, chain: seq<int>, u: int)
    requires Chained(strs, head, chain) && 0 <= u < |strs| && strs[u].TString? && strs[u].next == head && u !in chain
    ensures Chained(strs, u, [u] + chain)
  {
  }

  lemma AllInWith(strs: seq<TString>, strs': seq<TString>, chains: seq<seq<int>>, b: int, u: int)
    requires |chains| > 0 && AllIn(strs, chains) && u == |strs| && |strs'| == u + 1 && strs'[..u] == strs
    requires strs'[u].TString? && strs'[u].hash % |chains| == b
    ensures AllIn(strs', chains[b := [u] + chains[b]])
  {
    forall w | 0 <= w < |strs'|
    && strs'[w].TString? ensures w in chains[b := [u] + chains[b]][strs'[w].hash % |chains|] {
      if w < u { assert strs'[w] == strs[w]; }
    }
  }

  lemma CanonicalWith(strs: seq<TString>, hashOf: string -> nat, s: TString)
    requires Canonical(strs, hashOf) && s.TString? && s.hash == hashOf(s.text)
    requires forall u :: 0 <= u < |strs| && strs[u].TString? ==> strs[u].text != s.text
    ensures Canonical(strs + [s], hashOf)
  {
  }

  // ---------------------------------------------------------------- resizing

  /** Old chains that are partly moved to new ones. */
  ghost predicate Apart(strs: seq<TString>, chains: seq<seq<int>>, rest: seq<seq<int>>)
    requires |chains| > 0 && |rest| > 0
  {
    forall u :: 0 <= u < |strs| && strs[u].TString? ==>
      (u in chains[strs[u].hash % |chains|] <==> u !in rest[strs[u].hash % |rest|])
  }

  ghost predicate Moving(strs: seq<TString>, heads: seq<int>, chains: seq<seq<int>>, left: seq<int>,
      rest: seq<seq<int>>) {
    Buckets(strs, heads, chains) && Buckets(strs, left, rest) && Apart(strs, chains, rest)
  }

  lemma StartMoving(strs: seq<TString>, heads: seq<int>, chains: seq<seq<int>>, size: nat)
    requires Buckets(strs, heads, chains) && AllIn(strs, chains) && size > 0
    ensures Moving(strs, seq(size, i => NULL), seq(size, i => []), heads, chains)
    ensures Total(seq(size, i => [])) == 0
  {
    TotalEmpty(size);
  }

  lemma EndMoving(strs: seq<TString>, heads: seq<int>, chains: seq<seq<int>>, left: seq<int>, rest: seq<seq<int>>)
    requires Moving(strs, heads, chains, left, rest) && forall b :: 0 <= b < |rest| ==> rest[b] == []
    ensures Buckets(strs, heads, chains) && AllIn(strs, chains) && Total(rest) == 0
  {
    assert rest == seq(|rest|, i => []);
    TotalEmpty(|rest|);
  }

  /** The first string of an old chain goes to the front of its new one. */
  lemma Moved(strs: seq<TString>, heads: seq<int>, chains: seq<seq<int>>, left: seq<int>, rest: seq<seq<int>>, i: nat)
    requires Moving(strs, heads, chains, left, rest) && i < |rest| && rest[i] != []
    ensures var p := rest[i][0];
            && p == left[i] && 0 <= p < |strs| && strs[p].TString?
            && var b := strs[p].hash % |heads|;
               Moving(strs[p := strs[p].(next := heads[b])], heads[b := p], chains[b := [p] + chains[b]],
                      left[i := strs[p].next], rest[i := rest[i][1..]])
    ensures var b := strs[rest[i][0]].hash % |heads|;
            && Total(chains[b := [rest[i][0]] + chains[b]]) == Total(chains) + 1
            && Total(rest[i := rest[i][1..]]) == Total(rest) - 1
  {
    var p := rest[i][0];
    assert Chained(strs, left[i], rest[i]) && InBucket(strs, rest[i], i, |rest|);
    var b := strs[p].hash % |heads|;
    TotalWith(chains, b, [p] + chains[b]);
    TotalWith(rest, i, rest[i][1..]);
    var strs' := strs[p := strs[p].(next := heads[b])];
    assert p in rest[i] && p !in chains[b];
    hide Total;
    NewBuckets(strs, heads, chains, p);
    OldBuckets(strs, left, rest, i, heads[b]);
    hide Buckets;
    StillApart(strs, strs', chains, rest, p, b, i);
  }

  lemma NewBuckets(strs: seq<TString>, heads: seq<int>, chains: seq<seq<int>>, p: int)
    requires Buckets(strs, heads, chains) && 0 <= p < |strs| && strs[p].TString?
    requires p !in chains[strs[p].hash % |heads|]
    ensures var b := strs[p].hash % |heads|;
            Buckets(strs[p := strs[p].(next := heads[b])], heads[b := p], chains[b := [p] + chains[b]])
  {
    var b := strs[p].hash % |heads|;
    var strs', heads', chains' := strs[p := strs[p].(next := heads[b])], heads[b := p], chains[b := [p] + chains[b]];
    forall c | 0 <= c < |heads| ensures Chained(strs', heads'[c], chains'[c])
    && InBucket(strs', chains'[c], c, |heads|) {
      NotInOther(strs, chains[c], c, |heads|, p);
      SameChain(strs, strs', heads[c], chains[c], c, |heads|);
      if c == b { AtFront(strs', heads[b], chains[b], p); }
    }
  }

  lemma NotInOther(strs: seq<TString>, chain: seq<int>, c: int, size: nat, p: int)
    requires size > 0 && InBucket(strs, chain, c, size) && 0 <= p < |strs| && strs[p].TString?
    ensures strs[p].hash % size != c ==> p !in chain
  {
  }

  lemma OldBuckets(strs: seq<TString>, left: seq<int>, rest: seq<seq<int>>, i: nat, next: int)
    requires Buckets(strs, left, rest) && i < |rest| && rest[i] != []
    ensures var p := rest[i][0];
            0 <= p < |strs| && strs[p].TString? && Buckets(strs[p := strs[p].(next := next)], left[i := strs[p].next],
                                                           rest[i := rest[i][1..]])
  {
    var p := rest[i][0];
    assert Chained(strs, left[i], rest[i]) && InBucket(strs, rest[i], i, |rest|);
    var strs', left', rest' := strs[p := strs[p].(next := next)], left[i := strs[p].next], rest[i := rest[i][1..]];
    forall c | 0 <= c < |left| ensures Chained(strs', left'[c], rest'[c]) && InBucket(strs', rest'[c], c, |left|) {
      if c == i {
        Behind(strs, left[i], rest[i], i, |rest|);
        SameChain(strs, strs', strs[p].next, rest[i][1..], i, |rest|);
      } else {
        NotInOther(strs, rest[c], c, |rest|, p);
        SameChain(strs, strs', left[c], rest[c], c, |rest|);
      }
    }
  }

  lemma Behind(strs: seq<TString>, head: int, chain: seq<int>, b: int, size: nat)
    requires size > 0 && Chained(strs, head, chain) && InBucket(strs, chain, b, size) && chain != []
    ensures Chained(strs, strs[chain[0]].next, chain[1..]) && InBucket(strs, chain[1..], b, size)
            && chain[0] !in chain[1..]
  {
    if |chain| > 1 { assert strs[chain[0]].next == chain[1]; }
  }

  lemma StillApart(strs: seq<TString>, strs': seq<TString>, chains: seq<seq<int>>, rest: seq<seq<int>>, p: int, b: int,
      i: nat)
    requires |chains| > 0 && i < |rest| && rest[i] != [] && rest[i][0] == p && Apart(strs, chains, rest)
    requires |strs'| == |strs| && forall u ::
               0 <= u < |strs| ==> (strs'[u].TString? <==> strs[u].TString?)
                                   && (strs[u].TString? ==> strs'[u].hash == strs[u].hash)
    requires 0 <= p < |strs| && strs[p].TString? && strs[p].hash % |chains| == b && strs[p].hash % |rest| == i
             && p !in rest[i][1..]
    ensures Apart(strs', chains[b := [p] + chains[b]], rest[i := rest[i][1..]])
  {
    var chains', rest' := chains[b := [p] + chains[b]], rest[i := rest[i][1..]];
    forall u | 0 <= u < |strs'| && strs'[u].TString?
      ensures u in chains'[strs'[u].hash % |chains'|] <==> u !in rest'[strs'[u].hash % |rest'|]
    {
      assert u in rest[i] <==> u == p || u in rest[i][1..] by { assert rest[i] == [p] + rest[i][1..]; }
      assert u in [p] + chains[b] <==> u == p || u in chains[b];
    }
  }

  // ---------------------------------------------------------------- sweeping

  /** A dead string is taken out of its chain. */
  function Unlinked(strs: seq<TString>, u: int, prev: int): seq<TString>
    requires 0 <= u < |strs| && strs[u].TString?
             && (prev != NULL ==> 0 <= prev < |strs| && strs[prev].TString? && prev != u)
  {
    if prev == NULL then strs[u := Freed] else strs[prev := strs[prev].(next := strs[u].next)][u := Freed]
  }

  lemma Removed(strs: seq<TString>, heads: seq<int>, chains: seq<seq<int>>, hashOf: string -> nat, b: nat, k: nat)
    requires Buckets(strs, heads, chains) && AllIn(strs, chains) && Canonical(strs, hashOf) && b < |chains|
             && k < |chains[b]|
    ensures var chain := chains[b];
            var u, prev := chain[k], if k == 0 then NULL else chain[k - 1];
            && 0 <= u < |strs| && strs[u].TString? && (prev != NULL ==>
                                                         0 <= prev < |strs| && strs[prev].TString? && prev != u)
            && var strs', heads', chains' := Unlinked(strs, u, prev), if k == 0 then heads[b := strs[u].next]
            else heads, chains[b := chain[..k] + chain[k + 1..]];
               && Buckets(strs', heads', chains') && AllIn(strs', chains') && Canonical(strs', hashOf)
               && Total(chains') == Total(chains) - 1
  {
    hide Total, Canonical, AllIn, Chained, InBucket, Unlinked;
    var chain := chains[b];
    assert Chained(strs, heads[b], chain) && InBucket(strs, chain, b, |heads|);
    var u, prev := chain[k], if k == 0 then NULL else chain[k - 1];
    var cut := chain[..k] + chain[k + 1..];
    TotalWith(chains, b, cut);
    CutOut(strs, heads[b], chain, b, |heads|, k);
    var strs' := Unlinked(strs, u, prev);
    InItsBucket(strs, chain, b, |heads|);
    forall c | 0 <= c < |heads| && c != b ensures Chained(strs', heads[c], chains[c])
    && InBucket(strs', chains[c], c, |heads|) {
      NotInOther(strs, chains[c], c, |heads|, u);
      if prev != NULL { NotInOther(strs, chains[c], c, |heads|, prev); }
      OnlyThose(strs, u, prev);
      SameChain(strs, strs', heads[c], chains[c], c, |heads|);
    }
    hide Buckets;
    OnlyThose(strs, u, prev);
    AllInWithout(strs, strs', chains, b, cut, u);
    CanonicalWithout(strs, strs', hashOf);
    BucketsWith(strs, strs', heads, chains, b, if k == 0 then strs[u].next else heads[b], cut);
    assert k > 0 ==> heads[b := heads[b]] == heads;
  }

  lemma InItsBucket(strs: seq<TString>, chain: seq<int>, b: int, size: nat)
    requires size > 0 && InBucket(strs, chain, b, size)
    ensures forall i :: 0 <= i < |chain| ==>
                          0 <= chain[i] < |strs| && strs[chain[i]].TString? && strs[chain[i]].hash % size == b
  {
  }

  lemma OnlyThose(strs: seq<TString>, u: int, prev: int)
    requires 0 <= u < |strs| && strs[u].TString?
             && (prev != NULL ==> 0 <= prev < |strs| && strs[prev].TString? && prev != u)
    ensures var strs' := Unlinked(strs, u, prev);
            && |strs'| == |strs| && strs'[u].Freed?
            && (forall w :: 0 <= w < |strs| && w != u && w != prev ==> strs'[w] == strs[w])
            && (forall w :: 0 <= w < |strs| && strs'[w].TString? ==> SameString(strs[w], strs'[w]))
  {
  }

  predicate SameString(a: TString, b: TString) {
    a.TString? && b.TString? && a.hash == b.hash && a.text == b.text && a.dead == b.dead
  }

  lemma BucketsWith(strs: seq<TString>, strs': seq<TString>, heads: seq<int>, chains: seq<seq<int>>, b: nat, head: int,
      chain: seq<int>)
    requires |heads| == |chains| && b < |heads| && Chained(strs', head, chain) && InBucket(strs', chain, b, |heads|)
    requires forall c :: 0 <= c < |heads| && c != b ==>
                           Chained(strs', heads[c], chains[c]) && InBucket(strs', chains[c], c, |heads|)
    ensures Buckets(strs', heads[b := head], chains[b := chain])
  {
    hide Chained, InBucket;
  }

  lemma CutOut(strs: seq<TString>, head: int, chain: seq<int>, b: int, size: nat, k: nat)
    requires size > 0 && Chained(strs, head, chain) && InBucket(strs, chain, b, size) && k < |chain|
    ensures var u, prev := chain[k], if k == 0 then NULL else chain[k - 1];
            && 0 <= u < |strs| && strs[u].TString? && (prev != NULL ==>
                                                         0 <= prev < |strs| && strs[prev].TString? && prev != u)
            && var strs', cut := Unlinked(strs, u, prev), chain[..k] + chain[k + 1..];
               && Chained(strs', if k == 0 then strs[u].next else head, cut) && InBucket(strs', cut, b, size)
               && (forall w :: w in cut <==> w in chain && w != u)
  {
    var u, prev, cut := chain[k], if k == 0 then NULL else chain[k - 1], chain[..k] + chain[k + 1..];
    var strs' := Unlinked(strs, u, prev);
    CutMembers(chain, k);
    LinkPast(strs, head, chain, k);
    hide Unlinked;
    forall i, j | 0 <= i && j == i + 1 && j < |cut| ensures strs'[cut[i]].next == cut[j] {
      assert cut[i] == chain[if i < k then i else i + 1] && cut[j] == chain[if j < k then j else j + 1];
    }
    if cut != [] { assert cut[|cut| - 1] == chain[if |chain| - 1 == k then k - 1 else |chain| - 1]; }
  }

  lemma CutMembers(chain: seq<int>, k: nat)
    requires k < |chain| && NoDuplicates(chain)
    ensures var cut := chain[..k] + chain[k + 1..];
            && NoDuplicates(cut) && (forall w :: w in cut <==> w in chain && w != chain[k])
            && forall i :: 0 <= i < |cut| ==> cut[i] == chain[if i < k then i else i + 1]
  {
    assert chain == chain[..k] + [chain[k]] + chain[k + 1..];
  }

  /** The one before links to the one after, and the others link as before. */
  lemma LinkPast(strs: seq<TString>, head: int, chain: seq<int>, k: nat)
    requires Chained(strs, head, chain) && k < |chain|
    ensures var u, prev := chain[k], if k == 0 then NULL else chain[k - 1];
            && 0 <= u < |strs| && strs[u].TString? && (prev != NULL ==>
                                                         0 <= prev < |strs| && strs[prev].TString? && prev != u)
            && strs[u].next == (if k + 1 < |chain| then chain[k + 1] else NULL)
            && var strs' := Unlinked(strs, u, prev);
               && |strs'| == |strs| && (k > 0 ==> strs'[prev].TString? && strs'[prev].hash == strs[prev].hash
                                                  && strs'[prev].next == strs[u].next)
               && forall i :: 0 <= i < |chain| && i != k && i != k - 1 ==> strs'[chain[i]] == strs[chain[i]]
  {
  }

  lemma AllInWithout(strs: seq<TString>, strs': seq<TString>, chains: seq<seq<int>>, b: nat, cut: seq<int>, u: int)
    requires b < |chains| && AllIn(strs, chains) && |strs'| == |strs| && 0 <= u < |strs| && strs'[u].Freed?
    requires forall w :: 0 <= w < |strs| && strs'[w].TString? ==> strs[w].TString? && strs'[w].hash == strs[w].hash
    requires forall w :: w in cut <==> w in chains[b] && w != u
    ensures AllIn(strs', chains[b := cut])
  {
  }

  lemma CanonicalWithout(strs: seq<TString>, strs': seq<TString>, hashOf: string -> nat)
    requires Canonical(strs, hashOf) && |strs'| == |strs|
    requires forall w :: 0 <= w < |strs| && strs'[w].TString? ==>
                           strs[w].TString? && strs'[w].hash == strs[w].hash && strs'[w].text == strs[w].text
    ensures Canonical(strs', hashOf)
  {
  }
}
