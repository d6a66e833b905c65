/** Creating, resizing and sweeping interned strings: equal strings are the same string. */
module Interning {
  import opened Common
  import opened StringTable

  /** A dead string waits in a bucket that is still to be swept. */
  ghost predicate DeadAhead(strs: seq<TString>, size: nat, sweeping: bool, pos: nat)
    requires size > 0
  {
    && (sweeping ==> pos < size)
    && forall u :: 0 <= u < |strs| && strs[u].TString? && strs[u].dead ==> sweeping && strs[u].hash % size >= pos
  }

  /** The same strings, linked in whatever way. */
  ghost predicate SameStrings(a: seq<TString>, b: seq<TString>) {
    |a| == |b| && forall u :: 0 <= u < |a| ==>
                                (a[u].TString? <==> b[u].TString?) && (a[u].TString? ==> SameString(a[u], b[u]))
  }

  lemma SameKeeps(a: seq<TString>, b: seq<TString>, hashOf: string -> nat)
    requires SameStrings(a, b) && Canonical(a, hashOf)
    ensures Canonical(b, hashOf)
  {
  }

  lemma NoneDead(a: seq<TString>, b: seq<TString>, size: nat, size': nat, pos: nat)
    requires SameStrings(a, b) && size > 0 && size' > 0 && DeadAhead(a, size, false, pos)
    ensures DeadAhead(b, size', false, pos)
  {
  }

  /** Everyone else's string is still there. */
  ghost predicate Grown(a: seq<TString>, b: seq<TString>, u: int) {
    |b| >= |a| && forall w :: 0 <= w < |a| && a[w].TString? ==>
                                b[w].TString? && b[w].text == a[w].text && (w != u ==> b[w].dead == a[w].dead)
  }

  lemma GrownSame(a: seq<TString>, b: seq<TString>, c: seq<TString>, u: int)
    requires Grown(a, b, u) && SameStrings(b, c)
    ensures Grown(a, c, u)
  {
  }

  function Revived(strs: seq<TString>, u: int): seq<TString>
    requires 0 <= u < |strs| && strs[u].TString?
  {
    strs[u := TString(strs[u].text, strs[u].hash, strs[u].next, false)]
  }

  lemma ReviveKeeps(strs: seq<TString>, heads: seq<int>, chains: seq<seq<int>>, hashOf: string -> nat, u: int,
      sweeping: bool, pos: nat)
    requires Buckets(strs, heads, chains) && AllIn(strs, chains) && Canonical(strs, hashOf) && 0 <= u < |strs|
             && strs[u].TString?
    requires DeadAhead(strs, |heads|, sweeping, pos)
    ensures var r := Revived(strs, u);
            && Buckets(r, heads, chains) && AllIn(r, chains) && Canonical(r, hashOf)
            && DeadAhead(r, |heads|, sweeping, pos) && Grown(strs, r, u)
  {
    var r := Revived(strs, u);
    hide AllIn, Canonical, DeadAhead, Grown;
    ReviveRest(strs, chains, hashOf, u, |heads|, sweeping, pos);
    forall b | 0 <= b < |heads| ensures Chained(r, heads[b], chains[b]) && InBucket(r, chains[b], b, |heads|) {
      SameChain(strs, r, heads[b], chains[b], b, |heads|);
    }
  }

  lemma ReviveRest(strs: seq<TString>, chains: seq<seq<int>>, hashOf: string -> nat, u: int, size: nat, sweeping: bool,
      pos: nat)
    requires |chains| > 0 && size > 0 && AllIn(strs, chains) && Canonical(strs, hashOf) && 0 <= u < |strs|
             && strs[u].TString?
    requires DeadAhead(strs, size, sweeping, pos)
    ensures var r := Revived(strs, u); AllIn(r, chains) && Canonical(r, hashOf) && DeadAhead(r, size, sweeping, pos)
                                       && Grown(strs, r, u)
  {
  }

  /** The head of a bucket is the first place of its chain. */
  lemma AtHead(strs: seq<TString>, heads: seq<int>, chains: seq<seq<int>>, b: nat)
    requires Buckets(strs, heads, chains) && b < |heads|
    ensures |heads| == |chains| && heads[b] == At(chains[b], 0) && At(chains[b], -1) == NULL
  {
    assert Chained(strs, heads[b], chains[b]);
  }

  /** A pointer that is not null, at a place of a chain. */
  lemma AtPlace(strs: seq<TString>, heads: seq<int>, chains: seq<seq<int>>, b: nat, k: nat, o: int)
    requires Buckets(strs, heads, chains) && b < |heads| == |chains| && k <= |chains[b]| && o == At(chains[b], k)
             && o != NULL
    ensures k < |chains[b]| && o == chains[b][k] && 0 <= o < |strs| && strs[o].TString? && strs[o].hash % |heads| == b
    ensures strs[o].next == At(chains[b], k + 1)
    ensures var prev := At(chains[b], k - 1);
            if k == 0 then prev == NULL else prev == chains[b][k - 1] && 0 <= prev < |strs| && strs[prev].TString?
                                             && prev != o
  {
    assert Chained(strs, heads[b], chains[b]) && InBucket(strs, chains[b], b, |heads|);
    if k > 0 { assert 0 <= chains[b][k - 1] < |strs|; }
  }

  /** A null pointer is at the end of its chain. */
  lemma AtEnd(strs: seq<TString>, heads: seq<int>, chains: seq<seq<int>>, b: nat, k: nat)
    requires Buckets(strs, heads, chains) && b < |heads| == |chains| && k <= |chains[b]| && At(chains[b], k) == NULL
    ensures k == |chains[b]|
    ensures forall i :: 0 <= i < |chains[b]| ==> 0 <= chains[b][i] < |strs| && strs[chains[b][i]].TString?
  {
    assert Chained(strs, heads[b], chains[b]);
    assert forall i :: 0 <= i < |chains[b]| ==> 0 <= chains[b][i];
  }

  function At(chain: seq<int>, i: int): int { if 0 <= i < |chain| then chain[i] else NULL }

  lemma AtCut(chain: seq<int>, k: nat)
    requires k < |chain|
    ensures At(chain[..k] + chain[k + 1..], k) == At(chain, k + 1)
            && At(chain[..k] + chain[k + 1..], k - 1) == At(chain, k - 1)
  {
  }

  class StringPool {
    var hash: array<int>
    var nuse: nat
    var strs: seq<TString>
    var sweeping: bool  // in the sweep of the string table
    var sweepPos: nat  // the next bucket to sweep
    const hashOf: string -> nat
    ghost var chains: seq<seq<int>>

    ghost predicate Valid()
      reads this, hash
    {
      && Buckets(strs, hash[..], chains) && AllIn(strs, chains) && Canonical(strs, hashOf)
      && nuse == Total(chains) && DeadAhead(strs, |hash[..]|, sweeping, sweepPos)
    }

    constructor (hashOf: string -> nat)
      ensures Valid() && strs == [] && !sweeping && hash.Length == MINSTRTABSIZE && fresh(hash)
    {
      this.hashOf := hashOf;
      hash := new int[MINSTRTABSIZE](i => NULL);
      nuse, strs, sweeping, sweepPos, chains := 0, [], false, 0, seq(MINSTRTABSIZE, i => []);
      new;
      TotalEmpty(MINSTRTABSIZE);
    }

    /** The string with the text: the one in the table, brought back if it was dead, or a
        new one. */
    method NewLStr(text: string) returns (u: int)
      requires Valid()
      modifies this, hash
      ensures Valid() && (hash == old(hash) || fresh(hash)) && sweeping == old(sweeping)
      ensures 0 <= u < |strs| && strs[u].TString? && strs[u].text == text && !strs[u].dead && Grown(old(strs), strs, u)
      ensures if exists w :: 0 <= w < |old(strs)| && old(strs)[w].TString? && old(strs)[w].text == text
              then |strs| == |old(strs)| else u == |old(strs)|
    {
      hide Buckets, AllIn, Canonical, Total, DeadAhead, Grown;
      SizeOf(strs, hash[..], chains);
      var h := hashOf(text) % hash.Length;
      var o := Find(text, h);
      if o != NULL {
        ReviveKeeps(strs, hash[..], chains, hashOf, o, sweeping, sweepPos);
        if strs[o].dead { strs := Revived(strs, o); } else { GrownSelf(strs, o); }
        return o;
      }
      u := Chain(text, h);
      if nuse > hash.Length && hash.Length <= MAX_INT / 2 {
        ghost var was := strs;
        Resize(hash.Length * 2);
        GrownSame(old(strs), was, strs, u);
        SameAt(was, strs, u);
      }
    }

    /** Look for a text in the bucket of its hash. */
    method Find(text: string, h: nat) returns (o: int)
      requires Valid() && h == hashOf(text) % |hash[..]|
      ensures o != NULL ==> 0 <= o < |strs| && strs[o].TString? && strs[o].text == text
      ensures o == NULL ==> forall w :: 0 <= w < |strs| && strs[w].TString? ==> strs[w].text != text
    {
      hide Buckets, AllIn, Canonical, Total, DeadAhead, At;
      SizeOf(strs, hash[..], chains);
      AtHead(strs, hash[..], chains, h);
      ghost var k := 0;
      o := hash[h];
      while o != NULL
        invariant 0 <= k <= |chains[h]| && o == At(chains[h], k)
        invariant forall i :: 0 <= i < k ==> 0 <= chains[h][i] < |strs| && strs[chains[h][i]].TString?
                                             && strs[chains[h][i]].text != text
        decreases |chains[h]| - k
      {
        AtPlace(strs, hash[..], chains, h, k, o);
        if strs[o].text == text {
          return;
        }
        o := strs[o].next;
        k := k + 1;
      }
      AtEnd(strs, hash[..], chains, h, k);
      NotThere(strs, hash[..], chains, hashOf, text);
    }

    /** Chain a new string in its bucket. */
    method Chain(text: string, h: nat) returns (u: int)
      requires Valid() && h == hashOf(text) % |hash[..]|
      requires forall w :: 0 <= w < |strs| && strs[w].TString? ==> strs[w].text != text
      modifies this, hash
      ensures Valid() && hash == old(hash) && sweeping == old(sweeping) && Grown(old(strs), strs, u)
      ensures u == |old(strs)| && |strs| == u + 1 && strs[u].TString? && strs[u].text == text && !strs[u].dead
    {
      hide Buckets, AllIn, Canonical, Total;
      SizeOf(strs, hash[..], chains);
      Created(strs, hash[..], chains, hashOf, text);
      u := |strs|;
      strs := strs + [TString(text, hashOf(text), hash[h], false)];
      chains := chains[h := [u] + chains[h]];
      ghost var heads := hash[..];
      hash[h] := u;
      assert hash[..] == heads[h := u];
      nuse := nuse + 1;
    }

    /** All strings are chained in a new table; not during a sweep. */
    method Resize(newsize: nat)
      requires Valid() && newsize > 0
      modifies this
      ensures Valid() && sweeping == old(sweeping) && SameStrings(old(strs), strs) && nuse == old(nuse)
      ensures if sweeping then hash == old(hash) else fresh(hash) && hash.Length == newsize
    {
      hide Buckets, AllIn, Canonical, Total, DeadAhead, Moving, SameStrings;
      SameSelf(strs);
      if sweeping {
        return;
      }
      SizeOf(strs, hash[..], chains);
      var newhash := new int[newsize](i => NULL);
      ghost var newChains, left, rest := seq<seq<int>>(newsize, i => []), hash[..], chains;
      StartMoving(strs, left, rest, newsize);
      assert newhash[..] == seq(newsize, i => NULL);
      var i := 0;
      while i < hash.Length
        invariant 0 <= i <= hash.Length && unchanged(this`hash) && unchanged(this`nuse) && unchanged(this`sweeping)
                  && unchanged(this`sweepPos)
        invariant unchanged(hash) && fresh(newhash) && |newChains| == newhash.Length == newsize
                  && |left| == |rest| == hash.Length
        invariant Moving(strs, newhash[..], newChains, left, rest) && SameStrings(old(strs), strs)
        invariant Total(newChains) + Total(rest) == nuse
        invariant (forall c :: 0 <= c < i ==> rest[c] == []) && forall c :: i <= c < hash.Length ==> left[c] == hash[c]
      {
        var p := hash[i];
        while p != NULL
          invariant unchanged(this`hash) && unchanged(this`nuse) && unchanged(this`sweeping) && unchanged(this`sweepPos)
          invariant unchanged(hash) && fresh(newhash) && |newChains| == newsize && |left| == |rest| == hash.Length
                    && left[i] == p
          invariant Moving(strs, newhash[..], newChains, left, rest) && SameStrings(old(strs), strs)
          invariant Total(newChains) + Total(rest) == nuse
          invariant (forall c :: 0 <= c < i ==> rest[c] == []) && forall c :: i < c < hash.Length ==> left[c] == hash[c]
          decreases |rest[i]|
        {
          NonEmpty(strs, newhash[..], newChains, left, rest, i);
          Moved(strs, newhash[..], newChains, left, rest, i);
          Relinked(old(strs), strs, p, newhash[strs[p].hash % newsize]);
          var next := strs[p].next;
          var h1 := strs[p].hash % newsize;
          strs := strs[p := TString(strs[p].text, strs[p].hash, newhash[h1], strs[p].dead)];
          ghost var heads := newhash[..];
          newhash[h1] := p;
          assert newhash[..] == heads[h1 := p];
          newChains, left, rest := newChains[h1 := [p] + newChains[h1]], left[i := next], rest[i := rest[i][1..]];
          p := next;
        }
        Emptied(strs, newhash[..], newChains, left, rest, i);
        i := i + 1;
      }
      EndMoving(strs, newhash[..], newChains, left, rest);
      SameKeeps(old(strs), strs, hashOf);
      NoneDead(old(strs), strs, hash.Length, newsize, sweepPos);
      hash, chains := newhash, newChains;
    }

    /** The mark phase ends: some strings turned out dead, and the sweep begins. */
    method Atomic(dead: set<int>)
      requires Valid() && !sweeping
      modifies this
      ensures Valid() && hash == old(hash) && sweeping && |strs| == |old(strs)|
      ensures forall u :: 0 <= u < |strs| && old(strs)[u].TString? ==>
                            strs[u].TString? && strs[u].text == old(strs)[u].text && (strs[u].dead <==> u in dead)
    {
      SizeOf(strs, hash[..], chains);
      DeathKeeps(strs, hash[..], chains, hashOf, dead, sweepPos);
      strs, sweeping, sweepPos := Condemned(strs, dead), true, 0;
    }

    /** Sweep one bucket: its dead strings are freed. */
    method SweepBucket()
      requires Valid() && sweeping
      modifies this, hash
      ensures Valid() && hash == old(hash) && hash.Length > 0
              && BucketSwept(old(strs), strs, old(sweepPos), hash.Length)
    {
      hide Buckets, AllIn, Canonical, Total, DeadAhead, SweptTo, BucketSwept, At;
      SizeOf(strs, hash[..], chains);
      var b := sweepPos;
      StartSweep(strs, hash[..], chains, sweepPos);
      AtHead(strs, hash[..], chains, b);
      var prev, o := NULL, hash[b];
      ghost var k := 0;
      while o != NULL
        invariant Valid() && hash == old(hash) && sweeping && sweepPos == b < |chains| == hash.Length
                  && 0 <= k <= |chains[b]|
        invariant o == At(chains[b], k) && prev == At(chains[b], k - 1)
        invariant SweptTo(old(strs), strs, chains[b], k, b, hash.Length)
        decreases |chains[b]| - k
      {
        AtPlace(strs, hash[..], chains, b, k, o);
        if !strs[o].dead {
          NotFreed(old(strs), strs, chains[b], k, b, hash.Length);
          prev := o;
          o := strs[o].next;
          k := k + 1;
        } else {
          OneFreed(old(strs), strs, hash[..], chains, k, b);
          o := Free(o, prev, b, k);
        }
      }
      AtEnd(strs, hash[..], chains, b, k);
      EndSweep(old(strs), strs, hash[..], chains, b, sweeping);
      sweepPos := sweepPos + 1;
      if sweepPos >= hash.Length { sweeping := false; }
    }

    /** Take a dead string out of its chain; the next one is returned. */
    method Free(o: int, prev: int, b: nat, ghost k: nat) returns (next: int)
      requires Valid() && b < |chains| == hash.Length && k < |chains[b]| && o == chains[b][k] == At(chains[b], k)
               && o != NULL
      requires 0 <= o < |strs| && strs[o].TString? && strs[o].dead && strs[o].hash % hash.Length == b
      requires prev == At(chains[b], k - 1) && if k == 0 then prev == NULL else prev == chains[b][k - 1]
      requires prev != NULL ==> 0 <= prev < |strs| && strs[prev].TString? && prev != o
      modifies this, hash
      ensures Valid() && hash == old(hash) && sweeping == old(sweeping) && sweepPos == old(sweepPos)
      ensures strs == Unlinked(old(strs), o, prev)
              && chains == old(chains)[b := old(chains)[b][..k] + old(chains)[b][k + 1..]]
      ensures next == At(chains[b], k) && prev == At(chains[b], k - 1)
    {
      hide Buckets, AllIn, Canonical, Total, DeadAhead, At;
      AtPlace(strs, hash[..], chains, b, k, o);
      AtCut(chains[b], k);
      Removed(strs, hash[..], chains, hashOf, b, k);
      DeadWithout(strs, o, prev, hash.Length, sweeping, sweepPos);
      next := strs[o].next;
      ghost var heads := hash[..];
      strs := Unlinked(strs, o, prev);
      if prev == NULL { hash[b] := next; }
      assert hash[..] == if k == 0 then heads[b := next] else heads;
      chains := chains[b := chains[b][..k] + chains[b][k + 1..]];
      nuse := nuse - 1;
    }

    /** The table shrinks when it is mostly empty. */
    method CheckSizes()
      requires Valid() && !sweeping
      modifies this
      ensures Valid() && (hash == old(hash) || fresh(hash)) && !sweeping && SameStrings(old(strs), strs)
    {
      SameSelf(strs);
      if nuse < hash.Length / 4 && hash.Length > MINSTRTABSIZE * 2 {
        Resize(hash.Length / 2);
      }
    }
  }

  // ------------------------------------------------------------------- runs

  /** What happens to strings: the program creates and drops them, and the collector ends
      its mark phase, sweeps a bucket or checks the size of the table. */
  datatype Op = Create(text: string) | Drop(i: int) | MarkEnds(dead: set<int>) | SweepOne | Check

  /** The texts of the strings that the program holds. */
  function Texts(texts: seq<string>, op: Op): seq<string> {
    match op
    case Create(text) => texts + [text]
    case Drop(i) => if 0 <= i < |texts| then texts[..i] + texts[i + 1..] else texts
    case _ => texts
  }

  function TextsAfter(texts: seq<string>, ops: seq<Op>): seq<string>
    decreases |ops|
  {
    if ops == [] then texts else TextsAfter(Texts(texts, ops[0]), ops[1..])
  }

  ghost predicate Holds(strs: seq<TString>, held: seq<int>, texts: seq<string>) {
    && |held| == |texts|
    && forall i :: 0 <= i < |held| ==> 0 <= held[i] < |strs| && strs[held[i]].TString? && strs[held[i]].text == texts[i]
                                       && !strs[held[i]].dead
  }

  lemma HoldsGrown(a: seq<TString>, b: seq<TString>, u: int, held: seq<int>, texts: seq<string>, text: string)
    requires Holds(a, held, texts) && Grown(a, b, u) && 0 <= u < |b| && b[u].TString? && b[u].text == text && !b[u].dead
    ensures Holds(b, held + [u], texts + [text])
  {
  }

  /** Equal strings are the same string, and only they are. */
  lemma SameIffEqual(strs: seq<TString>, hashOf: string -> nat, held: seq<int>, texts: seq<string>)
    requires Canonical(strs, hashOf) && Holds(strs, held, texts)
    ensures forall i, j :: 0 <= i < |held| && 0 <= j < |held| ==> (held[i] == held[j] <==> texts[i] == texts[j])
  {
    forall i, j | 0 <= i < |held| && 0 <= j < |held| ensures held[i] == held[j] <==> texts[i] == texts[j] {
      assert held[i] < held[j] ==> strs[held[i]].text != strs[held[j]].text;
      assert held[j] < held[i] ==> strs[held[j]].text != strs[held[i]].text;
    }
  }

  method Perform(pool: StringPool, held: seq<int>, op: Op, ghost texts: seq<string>) returns (now: seq<int>)
    requires pool.Valid() && Holds(pool.strs, held, texts)
    modifies pool, pool.hash
    ensures pool.Valid() && (pool.hash == old(pool.hash) || fresh(pool.hash)) && Holds(pool.strs, now, Texts(texts, op))
  {
    hide Buckets, AllIn, Canonical, Total, DeadAhead, Grown;
    now := held;
    match op
    case Create(text) =>
      ghost var was := pool.strs;
      var u := pool.NewLStr(text);
      HoldsGrown(was, pool.strs, u, held, texts, text);
      now := held + [u];
    case Drop(i) =>
      if 0 <= i < |held| { now := held[..i] + held[i + 1..]; }
    case MarkEnds(dead) =>
      if !pool.sweeping {
        pool.Atomic(dead - (set u | u in held));
      }
    case SweepOne =>
      if pool.sweeping {
        pool.SweepBucket();
      }
    case Check =>
      if !pool.sweeping {
        pool.CheckSizes();
      }
  }

  /** Over any run, two strings that the program holds are the same exactly when their
      texts are. */
  method Run(hashOf: string -> nat, ops: seq<Op>) returns (pool: StringPool, held: seq<int>)
    ensures pool.Valid() && Holds(pool.strs, held, TextsAfter([], ops))
    ensures var texts := TextsAfter([], ops);
            |held| == |texts| && forall i, j :: 0 <= i < |held| && 0 <= j < |held| ==>
                                                  (held[i] == held[j] <==> texts[i] == texts[j])
  {
    hide Buckets, AllIn, Canonical, Total, DeadAhead, Holds;
    pool := new StringPool(hashOf);
    held := [];
    ghost var texts := [];
    assert Holds(pool.strs, held, texts) by { NoneHeld(pool.strs); }
    var i := 0;
    while i < |ops|
      invariant 0 <= i <= |ops| && pool.Valid() && fresh(pool) && fresh(pool.hash) && Holds(pool.strs, held, texts)
      invariant TextsAfter(texts, ops[i..]) == TextsAfter([], ops)
    {
      assert ops[i..][0] == ops[i] && ops[i..][1..] == ops[i + 1..];
      held := Perform(pool, held, ops[i], texts);
      texts := Texts(texts, ops[i]);
      i := i + 1;
    }
    SameIffEqual(pool.strs, pool.hashOf, held, texts);
    assert |held| == |texts| by { SameSize(pool.strs, held, texts); }
  }

  lemma NoneHeld(strs: seq<TString>)
    ensures Holds(strs, [], [])
  {
  }

  lemma SameSize(strs: seq<TString>, held: seq<int>, texts: seq<string>)
    requires Holds(strs, held, texts)
    ensures |held| == |texts|
  {
  }

  lemma SizeOf(strs: seq<TString>, heads: seq<int>, chains: seq<seq<int>>)
    requires Buckets(strs, heads, chains)
    ensures |heads| == |chains| > 0
  {
  }

  lemma GrownSelf(strs: seq<TString>, u: int)
    ensures Grown(strs, strs, u)
  {
  }

  lemma SameSelf(strs: seq<TString>)
    ensures SameStrings(strs, strs)
  {
  }

  lemma SameAt(a: seq<TString>, b: seq<TString>, u: int)
    requires SameStrings(a, b) && 0 <= u < |a| && a[u].TString?
    ensures |b| == |a| && SameString(a[u], b[u])
  {
  }

  lemma NonEmpty(strs: seq<TString>, heads: seq<int>, chains: seq<seq<int>>, left: seq<int>, rest: seq<seq<int>>,
      i: nat)
    requires Moving(strs, heads, chains, left, rest) && i < |left| == |rest| && left[i] != NULL
    ensures rest[i] != []
  {
    assert Chained(strs, left[i], rest[i]);
  }

  lemma Emptied(strs: seq<TString>, heads: seq<int>, chains: seq<seq<int>>, left: seq<int>, rest: seq<seq<int>>, i: nat)
    requires Moving(strs, heads, chains, left, rest) && i < |left| == |rest| && left[i] == NULL
    ensures rest[i] == []
  {
    HeadOf(strs, left[i], rest[i]);
  }

  lemma HeadOf(strs: seq<TString>, head: int, chain: seq<int>)
    requires Chained(strs, head, chain)
    ensures chain == [] <==> head == NULL
  {
    if |chain| > 0 { assert 0 <= chain[0]; }
  }

  lemma Relinked(a: seq<TString>, strs: seq<TString>, p: int, next: int)
    requires SameStrings(a, strs) && 0 <= p < |strs| && strs[p].TString?
    ensures SameStrings(a, strs[p := strs[p].(next := next)])
  {
  }

  function Condemned(strs: seq<TString>, dead: set<int>): (r: seq<TString>)
    ensures |r| == |strs|
    ensures forall u :: 0 <= u < |strs| ==>
              r[u] == if strs[u].TString? then TString(strs[u].text, strs[u].hash, strs[u].next, u in dead) else Freed
  {
    seq(|strs|, u requires 0 <= u < |strs| => if strs[u].TString? then
          TString(strs[u].text, strs[u].hash, strs[u].next, u in dead) else Freed)
  }

  lemma DeathKeeps(strs: seq<TString>, heads: seq<int>, chains: seq<seq<int>>, hashOf: string -> nat, dead: set<int>,
      pos: nat)
    requires Buckets(strs, heads, chains) && AllIn(strs, chains) && Canonical(strs, hashOf)
    ensures var r := Condemned(strs, dead);
            Buckets(r, heads, chains) && AllIn(r, chains) && Canonical(r, hashOf) && DeadAhead(r, |heads|, true, 0)
  {
    var r := Condemned(strs, dead);
    forall b | 0 <= b < |heads| ensures Chained(r, heads[b], chains[b]) && InBucket(r, chains[b], b, |heads|) {
      SameChain(strs, r, heads[b], chains[b], b, |heads|);
    }
  }

  predicate SameButLinks(a: TString, b: TString) { if a.TString? then SameString(a, b) else b.Freed? }

  /** In the swept bucket the dead strings before a place in its chain are freed. */
  ghost predicate SweptTo(a: seq<TString>, strs: seq<TString>, chain: seq<int>, k: nat, b: nat, size: nat)
    requires size > 0
  {
    && |strs| == |a| && k <= |chain|
    && (forall u :: 0 <= u < |a| ==>
          SameButLinks(a[u], strs[u]) || (a[u].TString? && a[u].dead && a[u].hash % size == b && strs[u].Freed?))
    && forall i :: 0 <= i < k ==> 0 <= chain[i] < |strs| && strs[chain[i]].TString? && !strs[chain[i]].dead
  }

  /** Exactly the dead strings of a bucket are freed. */
  ghost predicate BucketSwept(a: seq<TString>, strs: seq<TString>, b: nat, size: nat)
    requires size > 0
  {
    && |strs| == |a|
    && forall u :: 0 <= u < |a| ==>
         if a[u].TString? && a[u].dead && a[u].hash % size == b then strs[u].Freed? else SameButLinks(a[u], strs[u])
  }

  lemma StartSweep(strs: seq<TString>, heads: seq<int>, chains: seq<seq<int>>, pos: nat)
    requires Buckets(strs, heads, chains) && DeadAhead(strs, |heads|, true, pos)
    ensures pos < |heads| == |chains| && SweptTo(strs, strs, chains[pos], 0, pos, |heads|)
  {
  }

  lemma NotFreed(a: seq<TString>, strs: seq<TString>, chain: seq<int>, k: nat, b: nat, size: nat)
    requires size > 0 && SweptTo(a, strs, chain, k, b, size) && k < |chain| && 0 <= chain[k] < |strs|
             && strs[chain[k]].TString? && !strs[chain[k]].dead
    ensures SweptTo(a, strs, chain, k + 1, b, size)
  {
  }

  lemma OneFreed(a: seq<TString>, strs: seq<TString>, heads: seq<int>, chains: seq<seq<int>>, k: nat, b: nat)
    requires Buckets(strs, heads, chains) && b < |heads| && k < |chains[b]|
             && SweptTo(a, strs, chains[b], k, b, |heads|)
    requires var u := chains[b][k]; 0 <= u < |strs| && strs[u].TString? && strs[u].dead && strs[u].hash % |heads| == b
    requires k > 0 ==> var prev := chains[b][k - 1]; 0 <= prev < |strs| && strs[prev].TString? && prev != chains[b][k]
    ensures var u, prev, cut := chains[b][k], if k == 0 then NULL
            else chains[b][k - 1], chains[b][..k] + chains[b][k + 1..];
            SweptTo(a, Unlinked(strs, u, prev), cut, k, b, |heads|)
  {
    var u, prev, cut := chains[b][k], if k == 0 then NULL else chains[b][k - 1], chains[b][..k] + chains[b][k + 1..];
    assert Chained(strs, heads[b], chains[b]);
    OnlyThose(strs, u, prev);
    hide Unlinked, Buckets;
    forall i | 0 <= i < k ensures cut[i] == chains[b][i] && cut[i] != u {}
  }

  lemma DeadWithout(strs: seq<TString>, u: int, prev: int, size: nat, sweeping: bool, pos: nat)
    requires size > 0 && 0 <= u < |strs| && strs[u].TString?
             && (prev != NULL ==> 0 <= prev < |strs| && strs[prev].TString? && prev != u)
    requires DeadAhead(strs, size, sweeping, pos)
    ensures DeadAhead(Unlinked(strs, u, prev), size, sweeping, pos)
  {
  }

  lemma EndSweep(a: seq<TString>, strs: seq<TString>, heads: seq<int>, chains: seq<seq<int>>, b: nat, sweeping: bool)
    requires Buckets(strs, heads, chains) && AllIn(strs, chains) && b < |heads|
             && SweptTo(a, strs, chains[b], |chains[b]|, b, |heads|)
    requires sweeping && DeadAhead(strs, |heads|, sweeping, b)
    ensures DeadAhead(strs, |heads|, b + 1 < |heads|, b + 1)
    ensures BucketSwept(a, strs, b, |heads|)
  {
    forall u | 0 <= u < |strs| && strs[u].TString? && strs[u].hash % |heads| == b ensures !strs[u].dead {
      assert u in chains[b];
      var i :| 0 <= i < |chains[b]| && chains[b][i] == u;
    }
  }
}
