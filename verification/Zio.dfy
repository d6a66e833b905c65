/** Buffered input: a stream of bytes that a reader hands out in blocks. */
module Zio {
  import opened Bytecode

  const EOZ: int := -1

  /** What the reader still gives: an empty block ends the stream. */
  function Stream(blocks: seq<Bytes>): Bytes {
    if blocks == [] || blocks[0] == [] then [] else blocks[0] + Stream(blocks[1..])
  }

  function Joined(blocks: seq<Bytes>): Bytes {
    if blocks == [] then [] else blocks[0] + Joined(blocks[1..])
  }

  /** However a stream is cut into nonempty blocks, it is the same stream. */
  lemma {:induction false} CutAnyhow(blocks: seq<Bytes>)
    requires forall i :: 0 <= i < |blocks| ==> blocks[i] != []
    ensures Stream(blocks) == Joined(blocks)
  {
    if blocks != [] {
      CutAnyhow(blocks[1..]);
    }
  }

  /** Bytes copied out of the buffer. */
  lemma Copied(buff: Bytes, p: nat, m: nat, rest: Bytes)
    requires p + m <= |buff|
    ensures buff[p..] + rest == buff[p..p + m] + (buff[p + m..] + rest)
  {
    assert buff[p..] == buff[p..p + m] + buff[p + m..];
  }

  lemma Further(all: Bytes, b: Bytes, piece: Bytes, rest: Bytes)
    requires all == b + (piece + rest)
    ensures all == (b + piece) + rest
  {
  }

  lemma Cut(all: Bytes, b: Bytes, rest: Bytes)
    requires all == b + rest
    ensures all[..|b|] == b && all[|b|..] == rest && (rest == [] ==> b == all)
  {
  }

  class ZIO {
    var n: nat  // bytes still unread
    var buff: Bytes
    var p: nat  // current position in the buffer
    var blocks: seq<Bytes>

    ghost predicate Valid()
      reads this
    {
      p + n == |buff|
    }

    /** All bytes that are still to be read. */
    ghost function Ahead(): Bytes
      requires Valid()
      reads this
    {
      buff[p..] + Stream(blocks)
    }

    constructor (given: seq<Bytes>)
      ensures Valid() && Ahead() == Stream(given)
    {
      n, buff, p, blocks := 0, [], 0, given;
    }

    /** Get a block; its first byte is returned and removed. */
    method Fill() returns (c: int)
      requires Valid() && n == 0
      modifies this
      ensures Valid() && (c == EOZ <==> old(Ahead()) == [])
      ensures c != EOZ ==> c == old(Ahead())[0] && Ahead() == old(Ahead())[1..] && p > 0 && buff[p - 1] == c
    {
      assert buff[p..] == [];
      if blocks == [] {
        return EOZ;
      }
      var block := blocks[0];
      blocks := blocks[1..];
      if |block| == 0 {
        return EOZ;
      }
      n, buff, p := |block| - 1, block, 0;
      c := buff[p];
      p := p + 1;
    }

    method Lookahead() returns (c: int)
      requires Valid()
      modifies this
      ensures Valid() && (c == EOZ <==> old(Ahead()) == [])
      ensures c != EOZ ==> n > 0 && Ahead() == old(Ahead()) && c == Ahead()[0]
    {
      if n == 0 {
        c := Fill();
        if c == EOZ {
          return;
        }
        ghost var rest := Ahead();
        n := n + 1;
        p := p - 1;
        assert buff[p..] == [buff[p]] + buff[p + 1..];
        assert Ahead() == [buff[p]] + rest;
      }
      c := buff[p];
    }

    /** Copy what the buffer has of some bytes. */
    method Copy(wanted: nat) returns (b: Bytes)
      requires Valid() && wanted > 0 && n > 0
      modifies this
      ensures Valid() && 0 < |b| <= wanted && old(Ahead()) == b + Ahead()
    {
      hide Stream;
      var m := if wanted <= n then wanted else n;
      Copied(buff, p, m, Stream(blocks));
      b := buff[p..p + m];
      n, p := n - m, p + m;
    }

    /** Read some bytes; the number of missing ones is returned. */
    method Read(size: nat) returns (missing: nat, b: Bytes)
      requires Valid()
      modifies this
      ensures Valid()
      ensures missing == if size <= |old(Ahead())| then 0 else size - |old(Ahead())|
      ensures missing == 0 ==> b == old(Ahead())[..size] && Ahead() == old(Ahead())[size..]
      ensures missing > 0 ==> b == old(Ahead())
    {
      hide Ahead;
      b := [];
      missing := size;
      ghost var all := Ahead();
      while missing > 0
        invariant Valid() && missing <= size && |b| == size - missing && all == b + Ahead()
      {
        var c := Lookahead();
        if c == EOZ {
          Cut(all, b, []);
          return;
        }
        var piece := Copy(missing);
        Further(all, b, piece, Ahead());
        b := b + piece;
        missing := missing - |piece|;
      }
      Cut(all, b, Ahead());
    }
  }
}
