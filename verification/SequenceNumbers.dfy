/** The host's sequence numbers: a stack of free numbers and the values stored under the
    numbers in use. Each method is one critical section. */
module SequenceNumbers {

  /** The values stored under a number, by two names. */
  type Content = map<string, map<string, string>>

  type Store = map<int, Content>

  /** The value stored under a number, or the empty string. */
  function Stored(values: Store, n: int, k1: string, k2: string): string {
    if n in values && k1 in values[n] && k2 in values[n][k1] then values[n][k1][k2] else ""
  }

  function WithNode(values: Store, n: int): Store {
    if n in values then values else values[n := map[]]
  }

  function WithName(c: Content, k1: string): Content {
    if k1 in c then c else c[k1 := map[]]
  }

  function WithValue(values: Store, n: int, k1: string, k2: string, v: string): (r: Store)
    requires n in values
  {
    var c := WithName(values[n], k1);
    values[n := c[k1 := c[k1][k2 := v]]]
  }

  /** Only the one value is new. */
  lemma ValueStored(values: Store, n: int, k1: string, k2: string, v: string, m: int, j1: string, j2: string)
    requires n in values
    ensures Stored(WithValue(values, n, k1, k2, v), m, j1, j2) ==
            if m == n && j1 == k1 && j2 == k2 then v else Stored(values, m, j1, j2)
    ensures WithValue(values, n, k1, k2, v).Keys == values.Keys
  {
  }

  lemma NodeStored(values: Store, n: int, m: int, j1: string, j2: string)
    ensures Stored(WithNode(values, n), m, j1, j2) == Stored(values, m, j1, j2)
    ensures WithNode(values, n).Keys == values.Keys + {n}
  {
  }

  /** The top number, and the stack without it: a new one is put there if it was the last. */
  function Issued(stack: seq<int>): (int, seq<int>)
    requires stack != []
  {
    var n, rest := stack[|stack| - 1], stack[..|stack| - 1];
    (n, if rest == [] then [n + 1] else rest)
  }

  class Host {
    var stack: seq<int>
    var values: Store

    constructor ()
      ensures stack == [1] && values == map[]
    {
      stack, values := [1], map[];
    }

    method GetSeqno() returns (current: int)
      requires stack != []
      modifies this
      ensures stack != [] && (current, stack) == Issued(old(stack)) && values == old(values)
      ensures current == old(stack)[|old(stack)| - 1]
      ensures stack == if |old(stack)| == 1 then [current + 1] else old(stack)[..|old(stack)| - 1]
    {
      current := stack[|stack| - 1];
      stack := stack[..|stack| - 1];
      if |stack| == 0 {
        stack := [current + 1];
      }
    }

    /** A number that was neither read nor stored under since it was issued has no values,
        and is not put back. */
    method ClsSeqno(n: int) returns (ok: bool)
      modifies this
      ensures ok == (n in old(values)) && values == old(values) - {n}
      ensures stack == if ok then old(stack) + [n] else old(stack)
    {
      ok := n in values;
      if ok {
        values := values - {n};
        stack := stack + [n];
      } else {
        assert values - {n} == values;
      }
    }

    /** Reading makes places for what is not there. */
    method GetValue(n: int, k1: string, k2: string) returns (v: string)
      modifies this`values
      ensures v == Stored(old(values), n, k1, k2) && values == WithValue(WithNode(old(values), n), n, k1, k2, v)
      ensures forall m, j1, j2 :: Stored(values, m, j1, j2) == Stored(old(values), m, j1, j2)
    {
      v := Stored(values, n, k1, k2);
      ReadKeeps(values, n, k1, k2);
      values := WithNode(values, n);
      values := WithValue(values, n, k1, k2, v);
    }

    method SetValue(n: int, k1: string, k2: string, v: string)
      modifies this`values
      ensures values == WithValue(WithNode(old(values), n), n, k1, k2, v)
      ensures forall m, j1, j2 :: Stored(values, m, j1, j2) == if m == n && j1 == k1 && j2 == k2 then v
                                  else Stored(old(values), m, j1, j2)
    {
      SetChanges(values, n, k1, k2, v);
      values := WithNode(values, n);
      values := WithValue(values, n, k1, k2, v);
    }
  }

  lemma SetChanges(values: Store, n: int, k1: string, k2: string, v: string)
    ensures forall m, j1, j2 :: Stored(WithValue(WithNode(values, n), n, k1, k2, v), m, j1, j2) ==
                                if m == n && j1 == k1 && j2 == k2 then v else Stored(values, m, j1, j2)
  {
    forall m, j1, j2 ensures Stored(WithValue(WithNode(values, n), n, k1, k2, v), m, j1, j2) ==
                             if m == n && j1 == k1 && j2 == k2 then v else Stored(values, m, j1, j2) {
      NodeStored(values, n, m, j1, j2);
      ValueStored(WithNode(values, n), n, k1, k2, v, m, j1, j2);
    }
  }

  lemma ReadKeeps(values: Store, n: int, k1: string, k2: string)
    ensures forall m, j1, j2 :: Stored(WithValue(WithNode(values, n), n, k1, k2, Stored(values, n, k1, k2)), m, j1,
                                       j2) == Stored(values, m, j1, j2)
  {
    SetChanges(values, n, k1, k2, Stored(values, n, k1, k2));
  }
}
