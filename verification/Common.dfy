/** What several parts of the model share. */
module Common {

  datatype Option<+T> = None | Some(value: T)

  /** The limits of integers and of nested C calls. */
  const MAX_INT: int := 0x7fff_fffd
  const LUAI_MAXCCALLS: nat := 200

  ghost predicate NoDuplicates<T>(s: seq<T>) {
    forall i, j :: 0 <= i < j < |s| ==> s[i] != s[j]
  }
}
