/** The Some/None type for nullable fields, and the minimum and maximum of integers. */
module Prelude {

  datatype Option<+T> = None | Some(value: T) {

    /** The SQL `coalesce` of this value and a default. */
    function GetOr(default: T): T {
      match this
      case Some(v) => v
      case None => default
    }
  }

  function Min(a: int, b: int): int {
    if a < b then a else b
  }

  function Max(a: int, b: int): int {
    if a < b then b else a
  }

  predicate Distinct<T(==)>(items: seq<T>) {
    forall i, j :: 0 <= i < j < |items| ==> items[i] != items[j]
  }

  ghost predicate IsPreorder<K(!new)>(keys: set<K>, before: (K, K) -> bool) {
    && (forall a, b :: a in keys && b in keys ==> before(a, b) || before(b, a))
    && (forall a, b, c :: a in keys && b in keys && c in keys && before(a, b) && before(b, c) ==> before(a, c))
  }

  /** Whatever total order a query sorts by, some key comes first. */
  lemma FirstExists<K(!new)>(keys: set<K>, before: (K, K) -> bool) returns (first: K)
    requires keys != {} && IsPreorder(keys, before)
    ensures first in keys && forall key :: key in keys ==> before(first, key)
  {
    var one :| one in keys;
    if keys == {one} {
      first := one;
    } else {
      first := FirstExists(keys - {one}, before);
      assert forall key :: key in keys ==> key == one || key in keys - {one};
      if before(one, first) {
        first := one;
      }
    }
  }
}
