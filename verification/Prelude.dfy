/** Small shared vocabulary: optional values, instants and sorting. */
module Prelude {

  datatype Option<+T> = None | Some(value: T)

  /** Instants and durations are whole microseconds, the resolution of the source's clock. */
  type Time = int
  type Duration = int

  const SECOND: Duration := 1_000_000
  const MINUTE: Duration := 60 * SECOND

  function Max(a: int, b: int): int {
    if a < b then b else a
  }

  function Min(a: int, b: int): int {
    if a < b then a else b
  }

  /** True when `when` is not before an optional lower bound; no bound holds nothing back. */
  predicate AtOrAfter(when: Time, bound: Option<Time>) {
    bound.None? || when >= bound.value
  }

  /** Raise an optional watermark to `at`, never lowering it. */
  function Raised(mark: Option<Time>, at: Time): Option<Time> {
    if mark.None? || mark.value < at then Some(at) else mark
  }

  function Lookup<K, V>(m: map<K, V>, k: K): Option<V> {
    if k in m then Some(m[k]) else None
  }

  // ── Sorting ───────────────────────────────────────────────────────────────

  /** Code-point order on strings. */
  predicate StringLe(a: string, b: string) {
    if a == "" then true
    else if b == "" then false
    else if a[0] != b[0] then a[0] < b[0]
    else StringLe(a[1..], b[1..])
  }

  function Insert<T>(x: T, sorted: seq<T>, le: (T, T) -> bool): (r: seq<T>)
    ensures multiset(r) == multiset(sorted) + multiset{x}
    ensures |r| == |sorted| + 1
  {
    if sorted == [] then [x]
    else if le(x, sorted[0]) then [x] + sorted
    else
      assert sorted == [sorted[0]] + sorted[1..];
      [sorted[0]] + Insert(x, sorted[1..], le)
  }

  /** Insertion sort: a permutation of its input. */
  function Sort<T>(s: seq<T>, le: (T, T) -> bool): (r: seq<T>)
    ensures multiset(r) == multiset(s)
    ensures |r| == |s|
  {
    if s == [] then []
    else
      assert s == [s[0]] + s[1..];
      Insert(s[0], Sort(s[1..], le), le)
  }

  lemma SameMultisetSameElements<T>(a: seq<T>, b: seq<T>)
    requires multiset(a) == multiset(b)
    ensures forall x :: x in a <==> x in b
  {
    forall x ensures x in a <==> x in b {
      assert x in a <==> x in multiset(a);
      assert x in b <==> x in multiset(b);
    }
  }
}
