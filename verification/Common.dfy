/** Small vocabulary shared by every module. */
module Common {
  datatype Option<+T> = None | Some(value: T) {
    function GetOr(default: T): T {
      if Some? then value else default
    }
  }

  /** The entry of `m` at `k`, if there is one. */
  function Lookup<K, V>(m: map<K, V>, k: K): Option<V> {
    if k in m then Some(m[k]) else None
  }

  /** `m` with the entry at `k` replaced, created or (for `None`) deleted. */
  function Put<K, V>(m: map<K, V>, k: K, v: Option<V>): map<K, V> {
    if v.Some? then m[k := v.value] else m - {k}
  }

  lemma Overwrite<K, V>(m: map<K, V>, k: K, a: V, b: V)
    ensures m[k := a][k := b] == m[k := b]
  {
  }

  function Max(a: int, b: int): int {
    if b > a then b else a
  }

  /** No element occurs twice. */
  ghost predicate Distinct<T>(s: seq<T>) {
    forall i, j :: 0 <= i < j < |s| ==> s[i] != s[j]
  }

  /** Induction from `m` to `n`. */
  lemma {:induction false} UpTo(holds: nat -> bool, m: nat, n: nat)
    requires m <= n && holds(m) && forall k: nat :: m <= k < n && holds(k) ==> holds(k + 1)
    ensures holds(n)
  {
    if m < n {
      UpTo(holds, m, n - 1);
      assert holds(n - 1 + 1);
    }
  }
}
