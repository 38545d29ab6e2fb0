/** A map made up of a base and of named parts that do not overlap, and sums
    over maps. */
module MapParts {

  predicate InPart<K(==), V, N(==)>(parts: map<N, map<K, V>>, n: N, k: K) {
    n in parts && k in parts[n]
  }

  ghost predicate InSome<K, V, N(!new)>(parts: map<N, map<K, V>>, k: K) {
    exists n :: InPart(parts, n, k)
  }

  /** `m` is `base` together with all of `parts`, no key belonging to two. */
  ghost predicate MadeOf<K(!new), V, N(!new)>(m: map<K, V>, base: map<K, V>, parts: map<N, map<K, V>>) {
    && (forall k :: k in base ==> k in m && m[k] == base[k])
    && (forall n, k :: InPart(parts, n, k) ==> k !in base && k in m && m[k] == parts[n][k])
    && (forall n, n', k :: InPart(parts, n, k) && InPart(parts, n', k) ==> n == n')
    && (forall k :: k in m ==> k in base || InSome(parts, k))
  }

  lemma AddedPart<K(!new), V, N(!new)>(parts: map<N, map<K, V>>, n: N, part: map<K, V>, n': N, k: K)
    requires n !in parts
    ensures InPart(parts[n := part], n', k) <==> InPart(parts, n', k) || (n' == n && k in part)
  {
  }

  lemma AddedKey<K(!new), V, N(!new)>(m: map<K, V>, base: map<K, V>, parts: map<N, map<K, V>>, n: N, part: map<K, V>, k: K)
    requires MadeOf(m, base, parts) && n !in parts && k in m + part
    ensures k in base || InSome(parts[n := part], k)
  {
    if k in part {
      AddedPart(parts, n, part, n, k);
    } else if k !in base {
      assert InSome(parts, k);
      var n' :| InPart(parts, n', k);
      AddedPart(parts, n, part, n', k);
    }
  }

  lemma AddPart<K(!new), V, N(!new)>(m: map<K, V>, base: map<K, V>, parts: map<N, map<K, V>>, n: N, part: map<K, V>)
    requires MadeOf(m, base, parts) && n !in parts && m.Keys !! part.Keys
    ensures MadeOf(m + part, base, parts[n := part])
  {
    var m', parts' := m + part, parts[n := part];
    forall k | k in m' ensures k in base || InSome(parts', k) {
      AddedKey(m, base, parts, n, part, k);
    }
    forall n', k | InPart(parts', n', k) ensures k !in base && k in m' && m'[k] == parts'[n'][k] {
      AddedPart(parts, n, part, n', k);
    }
    forall n1, n2, k | InPart(parts', n1, k) && InPart(parts', n2, k) ensures n1 == n2 {
      AddedPart(parts, n, part, n1, k);
      AddedPart(parts, n, part, n2, k);
    }
  }

  lemma LeftPart<K(!new), V, N(!new)>(parts: map<N, map<K, V>>, n: N, n': N, k: K)
    ensures InPart(parts - {n}, n', k) <==> InPart(parts, n', k) && n' != n
  {
  }

  lemma LeftKey<K(!new), V, N(!new)>(m: map<K, V>, base: map<K, V>, parts: map<N, map<K, V>>, n: N, k: K)
    requires MadeOf(m, base, parts) && n in parts && k in m - parts[n].Keys
    ensures k in base || InSome(parts - {n}, k)
  {
    if k !in base {
      assert InSome(parts, k);
      var n' :| InPart(parts, n', k);
      LeftPart(parts, n, n', k);
    }
  }

  lemma DropPart<K(!new), V, N(!new)>(m: map<K, V>, base: map<K, V>, parts: map<N, map<K, V>>, n: N)
    requires MadeOf(m, base, parts) && n in parts
    ensures MadeOf(m - parts[n].Keys, base, parts - {n})
  {
    var m', parts' := m - parts[n].Keys, parts - {n};
    forall k | k in m' ensures k in base || InSome(parts', k) {
      LeftKey(m, base, parts, n, k);
    }
    forall k | k in base ensures k in m' && m'[k] == base[k] {
      assert !InPart(parts, n, k);
    }
    forall n', k | InPart(parts', n', k) ensures k !in base && k in m' && m'[k] == parts'[n'][k] {
      LeftPart(parts, n, n', k);
      assert InPart(parts, n, k) ==> n == n';
    }
    forall n1, n2, k | InPart(parts', n1, k) && InPart(parts', n2, k) ensures n1 == n2 {
      LeftPart(parts, n, n1, k);
      LeftPart(parts, n, n2, k);
    }
  }

  lemma PartIsThere<K(!new), V, N(!new)>(m: map<K, V>, base: map<K, V>, parts: map<N, map<K, V>>, n: N)
    requires MadeOf(m, base, parts) && n in parts
    ensures m == (m - parts[n].Keys) + parts[n]
  {
    forall k | k in parts[n] ensures k in m && m[k] == parts[n][k] {
      assert InPart(parts, n, k);
    }
  }

  lemma NoParts<K(!new), V, N(!new)>(m: map<K, V>, base: map<K, V>, parts: map<N, map<K, V>>)
    requires MadeOf(m, base, parts) && parts == map[]
    ensures m == base
  {
    forall k | k in m ensures k in base {
      assert !InSome(parts, k);
    }
  }

  ghost function SumBy<K(!new), V>(m: map<K, V>, f: V -> nat): nat {
    if m == map[] then 0
    else
      var k :| k in m;
      f(m[k]) + SumBy(m - {k}, f)
  }

  /** The sum does not depend on the order in which the keys are taken. */
  lemma {:induction false} SumRemove<K(!new), V>(m: map<K, V>, f: V -> nat, k: K)
    requires k in m
    ensures SumBy(m, f) == f(m[k]) + SumBy(m - {k}, f)
    decreases m
  {
    var first :| first in m && SumBy(m, f) == f(m[first]) + SumBy(m - {first}, f);
    if first != k {
      SumRemove(m - {first}, f, k);
      SumRemove(m - {k}, f, first);
      assert m - {first} - {k} == m - {k} - {first};
    }
  }

  lemma SumAdd<K(!new), V>(m: map<K, V>, f: V -> nat, k: K, v: V)
    requires k !in m
    ensures SumBy(m[k := v], f) == SumBy(m, f) + f(v)
  {
    SumRemove(m[k := v], f, k);
    assert m[k := v] - {k} == m;
  }

  lemma SumReplace<K(!new), V>(m: map<K, V>, f: V -> nat, k: K, v: V)
    requires k in m
    ensures SumBy(m[k := v], f) + f(m[k]) == SumBy(m, f) + f(v)
  {
    SumRemove(m, f, k);
    SumRemove(m[k := v], f, k);
    assert m[k := v] - {k} == m - {k};
  }
}
