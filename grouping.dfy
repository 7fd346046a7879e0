/**
 * The dictionary-of-lists idiom the server uses four times:
 *
 *   rows.forEach(row => { if (!dict[key(row)]) dict[key(row)] = []; dict[key(row)].push(f(row)); })
 *
 * `GroupInto` is that loop; `Select` is its specification for one key (the
 * rows with that key, mapped, in input order) and `Lookup` is `dict[k] || []`.
 * The lemmas say where each row lands: exactly once, in its own key's list,
 * at a position that keeps the input order.
 */
module Grouping {

  /** `dict[k] || []`: a missing key reads as the empty list. */
  function Lookup<K, V>(m: map<K, seq<V>>, k: K): seq<V>
  {
    if k in m then m[k] else []
  }

  /**
   * `if (!dict[k]) dict[k] = []; dict[k].push(v)`: `v` is appended to the
   * list under `k`, which is created when missing; no other list changes.
   */
  function Push<K(==, !new), V>(m: map<K, seq<V>>, k: K, v: V): (r: map<K, seq<V>>)
    ensures forall k' :: Lookup(r, k') == if k' == k then Lookup(m, k) + [v] else Lookup(m, k')
    ensures forall k' :: k' in r <==> k' in m || k' == k
  {
    m[k := Lookup(m, k) + [v]]
  }

  /** The rows of `s` whose key is `k`, mapped by `f`, in input order. */
  function Select<T, K(==), U>(s: seq<T>, key: T -> K, k: K, f: T -> U): seq<U>
  {
    if s == [] then []
    else Select(s[..|s| - 1], key, k, f) + (if key(s[|s| - 1]) == k then [f(s[|s| - 1])] else [])
  }

  /** The number of rows of `s` whose key is `k`. */
  function Count<T, K(==)>(s: seq<T>, key: T -> K, k: K): nat
  {
    if s == [] then 0
    else Count(s[..|s| - 1], key, k) + (if key(s[|s| - 1]) == k then 1 else 0)
  }

  /**
   * The grouping loop: every row of `s` is appended, mapped by `f`, to the
   * list under its key; lists under other keys are untouched. A key is
   * present afterwards iff it was before or some row carries it.
   */
  method GroupInto<T, K(==, !new), U>(m: map<K, seq<U>>, s: seq<T>, key: T -> K, f: T -> U)
    returns (r: map<K, seq<U>>)
    ensures forall k :: Lookup(r, k) == Lookup(m, k) + Select(s, key, k, f)
    ensures forall k :: k in r <==> k in m || Count(s, key, k) > 0
  {
    r := m;
    var i := 0;
    while i < |s|
      invariant 0 <= i <= |s|
      invariant forall k :: Lookup(r, k) == Lookup(m, k) + Select(s[..i], key, k, f)
      invariant forall k :: k in r <==> k in m || Count(s[..i], key, k) > 0
    {
      ghost var before := r;
      r := Push(r, key(s[i]), f(s[i]));
      GroupStep(m, before, r, s, key, f, i);
      i := i + 1;
    }
    assert s[..|s|] == s;
  }

  /** One pass of the grouping loop keeps both loop invariants. */
  lemma GroupStep<T, K(!new), U>(m: map<K, seq<U>>, before: map<K, seq<U>>, r: map<K, seq<U>>,
                           s: seq<T>, key: T -> K, f: T -> U, i: nat)
    requires i < |s|
    requires r == Push(before, key(s[i]), f(s[i]))
    requires forall k :: Lookup(before, k) == Lookup(m, k) + Select(s[..i], key, k, f)
    requires forall k :: k in before <==> k in m || Count(s[..i], key, k) > 0
    ensures forall k :: Lookup(r, k) == Lookup(m, k) + Select(s[..i + 1], key, k, f)
    ensures forall k :: k in r <==> k in m || Count(s[..i + 1], key, k) > 0
  {
    forall k ensures Lookup(r, k) == Lookup(m, k) + Select(s[..i + 1], key, k, f)
                  && (k in r <==> k in m || Count(s[..i + 1], key, k) > 0)
    {
      SelectStep(s, key, k, f, i);
      if k == key(s[i]) {
        AppendAssoc(Lookup(m, k), Select(s[..i], key, k, f), [f(s[i])]);
      }
    }
  }

  /** Concatenation is associative. */
  lemma AppendAssoc<V>(a: seq<V>, b: seq<V>, c: seq<V>)
    ensures (a + b) + c == a + (b + c)
  {
  }

  /** Taking one more row adds its entry, under its key only. */
  lemma SelectStep<T, K, U>(s: seq<T>, key: T -> K, k: K, f: T -> U, i: nat)
    requires i < |s|
    ensures Select(s[..i + 1], key, k, f) == Select(s[..i], key, k, f) + (if key(s[i]) == k then [f(s[i])] else [])
    ensures Count(s[..i + 1], key, k) == Count(s[..i], key, k) + (if key(s[i]) == k then 1 else 0)
  {
    assert s[..i + 1][..i] == s[..i];
  }

  /** One entry per matching row. */
  lemma {:induction false} SelectLength<T, K, U>(s: seq<T>, key: T -> K, k: K, f: T -> U)
    ensures |Select(s, key, k, f)| == Count(s, key, k)
    decreases |s|
  {
    if s != [] {
      SelectLength(s[..|s| - 1], key, k, f);
    }
  }

  /** Adding rows at the end only adds entries at the end. */
  lemma {:induction false} SelectPrefix<T, K, U>(s: seq<T>, key: T -> K, k: K, f: T -> U, i: nat)
    requires i <= |s|
    ensures Select(s[..i], key, k, f) <= Select(s, key, k, f)
    decreases |s| - i
  {
    if i < |s| {
      SelectPrefix(s, key, k, f, i + 1);
      assert s[..i + 1][..i] == s[..i];
    } else {
      assert s[..i] == s;
    }
  }

  /** Counting over a longer prefix never counts fewer rows. */
  lemma {:induction false} CountMonotone<T, K>(s: seq<T>, key: T -> K, k: K, i: nat, j: nat)
    requires i <= j <= |s|
    ensures Count(s[..i], key, k) <= Count(s[..j], key, k)
    decreases j - i
  {
    if i < j {
      CountMonotone(s, key, k, i, j - 1);
      assert s[..j][..j - 1] == s[..j - 1];
    }
  }

  /**
   * Row `j` lands in the list of its own key, at the position given by the
   * number of earlier rows with that key.
   */
  lemma SelectRank<T, K, U>(s: seq<T>, key: T -> K, f: T -> U, j: nat)
    requires j < |s|
    ensures Count(s[..j], key, key(s[j])) < |Select(s, key, key(s[j]), f)|
    ensures Select(s, key, key(s[j]), f)[Count(s[..j], key, key(s[j]))] == f(s[j])
  {
    var k := key(s[j]);
    assert s[..j + 1][..j] == s[..j];
    SelectLength(s[..j], key, k, f);
    SelectPrefix(s, key, k, f, j + 1);
  }

  /**
   * Every entry of a key's list comes from a row with that key, and the
   * entry's position is the number of earlier rows with that key.
   */
  lemma {:induction false} SelectOrigin<T, K, U>(s: seq<T>, key: T -> K, k: K, f: T -> U, n: nat)
    requires n < |Select(s, key, k, f)|
    ensures exists j :: 0 <= j < |s| && key(s[j]) == k && Count(s[..j], key, k) == n
                        && Select(s, key, k, f)[n] == f(s[j])
    decreases |s|
  {
    var init := s[..|s| - 1];
    SelectLength(init, key, k, f);
    if n < |Select(init, key, k, f)| {
      SelectOrigin(init, key, k, f, n);
      var j :| 0 <= j < |init| && key(init[j]) == k && Count(init[..j], key, k) == n
                && Select(init, key, k, f)[n] == f(init[j]);
      assert init[..j] == s[..j];
    } else {
      var j := |s| - 1;
      assert init == s[..j];
      assert key(s[j]) == k && Count(s[..j], key, k) == n;
    }
  }

  /**
   * Entries keep the input order: the entries at positions `a < b` of a key's
   * list come from rows `ja < jb`.
   */
  lemma SelectKeepsOrder<T, K, U>(s: seq<T>, key: T -> K, k: K, f: T -> U, a: nat, b: nat)
    requires a < b < |Select(s, key, k, f)|
    ensures exists ja, jb :: 0 <= ja < jb < |s| && key(s[ja]) == k && key(s[jb]) == k
                             && Select(s, key, k, f)[a] == f(s[ja]) && Select(s, key, k, f)[b] == f(s[jb])
  {
    SelectOrigin(s, key, k, f, a);
    SelectOrigin(s, key, k, f, b);
    var ja :| 0 <= ja < |s| && key(s[ja]) == k && Count(s[..ja], key, k) == a
              && Select(s, key, k, f)[a] == f(s[ja]);
    var jb :| 0 <= jb < |s| && key(s[jb]) == k && Count(s[..jb], key, k) == b
              && Select(s, key, k, f)[b] == f(s[jb]);
    if jb <= ja {
      CountMonotone(s, key, k, jb, ja);
    }
  }

  /** A key's list is empty iff no row carries the key. */
  lemma {:induction false} SelectEmpty<T, K, U>(s: seq<T>, key: T -> K, k: K, f: T -> U)
    ensures Select(s, key, k, f) == [] <==> forall j :: 0 <= j < |s| ==> key(s[j]) != k
    decreases |s|
  {
    if s != [] {
      var init := s[..|s| - 1];
      SelectEmpty(init, key, k, f);
      forall j | 0 <= j < |init| ensures init[j] == s[j] { }
    }
  }

  /** Earlier rows with the same key land at earlier positions. */
  lemma RankIncreases<T, K>(s: seq<T>, key: T -> K, i: nat, j: nat)
    requires i < j <= |s|
    ensures Count(s[..i], key, key(s[i])) < Count(s[..j], key, key(s[i]))
  {
    assert s[..i + 1][..i] == s[..i];
    CountMonotone(s, key, key(s[i]), i + 1, j);
  }
}
