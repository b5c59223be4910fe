/** The reference model of the ordered map: a sequence of elements in strictly
    increasing key order, searched and edited from the front. */
module SortedMap {

  datatype Option<+T> = None | Some(value: T) {
    function GetOr(default: T): T {
      match this
      case Some(v) => v
      case None => default
    }
  }

  /** Tree23Elm: a key with its value. */
  datatype Elm<K, V> = Elm(key: K, val: V)

  /** Always true: names the triples of keys for which `TotalOrder` is asked for transitivity. */
  ghost predicate Triple<K>(a: K, b: K, c: K) { true }

  /** What a key class has to guarantee about its `compare`: a total order up to equivalence. */
  ghost predicate TotalOrder<K(!new)>(cmp: (K, K) -> int) {
    && (forall a :: cmp(a, a) == 0)
    && (forall a, b {:trigger cmp(a, b)} :: cmp(a, b) < 0 <==> cmp(b, a) > 0)
    && (forall a, b, c {:trigger Triple(a, b, c)} ::
          Triple(a, b, c) && cmp(a, b) <= 0 && cmp(b, c) <= 0 ==> cmp(a, c) <= 0)
  }

  lemma StrictTransitive<K(!new)>(cmp: (K, K) -> int, a: K, b: K, c: K)
    requires TotalOrder(cmp)
    ensures cmp(a, b) < 0 && cmp(b, c) <= 0 ==> cmp(a, c) < 0
    ensures cmp(a, b) <= 0 && cmp(b, c) < 0 ==> cmp(a, c) < 0
    ensures cmp(a, b) == 0 ==> (cmp(a, c) == 0 <==> cmp(b, c) == 0)
  {
    assert Triple(a, b, c) && Triple(c, a, b) && Triple(b, c, a) && Triple(b, a, c) && Triple(c, b, a);
  }

  ghost predicate Sorted<K, V>(cmp: (K, K) -> int, s: seq<Elm<K, V>>) {
    forall i, j :: 0 <= i < j < |s| ==> cmp(s[i].key, s[j].key) < 0
  }

  ghost function Get<K, V>(cmp: (K, K) -> int, s: seq<Elm<K, V>>, k: K): Option<V> {
    if s == [] then None
    else if cmp(k, s[0].key) == 0 then Some(s[0].val)
    else Get(cmp, s[1..], k)
  }

  ghost function Put<K, V>(cmp: (K, K) -> int, s: seq<Elm<K, V>>, e: Elm<K, V>): seq<Elm<K, V>> {
    if s == [] then [e]
    else if cmp(e.key, s[0].key) < 0 then [e] + s
    else if cmp(e.key, s[0].key) == 0 then [e] + s[1..]
    else [s[0]] + Put(cmp, s[1..], e)
  }

  ghost function Del<K, V>(cmp: (K, K) -> int, s: seq<Elm<K, V>>, k: K): seq<Elm<K, V>> {
    if s == [] then []
    else if cmp(k, s[0].key) < 0 then s
    else if cmp(k, s[0].key) == 0 then s[1..]
    else [s[0]] + Del(cmp, s[1..], k)
  }

  // ---- the laws of a map ----

  /** A key below the head of a sorted sequence is not in it. */
  lemma {:induction false} GetBelow<K(!new), V>(cmp: (K, K) -> int, s: seq<Elm<K, V>>, k: K)
    requires TotalOrder(cmp) && Sorted(cmp, s)
    requires s != [] ==> cmp(k, s[0].key) < 0
    ensures Get(cmp, s, k) == None
  {
    if |s| > 1 {
      StrictTransitive(cmp, k, s[0].key, s[1].key);
      GetBelow(cmp, s[1..], k);
    }
  }

  lemma {:induction false} PutMembers<K(!new), V>(cmp: (K, K) -> int, s: seq<Elm<K, V>>, e: Elm<K, V>)
    ensures forall x :: x in Put(cmp, s, e) ==> x == e || x in s
  {
    if s != [] && cmp(e.key, s[0].key) > 0 {
      PutMembers(cmp, s[1..], e);
    }
  }

  lemma {:induction false} PutSorted<K(!new), V>(cmp: (K, K) -> int, s: seq<Elm<K, V>>, e: Elm<K, V>)
    requires TotalOrder(cmp) && Sorted(cmp, s)
    ensures Sorted(cmp, Put(cmp, s, e))
  {
    if s == [] {
    } else if cmp(e.key, s[0].key) <= 0 {
      forall j | 0 <= j < |s| ensures cmp(e.key, s[j].key) < 0 || (j == 0 && cmp(e.key, s[0].key) == 0) {
        if j > 0 { StrictTransitive(cmp, e.key, s[0].key, s[j].key); }
      }
    } else {
      var h, t := s[0], s[1..];
      var r := Put(cmp, t, e);
      PutSorted(cmp, t, e);
      PutMembers(cmp, t, e);
      forall j | 0 <= j < |r| ensures cmp(h.key, r[j].key) < 0 {
        assert r[j] in r;
      }
      SortedCons(cmp, h, r);
    }
  }

  lemma SortedCons<K(!new), V>(cmp: (K, K) -> int, h: Elm<K, V>, r: seq<Elm<K, V>>)
    requires Sorted(cmp, r) && forall j :: 0 <= j < |r| ==> cmp(h.key, r[j].key) < 0
    ensures Sorted(cmp, [h] + r)
  {
  }

  lemma {:induction false} GetPut<K(!new), V>(cmp: (K, K) -> int, s: seq<Elm<K, V>>, e: Elm<K, V>, q: K)
    requires TotalOrder(cmp) && Sorted(cmp, s)
    ensures Get(cmp, Put(cmp, s, e), q) == if cmp(q, e.key) == 0 then Some(e.val) else Get(cmp, s, q)
  {
    if s == [] {
      assert Get(cmp, [e][1..], q) == None;
    } else if cmp(e.key, s[0].key) < 0 {
      assert ([e] + s)[1..] == s;
    } else if cmp(e.key, s[0].key) == 0 {
      assert ([e] + s[1..])[1..] == s[1..];
      StrictTransitive(cmp, e.key, s[0].key, q);
    } else {
      assert ([s[0]] + Put(cmp, s[1..], e))[1..] == Put(cmp, s[1..], e);
      GetPut(cmp, s[1..], e, q);
      if cmp(q, s[0].key) == 0 { StrictTransitive(cmp, q, s[0].key, e.key); }
    }
  }

  lemma {:induction false} DelMembers<K(!new), V>(cmp: (K, K) -> int, s: seq<Elm<K, V>>, k: K)
    ensures forall x :: x in Del(cmp, s, k) ==> x in s
  {
    if s != [] && cmp(k, s[0].key) > 0 {
      DelMembers(cmp, s[1..], k);
    }
  }

  lemma {:induction false} DelSorted<K(!new), V>(cmp: (K, K) -> int, s: seq<Elm<K, V>>, k: K)
    requires Sorted(cmp, s)
    ensures Sorted(cmp, Del(cmp, s, k))
  {
    if s != [] && cmp(k, s[0].key) > 0 {
      var h, t := s[0], s[1..];
      var r := Del(cmp, t, k);
      DelSorted(cmp, t, k);
      DelMembers(cmp, t, k);
      forall j | 0 <= j < |r| ensures cmp(h.key, r[j].key) < 0 {
        assert r[j] in r;
      }
      SortedCons(cmp, h, r);
    }
  }

  /** Sizes: an insertion adds one element unless it overwrites, a deletion
      takes one away unless the key is absent. */
  lemma {:induction false} Sizes<K(!new), V>(cmp: (K, K) -> int, s: seq<Elm<K, V>>, e: Elm<K, V>)
    requires TotalOrder(cmp) && Sorted(cmp, s)
    ensures |Put(cmp, s, e)| == |s| + (if Get(cmp, s, e.key) == None then 1 else 0)
    ensures |Del(cmp, s, e.key)| == |s| - (if Get(cmp, s, e.key) == None then 0 else 1)
  {
    if s != [] {
      if cmp(e.key, s[0].key) < 0 {
        GetBelow(cmp, s, e.key);
      } else if cmp(e.key, s[0].key) > 0 {
        Sizes(cmp, s[1..], e);
      }
    }
  }

  lemma {:induction false} GetDel<K(!new), V>(cmp: (K, K) -> int, s: seq<Elm<K, V>>, k: K, q: K)
    requires TotalOrder(cmp) && Sorted(cmp, s)
    ensures Get(cmp, Del(cmp, s, k), q) == if cmp(q, k) == 0 then None else Get(cmp, s, q)
  {
    if s == [] {
    } else if cmp(k, s[0].key) < 0 {
      if cmp(q, k) == 0 {
        StrictTransitive(cmp, q, k, s[0].key);
        GetBelow(cmp, s, q);
      }
    } else if cmp(k, s[0].key) == 0 {
      if cmp(q, k) == 0 {
        if |s| > 1 {
          StrictTransitive(cmp, k, s[0].key, s[1].key);
          StrictTransitive(cmp, q, k, s[1].key);
        }
        GetBelow(cmp, s[1..], q);
      } else {
        StrictTransitive(cmp, k, s[0].key, q);
      }
    } else {
      assert ([s[0]] + Del(cmp, s[1..], k))[1..] == Del(cmp, s[1..], k);
      GetDel(cmp, s[1..], k, q);
      if cmp(q, s[0].key) == 0 { StrictTransitive(cmp, q, s[0].key, k); }
    }
  }

  lemma PutLaw<K(!new), V>(cmp: (K, K) -> int, s: seq<Elm<K, V>>, e: Elm<K, V>)
    requires TotalOrder(cmp) && Sorted(cmp, s)
    ensures Sorted(cmp, Put(cmp, s, e))
    ensures forall q :: Get(cmp, Put(cmp, s, e), q) == if cmp(q, e.key) == 0 then Some(e.val) else Get(cmp, s, q)
  {
    PutSorted(cmp, s, e);
    forall q ensures Get(cmp, Put(cmp, s, e), q) == if cmp(q, e.key) == 0 then Some(e.val) else Get(cmp, s, q) {
      GetPut(cmp, s, e, q);
    }
  }

  lemma DelLaw<K(!new), V>(cmp: (K, K) -> int, s: seq<Elm<K, V>>, k: K)
    requires TotalOrder(cmp) && Sorted(cmp, s)
    ensures Sorted(cmp, Del(cmp, s, k))
    ensures forall q :: Get(cmp, Del(cmp, s, k), q) == if cmp(q, k) == 0 then None else Get(cmp, s, q)
  {
    DelSorted(cmp, s, k);
    forall q ensures Get(cmp, Del(cmp, s, k), q) == if cmp(q, k) == 0 then None else Get(cmp, s, q) {
      GetDel(cmp, s, k, q);
    }
  }

  // ---- searching by halves: what descending into one subtree may ignore ----

  ghost predicate Below<K, V>(cmp: (K, K) -> int, s: seq<Elm<K, V>>, k: K) {
    forall i :: 0 <= i < |s| ==> cmp(s[i].key, k) < 0
  }

  /** Everything left of a key that is below `k` is irrelevant for `k`. */
  lemma {:induction false} SkipPrefix<K(!new), V>(
      cmp: (K, K) -> int, l: seq<Elm<K, V>>, r: seq<Elm<K, V>>, e: Elm<K, V>)
    requires TotalOrder(cmp) && Below(cmp, l, e.key)
    ensures Put(cmp, l + r, e) == l + Put(cmp, r, e)
    ensures Del(cmp, l + r, e.key) == l + Del(cmp, r, e.key)
    ensures Get(cmp, l + r, e.key) == Get(cmp, r, e.key)
  {
    if l == [] {
      assert l + r == r;
    } else {
      var h, s := l[0], l[1..] + r;
      assert l + r == [h] + s;
      assert cmp(h.key, e.key) < 0;
      SkipPrefix(cmp, l[1..], r, e);
      StepOver(cmp, h, s, e);
      assert [h] + (l[1..] + Put(cmp, r, e)) == l + Put(cmp, r, e);
      assert [h] + (l[1..] + Del(cmp, r, e.key)) == l + Del(cmp, r, e.key);
    }
  }

  lemma StepOver<K(!new), V>(cmp: (K, K) -> int, h: Elm<K, V>, s: seq<Elm<K, V>>, e: Elm<K, V>)
    requires TotalOrder(cmp) && cmp(h.key, e.key) < 0
    ensures Put(cmp, [h] + s, e) == [h] + Put(cmp, s, e)
    ensures Del(cmp, [h] + s, e.key) == [h] + Del(cmp, s, e.key)
    ensures Get(cmp, [h] + s, e.key) == Get(cmp, s, e.key)
  {
    assert ([h] + s)[1..] == s;
  }

  /** Everything right of a key above `k` is irrelevant for `k`. */
  lemma {:induction false} SkipSuffix<K(!new), V>(
      cmp: (K, K) -> int, l: seq<Elm<K, V>>, r: seq<Elm<K, V>>, e: Elm<K, V>)
    requires TotalOrder(cmp) && Sorted(cmp, r)
    requires r != [] && cmp(e.key, r[0].key) < 0
    ensures Put(cmp, l + r, e) == Put(cmp, l, e) + r
    ensures Del(cmp, l + r, e.key) == Del(cmp, l, e.key) + r
    ensures Get(cmp, l + r, e.key) == Get(cmp, l, e.key)
  {
    if l == [] {
      assert l + r == r;
      GetBelow(cmp, r, e.key);
    } else {
      assert (l + r)[1..] == l[1..] + r;
      SkipSuffix(cmp, l[1..], r, e);
    }
  }

  lemma Associative<T>(a: seq<T>, b: seq<T>, c: seq<T>)
    ensures a + (b + c) == a + b + c
  {
  }

  /** One search step at a node holding `e0` between the elements `l` and `r`:
      a smaller key concerns only the left part. */
  lemma GoLeft<K(!new), V>(cmp: (K, K) -> int, l: seq<Elm<K, V>>, e0: Elm<K, V>, r: seq<Elm<K, V>>, e: Elm<K, V>)
    requires TotalOrder(cmp) && Sorted(cmp, l + [e0] + r)
    requires cmp(e.key, e0.key) < 0
    ensures Sorted(cmp, l)
    ensures Put(cmp, l + [e0] + r, e) == Put(cmp, l, e) + [e0] + r
    ensures Del(cmp, l + [e0] + r, e.key) == Del(cmp, l, e.key) + [e0] + r
    ensures Get(cmp, l + [e0] + r, e.key) == Get(cmp, l, e.key)
  {
    SplitSorted(cmp, l, e0, r);
    var s := [e0] + r;
    SkipSuffix(cmp, l, s, e);
    Associative(l, [e0], r);
    Associative(Put(cmp, l, e), [e0], r);
    Associative(Del(cmp, l, e.key), [e0], r);
  }

  /** A key equal to the node's is found there. */
  lemma HitNode<K(!new), V>(cmp: (K, K) -> int, l: seq<Elm<K, V>>, e0: Elm<K, V>, r: seq<Elm<K, V>>, e: Elm<K, V>)
    requires TotalOrder(cmp) && Sorted(cmp, l + [e0] + r)
    requires cmp(e.key, e0.key) == 0
    ensures Put(cmp, l + [e0] + r, e) == l + [e] + r
    ensures Del(cmp, l + [e0] + r, e.key) == l + r
    ensures Get(cmp, l + [e0] + r, e.key) == Some(e0.val)
  {
    SplitSorted(cmp, l, e0, r);
    assert l + [e0] + r == l + ([e0] + r);
    BelowTransitive(cmp, l, e0.key, e.key);
    SkipPrefix(cmp, l, [e0] + r, e);
    assert ([e0] + r)[1..] == r;
    assert l + ([e] + r) == l + [e] + r;
  }

  /** A larger key concerns only the right part. */
  lemma GoRight<K(!new), V>(cmp: (K, K) -> int, l: seq<Elm<K, V>>, e0: Elm<K, V>, r: seq<Elm<K, V>>, e: Elm<K, V>)
    requires TotalOrder(cmp) && Sorted(cmp, l + [e0] + r)
    requires cmp(e.key, e0.key) > 0
    ensures Sorted(cmp, r)
    ensures Put(cmp, l + [e0] + r, e) == l + [e0] + Put(cmp, r, e)
    ensures Del(cmp, l + [e0] + r, e.key) == l + [e0] + Del(cmp, r, e.key)
    ensures Get(cmp, l + [e0] + r, e.key) == Get(cmp, r, e.key)
  {
    SplitSorted(cmp, l, e0, r);
    BelowTransitive(cmp, l, e0.key, e.key);
    var l' := l + [e0];
    assert Below(cmp, l', e.key);
    SkipPrefix(cmp, l', r, e);
  }

  // The same at a node holding two elements, with the parts written in the tree's order.

  lemma TriLeft<K(!new), V>(cmp: (K, K) -> int, l: seq<Elm<K, V>>, e0: Elm<K, V>, m: seq<Elm<K, V>>,
        e1: Elm<K, V>, r: seq<Elm<K, V>>, e: Elm<K, V>)
    requires TotalOrder(cmp) && Sorted(cmp, l + [e0] + m + [e1] + r) && cmp(e.key, e0.key) < 0
    ensures Sorted(cmp, l)
    ensures Put(cmp, l + [e0] + m + [e1] + r, e) == Put(cmp, l, e) + [e0] + m + [e1] + r
    ensures Del(cmp, l + [e0] + m + [e1] + r, e.key) == Del(cmp, l, e.key) + [e0] + m + [e1] + r
    ensures Get(cmp, l + [e0] + m + [e1] + r, e.key) == Get(cmp, l, e.key)
  {
    var r' := m + [e1] + r;
    Rebracket(l + [e0], m, e1, r);
    GoLeft(cmp, l, e0, r', e);
    Rebracket(Put(cmp, l, e) + [e0], m, e1, r);
    Rebracket(Del(cmp, l, e.key) + [e0], m, e1, r);
  }

  lemma TriHit0<K(!new), V>(cmp: (K, K) -> int, l: seq<Elm<K, V>>, e0: Elm<K, V>, m: seq<Elm<K, V>>,
        e1: Elm<K, V>, r: seq<Elm<K, V>>, e: Elm<K, V>)
    requires TotalOrder(cmp) && Sorted(cmp, l + [e0] + m + [e1] + r) && cmp(e.key, e0.key) == 0
    ensures Put(cmp, l + [e0] + m + [e1] + r, e) == l + [e] + m + [e1] + r
    ensures Del(cmp, l + [e0] + m + [e1] + r, e.key) == l + m + [e1] + r
    ensures Get(cmp, l + [e0] + m + [e1] + r, e.key) == Some(e0.val)
  {
    var r' := m + [e1] + r;
    Rebracket(l + [e0], m, e1, r);
    HitNode(cmp, l, e0, r', e);
    Rebracket(l + [e], m, e1, r);
    Rebracket(l, m, e1, r);
  }

  lemma TriMidle<K(!new), V>(cmp: (K, K) -> int, l: seq<Elm<K, V>>, e0: Elm<K, V>, m: seq<Elm<K, V>>,
        e1: Elm<K, V>, r: seq<Elm<K, V>>, e: Elm<K, V>)
    requires TotalOrder(cmp) && Sorted(cmp, l + [e0] + m + [e1] + r) && cmp(e.key, e0.key) > 0 && cmp(e.key, e1.key) < 0
    ensures Sorted(cmp, m)
    ensures Put(cmp, l + [e0] + m + [e1] + r, e) == l + [e0] + Put(cmp, m, e) + [e1] + r
    ensures Del(cmp, l + [e0] + m + [e1] + r, e.key) == l + [e0] + Del(cmp, m, e.key) + [e1] + r
    ensures Get(cmp, l + [e0] + m + [e1] + r, e.key) == Get(cmp, m, e.key)
  {
    var r' := m + [e1] + r;
    Rebracket(l + [e0], m, e1, r);
    GoRight(cmp, l, e0, r', e);
    GoLeft(cmp, m, e1, r, e);
    Rebracket(l + [e0], Put(cmp, m, e), e1, r);
    Rebracket(l + [e0], Del(cmp, m, e.key), e1, r);
  }

  lemma Rebracket<T>(a: seq<T>, b: seq<T>, x: T, c: seq<T>)
    ensures a + (b + [x] + c) == a + b + [x] + c
  {
  }

  lemma BelowTransitive<K(!new), V>(cmp: (K, K) -> int, s: seq<Elm<K, V>>, a: K, b: K)
    requires TotalOrder(cmp) && Below(cmp, s, a) && cmp(a, b) <= 0
    ensures Below(cmp, s, b)
  {
    forall i | 0 <= i < |s| ensures cmp(s[i].key, b) < 0 {
      StrictTransitive(cmp, s[i].key, a, b);
    }
  }

  lemma SplitSorted<K(!new), V>(cmp: (K, K) -> int, l: seq<Elm<K, V>>, e0: Elm<K, V>, r: seq<Elm<K, V>>)
    requires Sorted(cmp, l + [e0] + r)
    ensures Sorted(cmp, l) && Sorted(cmp, r) && Sorted(cmp, [e0] + r)
    ensures Below(cmp, l, e0.key)
  {
    var s := l + [e0] + r;
    assert s[|l|] == e0;
    forall i, j | 0 <= i < j < |l| ensures cmp(l[i].key, l[j].key) < 0 {
      assert s[i] == l[i] && s[j] == l[j];
    }
    forall i | 0 <= i < |l| ensures cmp(l[i].key, e0.key) < 0 {
      assert s[i] == l[i];
    }
    var t := [e0] + r;
    forall i, j | 0 <= i < j < |t| ensures cmp(t[i].key, t[j].key) < 0 {
      assert s[|l| + i] == t[i] && s[|l| + j] == t[j];
    }
    assert r == t[1..];
  }
}
