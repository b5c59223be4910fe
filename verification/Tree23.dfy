/** The gateway's 2-3 tree: an ordered map whose nodes are relinked in place,
    with two transient node kinds that carry an insertion or a deletion upwards. */
module Tree23Map {
  import opened SortedMap

  const INSERT_ACTIVE := -2
  const DELETE_ACTIVE := -1
  const BI_NODE := 2
  const TRI_NODE := 3

  class Tree23Node<K, V> {
    var typ: int
    var telm0: Option<Elm<K, V>>
    var telm1: Option<Elm<K, V>>
    var left: Tree23Node?<K, V>
    var midle: Tree23Node?<K, V>
    var right: Tree23Node?<K, V>

    /** A marker that holds at most a middle subtree. */
    constructor Hole(typ: int, midle: Tree23Node?<K, V>, ghost m: Shape<K, V>)
      requires typ == DELETE_ACTIVE && Rep(midle, m)
      ensures Rep(this, Shape.Gap(this, m))
    {
      Parts(m);
      this.typ, this.midle := typ, midle;
      telm0, telm1, left, right := None, None, null, null;
    }

    constructor Bi(typ: int, telm: Option<Elm<K, V>>, left: Tree23Node?<K, V>, right: Tree23Node?<K, V>,
                   ghost l: Shape<K, V>, ghost r: Shape<K, V>)
      requires telm.Some? && Rep(left, l) && Rep(right, r)
      ensures typ == BI_NODE ==> Rep(this, Shape.Bi(this, telm.value, l, r))
      ensures typ == INSERT_ACTIVE ==> Rep(this, Shape.Ins(this, telm.value, l, r))
    {
      Parts(l);
      Parts(r);
      this.typ, telm0, telm1 := typ, telm, None;
      this.left, midle, this.right := left, null, right;
    }

    /** Hangs two other subtrees under a node marked for insertion. */
    method SetSlots(left: Tree23Node?<K, V>, right: Tree23Node?<K, V>, ghost l: Shape<K, V>, ghost r: Shape<K, V>)
      requires typ == INSERT_ACTIVE && telm0.Some?
      requires Rep(left, l) && Rep(right, r) && this !in Nodes(l) && this !in Nodes(r)
      modifies this`left, this`right
      ensures Rep(this, Shape.Ins(this, telm0.value, l, r))
    {
      this.left, this.right := left, right;
      assert Rep(left, l);
      assert Rep(right, r);
    }

    /** Turns a node marked for insertion into an ordinary one. */
    method Settle(ghost s: Shape<K, V>)
      requires Rep(this, s) && s.Ins? && this !in Nodes(s.l) && this !in Nodes(s.r)
      modifies this`typ
      ensures Rep(this, Shape.Bi(this, s.e0, s.l, s.r))
    {
      Look(this, s);
      typ := BI_NODE;
      assert Rep(left, s.l);
      assert Rep(right, s.r);
    }

    /** Replaces the first (or only) element. */
    method SetElm0(e: Elm<K, V>, ghost s: Shape<K, V>)
      requires Rep(this, s) && (s.Bi? || s.Tri?) && Open(s)
      modifies this`telm0
      ensures Rep(this, SetE0(s, e)) && Open(SetE0(s, e))
    {
      Look(this, s);
      telm0 := Some(e);
      assert Rep(left, s.l);
      assert Rep(right, s.r);
      if s.Tri? { assert Rep(midle, s.m); }
    }

    /** Replaces the second element of a 3-node. */
    method SetElm1(e: Elm<K, V>, ghost s: Shape<K, V>)
      requires Rep(this, s) && s.Tri? && Open(s)
      modifies this`telm1
      ensures Rep(this, SetE1(s, e)) && Open(SetE1(s, e))
    {
      Look(this, s);
      telm1 := Some(e);
      assert Rep(left, s.l);
      assert Rep(midle, s.m);
      assert Rep(right, s.r);
    }

    /** The node itself, its kind and elements, as in the shape. */
    ghost predicate Holds(s: Shape<K, V>) reads this {
      && (s.Bi? ==> s.n == this && typ == BI_NODE && telm0 == Some(s.e0))
      && (s.Tri? ==> s.n == this && typ == TRI_NODE && telm0 == Some(s.e0) && telm1 == Some(s.e1))
    }

    /** Stores a subtree in the left slot. */
    method SetLeft(c: Tree23Node?<K, V>, ghost s: Shape<K, V>, ghost u: Shape<K, V>)
      requires (s.Bi? || s.Tri?) && Holds(s)
      requires s.Tri? ==> Rep(midle, s.m)
      requires Rep(right, s.r)
      requires Rep(c, u) && Open(SetL(s, u))
      modifies this`left
      ensures Rep(this, SetL(s, u)) && left == c
    {
      left := c;
      assert Rep(c, u);
      if s.Tri? { assert Rep(midle, s.m); }
      assert Rep(right, s.r);
    }

    /** Stores a subtree in the midle slot. */
    method SetMidle(c: Tree23Node?<K, V>, ghost s: Shape<K, V>, ghost u: Shape<K, V>)
      requires s.Tri? && Holds(s)
      requires Rep(left, s.l)
      requires Rep(right, s.r)
      requires Rep(c, u) && Open(SetM(s, u))
      modifies this`midle
      ensures Rep(this, SetM(s, u)) && midle == c
    {
      midle := c;
      assert Rep(c, u);
      assert Rep(left, s.l);
      assert Rep(right, s.r);
    }

    /** Stores a subtree in the right slot. */
    method SetRight(c: Tree23Node?<K, V>, ghost s: Shape<K, V>, ghost u: Shape<K, V>)
      requires (s.Bi? || s.Tri?) && Holds(s)
      requires Rep(left, s.l)
      requires s.Tri? ==> Rep(midle, s.m)
      requires Rep(c, u) && Open(SetR(s, u))
      modifies this`right
      ensures Rep(this, SetR(s, u)) && right == c
    {
      right := c;
      assert Rep(c, u);
      assert Rep(left, s.l);
      if s.Tri? { assert Rep(midle, s.m); }
    }

    constructor Tri(t0: Option<Elm<K, V>>, t1: Option<Elm<K, V>>,
                    left: Tree23Node?<K, V>, midle: Tree23Node?<K, V>, right: Tree23Node?<K, V>,
                    ghost l: Shape<K, V>, ghost m: Shape<K, V>, ghost r: Shape<K, V>)
      requires t0.Some? && t1.Some? && Rep(left, l) && Rep(midle, m) && Rep(right, r)
      ensures Rep(this, Shape.Tri(this, t0.value, t1.value, l, m, r))
    {
      Parts(l);
      Parts(m);
      Parts(r);
      typ, telm0, telm1 := TRI_NODE, t0, t1;
      this.left, this.midle, this.right := left, midle, right;
    }
  }

  /** The tree a node pointer stands for: which node sits where and what it holds. */
  datatype Shape<!K, !V> =
    | Nil
    | Bi(n: Tree23Node<K, V>, e0: Elm<K, V>, l: Shape<K, V>, r: Shape<K, V>)
    | Tri(n: Tree23Node<K, V>, e0: Elm<K, V>, e1: Elm<K, V>, l: Shape<K, V>, m: Shape<K, V>, r: Shape<K, V>)
    | Ins(n: Tree23Node<K, V>, e0: Elm<K, V>, l: Shape<K, V>, r: Shape<K, V>)
    | Gap(n: Tree23Node<K, V>, m: Shape<K, V>)

  ghost function Nodes<K, V>(s: Shape<K, V>): set<Tree23Node<K, V>> {
    match s
    case Nil => {}
    case Bi(n, _, l, r) => {n} + Nodes(l) + Nodes(r)
    case Tri(n, _, _, l, m, r) => {n} + Nodes(l) + Nodes(m) + Nodes(r)
    case Ins(n, _, l, r) => {n} + Nodes(l) + Nodes(r)
    case Gap(n, m) => {n} + Nodes(m)
  }

  /** The elements from left to right. */
  ghost function Elems<K, V>(s: Shape<K, V>): seq<Elm<K, V>> {
    match s
    case Nil => []
    case Bi(_, e0, l, r) => Elems(l) + [e0] + Elems(r)
    case Tri(_, e0, e1, l, m, r) => Elems(l) + [e0] + Elems(m) + [e1] + Elems(r)
    case Ins(_, e0, l, r) => Elems(l) + [e0] + Elems(r)
    case Gap(_, m) => Elems(m)
  }

  // One part of an unmarked node replaced.

  ghost function SetL<K, V>(s: Shape<K, V>, u: Shape<K, V>): Shape<K, V> {
    match s
    case Bi(n, e0, _, r) => Bi(n, e0, u, r)
    case Tri(n, e0, e1, _, m, r) => Tri(n, e0, e1, u, m, r)
    case _ => s
  }

  ghost function SetM<K, V>(s: Shape<K, V>, u: Shape<K, V>): Shape<K, V> {
    match s
    case Tri(n, e0, e1, l, _, r) => Tri(n, e0, e1, l, u, r)
    case _ => s
  }

  ghost function SetR<K, V>(s: Shape<K, V>, u: Shape<K, V>): Shape<K, V> {
    match s
    case Bi(n, e0, l, _) => Bi(n, e0, l, u)
    case Tri(n, e0, e1, l, m, _) => Tri(n, e0, e1, l, m, u)
    case _ => s
  }

  ghost function SetE0<K, V>(s: Shape<K, V>, e: Elm<K, V>): Shape<K, V> {
    match s
    case Bi(n, _, l, r) => Bi(n, e, l, r)
    case Tri(n, _, e1, l, m, r) => Tri(n, e, e1, l, m, r)
    case _ => s
  }

  ghost function SetE1<K, V>(s: Shape<K, V>, e: Elm<K, V>): Shape<K, V> {
    match s
    case Tri(n, e0, _, l, m, r) => Tri(n, e0, e, l, m, r)
    case _ => s
  }

  /** The height of the slot the tree fills: a node marked for insertion is one level
      too tall for its slot, one marked for deletion one level too short. */
  ghost function Height<K, V>(s: Shape<K, V>): nat {
    match s
    case Nil => 0
    case Bi(_, _, l, _) => Height(l) + 1
    case Tri(_, _, _, l, _, _) => Height(l) + 1
    case Ins(_, _, l, _) => Height(l)
    case Gap(_, m) => Height(m) + 1
  }

  /** No marker at the top. */
  ghost predicate Full<K, V>(s: Shape<K, V>) { s.Nil? || s.Bi? || s.Tri? }

  ghost predicate Fit2<K, V>(n: Tree23Node<K, V>, l: Shape<K, V>, r: Shape<K, V>) {
    && Height(l) == Height(r)
    && n !in Nodes(l) && n !in Nodes(r) && Nodes(l) !! Nodes(r)
  }

  ghost predicate Fit3<K, V>(n: Tree23Node<K, V>, l: Shape<K, V>, m: Shape<K, V>, r: Shape<K, V>) {
    && Height(l) == Height(m) == Height(r)
    && n !in Nodes(l) && n !in Nodes(m) && n !in Nodes(r)
    && Nodes(l) !! Nodes(m) && Nodes(l) !! Nodes(r) && Nodes(m) !! Nodes(r)
  }

  /** A 2-3 tree whose top node may be marked: all leaves at one depth,
      no marker below the top, no node shared. */
  ghost predicate Sound<K, V>(s: Shape<K, V>) {
    match s
    case Nil => true
    case Bi(n, _, l, r) => Sound(l) && Sound(r) && Fit2(n, l, r) && Full(l) && Full(r)
    case Tri(n, _, _, l, m, r) => Sound(l) && Sound(m) && Sound(r) && Fit3(n, l, m, r) && Full(l) && Full(m) && Full(r)
    case Ins(n, _, l, r) => Sound(l) && Sound(r) && Fit2(n, l, r) && Full(l) && Full(r)
    case Gap(n, m) => Sound(m) && Full(m) && n !in Nodes(m)
  }

  /** `Sound` as a single proposition, so that the verifier does not take it apart. */
  ghost predicate Wf<K, V>(s: Shape<K, V>) { Sound(s) == true }

  /** Like `Wf` for an unmarked node, but any one slot of it may hold a marked tree. */
  ghost predicate Open<K, V>(s: Shape<K, V>) {
    match s
    case Bi(n, _, l, r) => Wf(l) && Wf(r) && Fit2(n, l, r)
    case Tri(n, _, _, l, m, r) => Wf(l) && Wf(m) && Wf(r) && Fit3(n, l, m, r)
    case _ => false
  }

  /** The nodes in the heap are linked as the shape says. */
  ghost predicate Linked<K, V>(p: Tree23Node?<K, V>, s: Shape<K, V>)
    reads Nodes(s)
    decreases s
  {
    match s
    case Nil => p == null
    case Bi(n, e0, l, r) =>
      p == n && n.typ == BI_NODE && n.telm0 == Some(e0) && Linked(n.left, l) && Linked(n.right, r)
    case Tri(n, e0, e1, l, m, r) =>
      && p == n && n.typ == TRI_NODE && n.telm0 == Some(e0) && n.telm1 == Some(e1)
      && Linked(n.left, l) && Linked(n.midle, m) && Linked(n.right, r)
    case Ins(n, e0, l, r) =>
      p == n && n.typ == INSERT_ACTIVE && n.telm0 == Some(e0) && Linked(n.left, l) && Linked(n.right, r)
    case Gap(n, m) =>
      p == n && n.typ == DELETE_ACTIVE && Linked(n.midle, m)
  }

  /** `Linked` as a single proposition, so that the verifier does not take it apart. */
  ghost predicate Rep<K, V>(p: Tree23Node?<K, V>, s: Shape<K, V>)
    reads Nodes(s)
  {
    Linked(p, s) == true
  }

  /** What a pointer to a known shape lets one read. */
  lemma Look<K, V>(p: Tree23Node?<K, V>, s: Shape<K, V>)
    requires Rep(p, s)
    ensures p == null <==> s.Nil?
    ensures p != null ==> p == s.n
    ensures s.Bi? ==> p.typ == BI_NODE && p.telm0 == Some(s.e0) && Rep(p.left, s.l) && Rep(p.right, s.r)
    ensures s.Ins? ==> p.typ == INSERT_ACTIVE && p.telm0 == Some(s.e0) && Rep(p.left, s.l) && Rep(p.right, s.r)
    ensures s.Tri? ==>
              && p.typ == TRI_NODE && p.telm0 == Some(s.e0) && p.telm1 == Some(s.e1)
              && Rep(p.left, s.l) && Rep(p.midle, s.m) && Rep(p.right, s.r)
    ensures s.Gap? ==> p.typ == DELETE_ACTIVE && Rep(p.midle, s.m)
  {
  }

  /** The nodes of a shape exist, and those of its parts are among them. */
  lemma Parts<K, V>(s: Shape<K, V>)
    ensures forall x :: x in Nodes(s) ==> allocated(x)
    ensures !s.Nil? ==> s.n in Nodes(s)
    ensures s.Bi? || s.Ins? ==> Nodes(s) == {s.n} + Nodes(s.l) + Nodes(s.r)
    ensures s.Tri? ==> Nodes(s) == {s.n} + Nodes(s.l) + Nodes(s.m) + Nodes(s.r)
    ensures s.Gap? ==> Nodes(s) == {s.n} + Nodes(s.m)
  {
  }

  /** Every node of `t` is a node of `s` or has been allocated since. */
  twostate predicate Grown<K, V>(new t: Shape<K, V>, s: Shape<K, V>) {
    forall x :: x in Nodes(t) ==> x in Nodes(s) || fresh(x)
  }

  // ---- concatenations that differ only in their brackets ----

  lemma Regroup<T>(a: seq<T>, x: T, b: seq<T>, y: T, c: seq<T>)
    ensures a + [x] + (b + [y] + c) == a + [x] + b + [y] + c
  {
  }

  lemma Regroup4<T>(a: seq<T>, x: T, b: seq<T>, y: T, c: seq<T>, z: T, d: seq<T>)
    ensures (a + [x] + b) + [y] + (c + [z] + d) == a + [x] + (b + [y] + c + [z] + d)
  {
  }

  lemma Regroup5<T>(a: seq<T>, x: T, b: seq<T>, y: T, c: seq<T>, z: T, d: seq<T>)
    ensures (a + [x] + b) + [y] + (c + [z] + d) == a + [x] + (b + [y] + c) + [z] + d
  {
  }

  lemma Regroup6<T>(p: seq<T>, a: seq<T>, x: T, b: seq<T>, y: T, c: seq<T>, z: T, d: seq<T>)
    ensures p + (a + [x] + b) + [y] + (c + [z] + d) == p + a + [x] + (b + [y] + c + [z] + d)
  {
  }

  lemma Regroup7<T>(p: seq<T>, a: seq<T>, x: T, b: seq<T>, y: T, c: seq<T>)
    ensures p + (a + [x] + b + [y] + c) == p + (a + [x] + b) + [y] + c
  {
  }

  lemma Regroup8<T>(p: seq<T>, a: seq<T>, x: T, b: seq<T>, y: T, c: seq<T>)
    ensures p + a + [x] + (b + [y] + c) == p + (a + [x] + b) + [y] + c
  {
  }

  lemma Regroup9<T>(p: seq<T>, a: seq<T>, x: T, b: seq<T>, y: T, c: seq<T>)
    ensures p + (a + [x] + b + [y] + c) == p + a + [x] + (b + [y] + c)
  {
  }

  lemma MoveMax<T>(p: seq<T>, a: seq<T>, x: T, c: seq<T>)
    ensures p + (a + [x]) + c == p + a + [x] + c
  {
  }

  /** The same elements in the same slot. */
  ghost predicate Same<K, V>(t: Shape<K, V>, s: Shape<K, V>) {
    Wf(t) && Elems(t) == Elems(s) && Height(t) == Height(s)
  }

  // ---- splitting an overfull node: what the new shape is and that nothing is lost ----

  lemma SplitLeft<K, V>(s: Shape<K, V>, res: Tree23Node<K, V>, nn: Tree23Node<K, V>) returns (t: Shape<K, V>)
    requires s.Tri? && s.l.Ins? && Open(s) && Full(s.m) && Full(s.r)
    requires {res, nn} !! Nodes(s) && res != nn
    ensures t == Ins(res, s.e0, Bi(s.l.n, s.l.e0, s.l.l, s.l.r), Bi(nn, s.e1, s.m, s.r))
    ensures Same(t, s) && Nodes(t) <= Nodes(s) + {res, nn}
  {
    Parts(s);
    Parts(s.l);
    Regroup(Elems(s.l), s.e0, Elems(s.m), s.e1, Elems(s.r));
    t := Ins(res, s.e0, Bi(s.l.n, s.l.e0, s.l.l, s.l.r), Bi(nn, s.e1, s.m, s.r));
  }

  lemma SplitMidle<K, V>(s: Shape<K, V>, ln: Tree23Node<K, V>, rn: Tree23Node<K, V>) returns (t: Shape<K, V>)
    requires s.Tri? && s.m.Ins? && Open(s) && Full(s.l) && Full(s.r)
    requires {ln, rn} !! Nodes(s) && ln != rn
    ensures t == Ins(s.m.n, s.m.e0, Bi(ln, s.e0, s.l, s.m.l), Bi(rn, s.e1, s.m.r, s.r))
    ensures Same(t, s) && Nodes(t) <= Nodes(s) + {ln, rn}
  {
    Parts(s);
    Parts(s.m);
    Regroup5(Elems(s.l), s.e0, Elems(s.m.l), s.m.e0, Elems(s.m.r), s.e1, Elems(s.r));
    t := Ins(s.m.n, s.m.e0, Bi(ln, s.e0, s.l, s.m.l), Bi(rn, s.e1, s.m.r, s.r));
  }

  lemma SplitRight<K, V>(s: Shape<K, V>, res: Tree23Node<K, V>, nn: Tree23Node<K, V>) returns (t: Shape<K, V>)
    requires s.Tri? && s.r.Ins? && Open(s) && Full(s.l) && Full(s.m)
    requires {res, nn} !! Nodes(s) && res != nn
    ensures t == Ins(res, s.e1, Bi(nn, s.e0, s.l, s.m), Bi(s.r.n, s.r.e0, s.r.l, s.r.r))
    ensures Same(t, s) && Nodes(t) <= Nodes(s) + {res, nn}
  {
    Parts(s);
    Parts(s.r);
    t := Ins(res, s.e1, Bi(nn, s.e0, s.l, s.m), Bi(s.r.n, s.r.e0, s.r.l, s.r.r));
  }

  // ---- filling an underfull slot: merging with a 2-node sibling, borrowing from a 3-node ----

  lemma MergeLeft2<K, V>(s: Shape<K, V>, res: Tree23Node<K, V>, mn: Tree23Node<K, V>) returns (t: Shape<K, V>)
    requires s.Bi? && s.l.Gap? && s.r.Bi? && Open(s)
    requires {res, mn} !! Nodes(s) && res != mn
    ensures t == Gap(res, Tri(mn, s.e0, s.r.e0, s.l.m, s.r.l, s.r.r))
    ensures Same(t, s) && Nodes(t) <= Nodes(s) + {res, mn}
  {
    Parts(s); Parts(s.l); Parts(s.r);
    Regroup(Elems(s.l.m), s.e0, Elems(s.r.l), s.r.e0, Elems(s.r.r));
    t := Gap(res, Tri(mn, s.e0, s.r.e0, s.l.m, s.r.l, s.r.r));
  }

  lemma BorrowLeft2<K, V>(s: Shape<K, V>, res: Tree23Node<K, V>, a: Tree23Node<K, V>, b: Tree23Node<K, V>)
    returns (t: Shape<K, V>)
    requires s.Bi? && s.l.Gap? && s.r.Tri? && Open(s)
    requires {res, a, b} !! Nodes(s) && res != a && res != b && a != b
    ensures t == Bi(res, s.r.e0, Bi(a, s.e0, s.l.m, s.r.l), Bi(b, s.r.e1, s.r.m, s.r.r))
    ensures Same(t, s) && Nodes(t) <= Nodes(s) + {res, a, b}
  {
    Parts(s); Parts(s.l); Parts(s.r);
    Regroup4(Elems(s.l.m), s.e0, Elems(s.r.l), s.r.e0, Elems(s.r.m), s.r.e1, Elems(s.r.r));
    t := Bi(res, s.r.e0, Bi(a, s.e0, s.l.m, s.r.l), Bi(b, s.r.e1, s.r.m, s.r.r));
  }

  lemma MergeRight2<K, V>(s: Shape<K, V>, res: Tree23Node<K, V>, mn: Tree23Node<K, V>) returns (t: Shape<K, V>)
    requires s.Bi? && s.r.Gap? && s.l.Bi? && Open(s)
    requires {res, mn} !! Nodes(s) && res != mn
    ensures t == Gap(res, Tri(mn, s.l.e0, s.e0, s.l.l, s.l.r, s.r.m))
    ensures Same(t, s) && Nodes(t) <= Nodes(s) + {res, mn}
  {
    Parts(s); Parts(s.l); Parts(s.r);
    t := Gap(res, Tri(mn, s.l.e0, s.e0, s.l.l, s.l.r, s.r.m));
  }

  lemma BorrowRight2<K, V>(s: Shape<K, V>, res: Tree23Node<K, V>, a: Tree23Node<K, V>, b: Tree23Node<K, V>)
    returns (t: Shape<K, V>)
    requires s.Bi? && s.r.Gap? && s.l.Tri? && Open(s)
    requires {res, a, b} !! Nodes(s) && res != a && res != b && a != b
    ensures t == Bi(res, s.l.e1, Bi(a, s.l.e0, s.l.l, s.l.m), Bi(b, s.e0, s.l.r, s.r.m))
    ensures Same(t, s) && Nodes(t) <= Nodes(s) + {res, a, b}
  {
    Parts(s); Parts(s.l); Parts(s.r);
    Regroup(Elems(s.l.l) + [s.l.e0] + Elems(s.l.m), s.l.e1, Elems(s.l.r), s.e0, Elems(s.r.m));
    t := Bi(res, s.l.e1, Bi(a, s.l.e0, s.l.l, s.l.m), Bi(b, s.e0, s.l.r, s.r.m));
  }

  lemma MergeLeft3<K, V>(s: Shape<K, V>, res: Tree23Node<K, V>, a: Tree23Node<K, V>) returns (t: Shape<K, V>)
    requires s.Tri? && s.l.Gap? && s.m.Bi? && Full(s.r) && Open(s)
    requires {res, a} !! Nodes(s) && res != a
    ensures t == Bi(res, s.e1, Tri(a, s.e0, s.m.e0, s.l.m, s.m.l, s.m.r), s.r)
    ensures Same(t, s) && Nodes(t) <= Nodes(s) + {res, a}
  {
    Parts(s); Parts(s.l); Parts(s.m);
    Regroup(Elems(s.l.m), s.e0, Elems(s.m.l), s.m.e0, Elems(s.m.r));
    t := Bi(res, s.e1, Tri(a, s.e0, s.m.e0, s.l.m, s.m.l, s.m.r), s.r);
  }

  lemma BorrowLeft3<K, V>(s: Shape<K, V>, res: Tree23Node<K, V>, a: Tree23Node<K, V>, b: Tree23Node<K, V>)
    returns (t: Shape<K, V>)
    requires s.Tri? && s.l.Gap? && s.m.Tri? && Full(s.r) && Open(s)
    requires {res, a, b} !! Nodes(s) && res != a && res != b && a != b
    ensures t == Tri(res, s.m.e0, s.e1, Bi(a, s.e0, s.l.m, s.m.l), Bi(b, s.m.e1, s.m.m, s.m.r), s.r)
    ensures Same(t, s) && Nodes(t) <= Nodes(s) + {res, a, b}
  {
    Parts(s); Parts(s.l); Parts(s.m);
    Regroup4(Elems(s.l.m), s.e0, Elems(s.m.l), s.m.e0, Elems(s.m.m), s.m.e1, Elems(s.m.r));
    t := Tri(res, s.m.e0, s.e1, Bi(a, s.e0, s.l.m, s.m.l), Bi(b, s.m.e1, s.m.m, s.m.r), s.r);
    assert Wf(Bi(a, s.e0, s.l.m, s.m.l)) && Wf(Bi(b, s.m.e1, s.m.m, s.m.r));
  }

  lemma MergeMidle3<K, V>(s: Shape<K, V>, res: Tree23Node<K, V>, b: Tree23Node<K, V>) returns (t: Shape<K, V>)
    requires s.Tri? && s.m.Gap? && s.r.Bi? && Full(s.l) && Open(s)
    requires {res, b} !! Nodes(s) && res != b
    ensures t == Bi(res, s.e0, s.l, Tri(b, s.e1, s.r.e0, s.m.m, s.r.l, s.r.r))
    ensures Same(t, s) && Nodes(t) <= Nodes(s) + {res, b}
  {
    Parts(s); Parts(s.m); Parts(s.r);
    t := Bi(res, s.e0, s.l, Tri(b, s.e1, s.r.e0, s.m.m, s.r.l, s.r.r));
    Regroup9(Elems(s.l) + [s.e0], Elems(s.m.m), s.e1, Elems(s.r.l), s.r.e0, Elems(s.r.r));
  }

  lemma BorrowMidle3<K, V>(s: Shape<K, V>, res: Tree23Node<K, V>, a: Tree23Node<K, V>, b: Tree23Node<K, V>)
    returns (t: Shape<K, V>)
    requires s.Tri? && s.m.Gap? && s.r.Tri? && Full(s.l) && Open(s)
    requires {res, a, b} !! Nodes(s) && res != a && res != b && a != b
    ensures t == Tri(res, s.e0, s.r.e0, s.l, Bi(a, s.e1, s.m.m, s.r.l), Bi(b, s.r.e1, s.r.m, s.r.r))
    ensures Same(t, s) && Nodes(t) <= Nodes(s) + {res, a, b}
  {
    Parts(s); Parts(s.m); Parts(s.r);
    t := Tri(res, s.e0, s.r.e0, s.l, Bi(a, s.e1, s.m.m, s.r.l), Bi(b, s.r.e1, s.r.m, s.r.r));
    assert Wf(Bi(a, s.e1, s.m.m, s.r.l)) && Wf(Bi(b, s.r.e1, s.r.m, s.r.r));
    Regroup6(Elems(s.l) + [s.e0], Elems(s.m.m), s.e1, Elems(s.r.l), s.r.e0, Elems(s.r.m), s.r.e1, Elems(s.r.r));
  }

  lemma MergeRight3<K, V>(s: Shape<K, V>, res: Tree23Node<K, V>, b: Tree23Node<K, V>) returns (t: Shape<K, V>)
    requires s.Tri? && s.r.Gap? && s.m.Bi? && Full(s.l) && Open(s)
    requires {res, b} !! Nodes(s) && res != b
    ensures t == Bi(res, s.e0, s.l, Tri(b, s.m.e0, s.e1, s.m.l, s.m.r, s.r.m))
    ensures Same(t, s) && Nodes(t) <= Nodes(s) + {res, b}
  {
    Parts(s); Parts(s.m); Parts(s.r);
    t := Bi(res, s.e0, s.l, Tri(b, s.m.e0, s.e1, s.m.l, s.m.r, s.r.m));
    Regroup7(Elems(s.l) + [s.e0], Elems(s.m.l), s.m.e0, Elems(s.m.r), s.e1, Elems(s.r.m));
  }

  lemma BorrowRight3<K, V>(s: Shape<K, V>, res: Tree23Node<K, V>, a: Tree23Node<K, V>, b: Tree23Node<K, V>)
    returns (t: Shape<K, V>)
    requires s.Tri? && s.r.Gap? && s.m.Tri? && Full(s.l) && Open(s)
    requires {res, a, b} !! Nodes(s) && res != a && res != b && a != b
    ensures t == Tri(res, s.e0, s.m.e1, s.l, Bi(a, s.m.e0, s.m.l, s.m.m), Bi(b, s.e1, s.m.r, s.r.m))
    ensures Same(t, s) && Nodes(t) <= Nodes(s) + {res, a, b}
  {
    Parts(s); Parts(s.m); Parts(s.r);
    t := Tri(res, s.e0, s.m.e1, s.l, Bi(a, s.m.e0, s.m.l, s.m.m), Bi(b, s.e1, s.m.r, s.r.m));
    assert Wf(Bi(a, s.m.e0, s.m.l, s.m.m)) && Wf(Bi(b, s.e1, s.m.r, s.r.m));
    Regroup8(Elems(s.l) + [s.e0], Elems(s.m.l) + [s.m.e0] + Elems(s.m.m), s.m.e1, Elems(s.m.r), s.e1, Elems(s.r.m));
  }

  /** The search for `k` passes 3-nodes only and ends at an empty slot: the one
      situation in which an insertion reaches the root with its marker. */
  ghost predicate Overflows<K, V>(cmp: (K, K) -> int, s: Shape<K, V>, k: K) {
    match s
    case Nil => true
    case Tri(_, e0, e1, l, m, r) =>
      if cmp(k, e0.key) < 0 then Overflows(cmp, l, k)
      else if cmp(k, e0.key) == 0 then false
      else if cmp(k, e1.key) < 0 then Overflows(cmp, m, k)
      else if cmp(k, e1.key) == 0 then false
      else Overflows(cmp, r, k)
    case _ => false
  }

  /** Taking out the last element leaves a gap: there are only 2-nodes on the way
      to it, and each but the last has a 2-node beside it. */
  ghost predicate UnderflowsMax<K, V>(s: Shape<K, V>) {
    match s
    case Bi(_, _, l, r) => r.Nil? || (l.Bi? && UnderflowsMax(r))
    case _ => false
  }

  /** The search for `k` passes 2-nodes only and finds it, a 2-node lies beside each step, and the same is
      true of the way to the element that takes its place: the one situation in which a deletion
      reaches the root with its marker. */
  ghost predicate Underflows<K, V>(cmp: (K, K) -> int, s: Shape<K, V>, k: K) {
    match s
    case Bi(_, e0, l, r) =>
      if cmp(k, e0.key) < 0 then r.Bi? && Underflows(cmp, l, k)
      else if cmp(k, e0.key) == 0 then l.Nil? || (r.Bi? && UnderflowsMax(l))
      else l.Bi? && Underflows(cmp, r, k)
    case _ => false
  }

  /** One step of the search loops: the subtree to go to, or the element found. */
  lemma Descend<K(!new), V>(cmp: (K, K) -> int, s: Shape<K, V>, k: K)
    requires TotalOrder(cmp) && Sorted(cmp, Elems(s)) && (s.Bi? || s.Tri?) && Wf(s)
    ensures s.Bi? ==>
              && (cmp(k, s.e0.key) < 0 ==> Sorted(cmp, Elems(s.l)) && Get(cmp, Elems(s), k) == Get(cmp, Elems(s.l), k))
              && (cmp(k, s.e0.key) == 0 ==> Get(cmp, Elems(s), k) == Some(s.e0.val))
              && (cmp(k, s.e0.key) > 0 ==> Sorted(cmp, Elems(s.r)) && Get(cmp, Elems(s), k) == Get(cmp, Elems(s.r), k))
    ensures s.Tri? ==>
              && (cmp(k, s.e0.key) < 0 ==> Sorted(cmp, Elems(s.l)) && Get(cmp, Elems(s), k) == Get(cmp, Elems(s.l), k))
              && (cmp(k, s.e0.key) == 0 ==> Get(cmp, Elems(s), k) == Some(s.e0.val))
              && (cmp(k, s.e0.key) > 0 && cmp(k, s.e1.key) < 0 ==>
                    Sorted(cmp, Elems(s.m)) && Get(cmp, Elems(s), k) == Get(cmp, Elems(s.m), k))
              && (cmp(k, s.e0.key) > 0 && cmp(k, s.e1.key) == 0 ==> Get(cmp, Elems(s), k) == Some(s.e1.val))
              && (cmp(k, s.e0.key) > 0 && cmp(k, s.e1.key) > 0 ==>
                    Sorted(cmp, Elems(s.r)) && Get(cmp, Elems(s), k) == Get(cmp, Elems(s.r), k))
  {
    var e := Elm(k, s.e0.val);
    if s.Bi? {
      if cmp(k, s.e0.key) < 0 {
        GoLeft(cmp, Elems(s.l), s.e0, Elems(s.r), e);
      } else if cmp(k, s.e0.key) == 0 {
        HitNode(cmp, Elems(s.l), s.e0, Elems(s.r), e);
      } else {
        GoRight(cmp, Elems(s.l), s.e0, Elems(s.r), e);
      }
    } else {
      if cmp(k, s.e0.key) < 0 {
        TriLeft(cmp, Elems(s.l), s.e0, Elems(s.m), s.e1, Elems(s.r), e);
      } else if cmp(k, s.e0.key) == 0 {
        TriHit0(cmp, Elems(s.l), s.e0, Elems(s.m), s.e1, Elems(s.r), e);
      } else if cmp(k, s.e1.key) < 0 {
        TriMidle(cmp, Elems(s.l), s.e0, Elems(s.m), s.e1, Elems(s.r), e);
      } else if cmp(k, s.e1.key) == 0 {
        HitNode(cmp, Elems(s.l) + [s.e0] + Elems(s.m), s.e1, Elems(s.r), e);
      } else {
        GoRight(cmp, Elems(s.l) + [s.e0] + Elems(s.m), s.e1, Elems(s.r), e);
      }
    }
  }

  ghost function Pow2(h: nat): nat { if h == 0 then 1 else 2 * Pow2(h - 1) }

  /** A tree of height h holds at least 2^h - 1 elements. */
  lemma {:induction false} HeightBound<K, V>(s: Shape<K, V>)
    requires Wf(s) && Full(s)
    ensures Pow2(Height(s)) - 1 <= |Elems(s)|
  {
    match s
    case Nil =>
    case Bi(_, _, l, r) =>
      assert |Elems(s)| == |Elems(l)| + 1 + |Elems(r)|;
      HeightBound(l);
      HeightBound(r);
    case Tri(_, _, _, l, m, r) =>
      assert |Elems(s)| == |Elems(l)| + 1 + |Elems(m)| + 1 + |Elems(r)|;
      HeightBound(l);
      HeightBound(m);
      HeightBound(r);
  }

  class Tree23<K(!new), V> {
    const compare: (K, K) -> int
    var root: Tree23Node?<K, V>
    ghost var shape: Shape<K, V>

    ghost predicate Valid()
      reads this, Nodes(shape)
    {
      && TotalOrder(compare)
      && Rep(root, shape) && Wf(shape) && Full(shape)
      && Sorted(compare, Elems(shape))
    }

    /** The map held by the tree, in key order. */
    ghost function Contents(): seq<Elm<K, V>> reads this { Elems(shape) }

    constructor (compare: (K, K) -> int)
      requires TotalOrder(compare)
      ensures Valid() && Contents() == [] && Height(shape) == 0 && this.compare == compare
    {
      this.compare := compare;
      root, shape := null, Nil;
    }

    /** Adds a key or overwrites its value. The tree grows a level exactly
        when the insertion overflows every node on its path. */
    method Add(key: K, val: V)
      requires Valid()
      modifies this`root, this`shape, Nodes(shape)
      ensures Valid() && Grown(shape, old(shape))
      ensures Contents() == Put(compare, old(Contents()), Elm(key, val))
      ensures forall q :: Get(compare, Contents(), q) ==
                if compare(q, key) == 0 then Some(val) else Get(compare, old(Contents()), q)
      ensures Height(shape) == old(Height(shape)) + (if old(Overflows(compare, shape, key)) then 1 else 0)
    {
      ghost var was := Contents();
      PutLaw(compare, was, Elm(key, val));
      var r;
      ghost var t;
      r, t := AddAt(root, Elm(key, val), shape);
      Look(r, t);
      Parts(t);
      t := Unmark(r, t);
      root, shape := r, t;
      assert Rep(root, t);
    }

    /** The type becomes its absolute value. */
    method Unmark(r: Tree23Node<K, V>, ghost t: Shape<K, V>) returns (ghost u: Shape<K, V>)
      requires Rep(r, t) && Wf(t) && !t.Gap?
      modifies r`typ
      ensures Rep(r, u) && Wf(u) && Full(u)
      ensures Elems(u) == Elems(t) && Nodes(u) == Nodes(t) && Height(u) == Height(t) + (if t.Ins? then 1 else 0)
    {
      Look(r, t);
      u := t;
      if r.typ < 0 {
        r.Settle(t);
        u := Bi(t.n, t.e0, t.l, t.r);
      }
    }

    /** Removes a key; an absent key changes nothing. The tree loses a level exactly
        when the deletion underflows every node on its path. */
    method Remove(k: K)
      requires Valid()
      modifies this`root, this`shape, Nodes(shape)
      ensures Valid() && Grown(shape, old(shape))
      ensures Contents() == Del(compare, old(Contents()), k)
      ensures forall q :: Get(compare, Contents(), q) ==
                if compare(q, k) == 0 then None else Get(compare, old(Contents()), q)
      ensures old(Height(shape)) == Height(shape) + (if old(Underflows(compare, shape, k)) then 1 else 0)
    {
      ghost var was := Contents();
      ghost var t;
      root, t := RemoveAt(root, k, shape);
      DelLaw(compare, was, k);
      Look(root, t);
      if root != null && root.typ == DELETE_ACTIVE {
        root := root.midle;
        shape := t.m;
      } else {
        shape := t;
      }
    }

    /** Membership, in at most as many steps as the tree is high. */
    method Find(key: K) returns (found: bool, ghost visited: nat)
      requires Valid()
      ensures found <==> Get(compare, Contents(), key).Some?
      ensures visited <= Height(shape) && Pow2(Height(shape)) - 1 <= |Contents()|
    {
      HeightBound(shape);
      var node := root;
      ghost var s := shape;
      visited := 0;
      while node != null
        invariant Rep(node, s) && Wf(s) && Full(s) && Sorted(compare, Elems(s))
        invariant Get(compare, Elems(s), key) == Get(compare, Contents(), key)
        invariant visited + Height(s) == Height(shape)
        decreases Height(s)
      {
        Look(node, s);
        Descend(compare, s, key);
        visited := visited + 1;
        var cmp0 := compare(key, node.telm0.value.key);
        if node.typ == BI_NODE {
          if cmp0 < 0 {
            node, s := node.left, s.l;
          } else if cmp0 == 0 {
            return true, visited;
          } else {
            node, s := node.right, s.r;
          }
        } else {
          var cmp1 := compare(key, node.telm1.value.key);
          if cmp0 < 0 {
            node, s := node.left, s.l;
          } else if cmp0 == 0 {
            return true, visited;
          } else if cmp1 < 0 {
            node, s := node.midle, s.m;
          } else if cmp1 == 0 {
            return true, visited;
          } else {
            node, s := node.right, s.r;
          }
        }
      }
      Look(node, s);
      return false, visited;
    }

    /** The value of a key, NULL (here None) when it is absent. */
    method GetVal(key: K) returns (val: Option<V>, ghost visited: nat)
      requires Valid()
      ensures val == Get(compare, Contents(), key)
      ensures visited <= Height(shape) && Pow2(Height(shape)) - 1 <= |Contents()|
    {
      HeightBound(shape);
      var node := root;
      ghost var s := shape;
      visited := 0;
      while node != null
        invariant Rep(node, s) && Wf(s) && Full(s) && Sorted(compare, Elems(s))
        invariant Get(compare, Elems(s), key) == Get(compare, Contents(), key)
        invariant visited + Height(s) == Height(shape)
        decreases Height(s)
      {
        Look(node, s);
        Descend(compare, s, key);
        visited := visited + 1;
        var cmp0 := compare(key, node.telm0.value.key);
        if node.typ == BI_NODE {
          if cmp0 < 0 {
            node, s := node.left, s.l;
          } else if cmp0 == 0 {
            return Some(node.telm0.value.val), visited;
          } else {
            node, s := node.right, s.r;
          }
        } else {
          var cmp1 := compare(key, node.telm1.value.key);
          if cmp0 < 0 {
            node, s := node.left, s.l;
          } else if cmp0 == 0 {
            return Some(node.telm0.value.val), visited;
          } else if cmp1 < 0 {
            node, s := node.midle, s.m;
          } else if cmp1 == 0 {
            return Some(node.telm1.value.val), visited;
          } else {
            node, s := node.right, s.r;
          }
        }
      }
      Look(node, s);
      return None, visited;
    }

    method AddAt(n: Tree23Node?<K, V>, elm: Elm<K, V>, ghost s: Shape<K, V>)
      returns (res: Tree23Node<K, V>, ghost t: Shape<K, V>)
      requires TotalOrder(compare) && Rep(n, s) && Wf(s) && Full(s) && Sorted(compare, Elems(s))
      modifies Nodes(s)
      ensures Rep(res, t) && Wf(t) && Grown(t, s)
      ensures Elems(t) == Put(compare, Elems(s), elm) && Height(t) == Height(s)
      ensures !t.Gap? && (t.Ins? <==> Overflows(compare, s, elm.key))
      decreases s
    {
      Look(n, s);
      Parts(s);
      if n == null {
        res := new Tree23Node.Bi(INSERT_ACTIVE, Some(elm), null, null, Nil, Nil);
        return res, Ins(res, elm, Nil, Nil);
      }
      if n.typ == BI_NODE {
        res, t := AddBi(n, elm, s);
      } else {
        res, t := AddTri(n, elm, s);
      }
    }

    // The recursive calls, one per slot: only that slot of the node changes.

    method AddToLeft(n: Tree23Node<K, V>, elm: Elm<K, V>, ghost s: Shape<K, V>) returns (ghost u: Shape<K, V>)
      requires (s.Bi? || s.Tri?) && Rep(n, s) && Wf(s) && TotalOrder(compare) && Sorted(compare, Elems(s.l))
      modifies n`left, Nodes(s.l)
      ensures Rep(n, SetL(s, u)) && Open(SetL(s, u)) && Grown(SetL(s, u), s)
      ensures Grown(u, s.l) && (n.left != null ==> n.left in Nodes(u))
      ensures Elems(u) == Put(compare, Elems(s.l), elm)
      ensures !u.Gap? && (u.Ins? <==> Overflows(compare, s.l, elm.key))
      decreases s, 0
    {
      Look(n, s);
      Parts(s); Parts(s.l); Parts(s.r); if s.Tri? { Parts(s.m); }
      var c;
      c, u := AddAt(n.left, elm, s.l);
      Parts(u);
      Look(c, u);
      n.SetLeft(c, s, u);
    }

    method RemoveFromLeft(n: Tree23Node<K, V>, k: K, ghost s: Shape<K, V>) returns (ghost u: Shape<K, V>)
      requires (s.Bi? || s.Tri?) && Rep(n, s) && Wf(s) && TotalOrder(compare) && Sorted(compare, Elems(s.l))
      modifies n`left, Nodes(s.l)
      ensures Rep(n, SetL(s, u)) && Open(SetL(s, u)) && Grown(SetL(s, u), s)
      ensures Grown(u, s.l) && (n.left != null ==> n.left in Nodes(u))
      ensures Elems(u) == Del(compare, Elems(s.l), k) && !u.Ins?
      ensures u.Gap? <==> Underflows(compare, s.l, k)
      decreases s, 0
    {
      Look(n, s);
      Parts(s); Parts(s.l); Parts(s.r); if s.Tri? { Parts(s.m); }
      var c;
      c, u := RemoveAt(n.left, k, s.l);
      Parts(u);
      Look(c, u);
      n.SetLeft(c, s, u);
    }

    method RemoveMaxOfLeft(n: Tree23Node<K, V>, ghost s: Shape<K, V>) returns (elm: Elm<K, V>, ghost u: Shape<K, V>)
      requires (s.Bi? || s.Tri?) && Rep(n, s) && Wf(s) && n.left != null
      modifies n`left, Nodes(s.l)
      ensures Rep(n, SetL(s, u)) && Open(SetL(s, u)) && Grown(SetL(s, u), s)
      ensures Grown(u, s.l) && (n.left != null ==> n.left in Nodes(u))
      ensures Elems(s.l) == Elems(u) + [elm] && !u.Ins?
      ensures u.Gap? <==> UnderflowsMax(s.l)
      decreases s, 0
    {
      Look(n, s);
      Parts(s); Parts(s.l); Parts(s.r); if s.Tri? { Parts(s.m); }
      var c;
      c, elm, u := RemoveMax(n.left, s.l);
      Parts(u);
      Look(c, u);
      n.SetLeft(c, s, u);
    }

    method AddToMidle(n: Tree23Node<K, V>, elm: Elm<K, V>, ghost s: Shape<K, V>) returns (ghost u: Shape<K, V>)
      requires (s.Tri?) && Rep(n, s) && Wf(s) && TotalOrder(compare) && Sorted(compare, Elems(s.m))
      modifies n`midle, Nodes(s.m)
      ensures Rep(n, SetM(s, u)) && Open(SetM(s, u)) && Grown(SetM(s, u), s)
      ensures Grown(u, s.m) && (n.midle != null ==> n.midle in Nodes(u))
      ensures Elems(u) == Put(compare, Elems(s.m), elm)
      ensures !u.Gap? && (u.Ins? <==> Overflows(compare, s.m, elm.key))
      decreases s, 0
    {
      Look(n, s);
      Parts(s); Parts(s.l); Parts(s.r); Parts(s.m);
      var c;
      c, u := AddAt(n.midle, elm, s.m);
      Parts(u);
      Look(c, u);
      n.SetMidle(c, s, u);
    }

    method RemoveFromMidle(n: Tree23Node<K, V>, k: K, ghost s: Shape<K, V>) returns (ghost u: Shape<K, V>)
      requires (s.Tri?) && Rep(n, s) && Wf(s) && TotalOrder(compare) && Sorted(compare, Elems(s.m))
      modifies n`midle, Nodes(s.m)
      ensures Rep(n, SetM(s, u)) && Open(SetM(s, u)) && Grown(SetM(s, u), s)
      ensures Grown(u, s.m) && (n.midle != null ==> n.midle in Nodes(u))
      ensures Elems(u) == Del(compare, Elems(s.m), k) && !u.Ins?
      decreases s, 0
    {
      Look(n, s);
      Parts(s); Parts(s.l); Parts(s.r); Parts(s.m);
      var c;
      c, u := RemoveAt(n.midle, k, s.m);
      Parts(u);
      Look(c, u);
      n.SetMidle(c, s, u);
    }

    method RemoveMaxOfMidle(n: Tree23Node<K, V>, ghost s: Shape<K, V>) returns (elm: Elm<K, V>, ghost u: Shape<K, V>)
      requires (s.Tri?) && Rep(n, s) && Wf(s) && n.midle != null
      modifies n`midle, Nodes(s.m)
      ensures Rep(n, SetM(s, u)) && Open(SetM(s, u)) && Grown(SetM(s, u), s)
      ensures Grown(u, s.m) && (n.midle != null ==> n.midle in Nodes(u))
      ensures Elems(s.m) == Elems(u) + [elm] && !u.Ins?
      decreases s, 0
    {
      Look(n, s);
      Parts(s); Parts(s.l); Parts(s.r); Parts(s.m);
      var c;
      c, elm, u := RemoveMax(n.midle, s.m);
      Parts(u);
      Look(c, u);
      n.SetMidle(c, s, u);
    }

    method AddToRight(n: Tree23Node<K, V>, elm: Elm<K, V>, ghost s: Shape<K, V>) returns (ghost u: Shape<K, V>)
      requires (s.Bi? || s.Tri?) && Rep(n, s) && Wf(s) && TotalOrder(compare) && Sorted(compare, Elems(s.r))
      modifies n`right, Nodes(s.r)
      ensures Rep(n, SetR(s, u)) && Open(SetR(s, u)) && Grown(SetR(s, u), s)
      ensures Grown(u, s.r) && (n.right != null ==> n.right in Nodes(u))
      ensures Elems(u) == Put(compare, Elems(s.r), elm)
      ensures !u.Gap? && (u.Ins? <==> Overflows(compare, s.r, elm.key))
      decreases s, 0
    {
      Look(n, s);
      Parts(s); Parts(s.l); Parts(s.r); if s.Tri? { Parts(s.m); }
      var c;
      c, u := AddAt(n.right, elm, s.r);
      Parts(u);
      Look(c, u);
      n.SetRight(c, s, u);
    }

    method RemoveFromRight(n: Tree23Node<K, V>, k: K, ghost s: Shape<K, V>) returns (ghost u: Shape<K, V>)
      requires (s.Bi? || s.Tri?) && Rep(n, s) && Wf(s) && TotalOrder(compare) && Sorted(compare, Elems(s.r))
      modifies n`right, Nodes(s.r)
      ensures Rep(n, SetR(s, u)) && Open(SetR(s, u)) && Grown(SetR(s, u), s)
      ensures Grown(u, s.r) && (n.right != null ==> n.right in Nodes(u))
      ensures Elems(u) == Del(compare, Elems(s.r), k) && !u.Ins?
      ensures u.Gap? <==> Underflows(compare, s.r, k)
      decreases s, 0
    {
      Look(n, s);
      Parts(s); Parts(s.l); Parts(s.r); if s.Tri? { Parts(s.m); }
      var c;
      c, u := RemoveAt(n.right, k, s.r);
      Parts(u);
      Look(c, u);
      n.SetRight(c, s, u);
    }

    method RemoveMaxOfRight(n: Tree23Node<K, V>, ghost s: Shape<K, V>) returns (elm: Elm<K, V>, ghost u: Shape<K, V>)
      requires (s.Bi? || s.Tri?) && Rep(n, s) && Wf(s) && n.right != null
      modifies n`right, Nodes(s.r)
      ensures Rep(n, SetR(s, u)) && Open(SetR(s, u)) && Grown(SetR(s, u), s)
      ensures Grown(u, s.r) && (n.right != null ==> n.right in Nodes(u))
      ensures Elems(s.r) == Elems(u) + [elm] && !u.Ins?
      ensures u.Gap? <==> UnderflowsMax(s.r)
      decreases s, 0
    {
      Look(n, s);
      Parts(s); Parts(s.l); Parts(s.r); if s.Tri? { Parts(s.m); }
      var c;
      c, elm, u := RemoveMax(n.right, s.r);
      Parts(u);
      Look(c, u);
      n.SetRight(c, s, u);
    }

    method AddBi(n: Tree23Node<K, V>, elm: Elm<K, V>, ghost s: Shape<K, V>)
      returns (res: Tree23Node<K, V>, ghost t: Shape<K, V>)
      requires TotalOrder(compare) && Rep(n, s) && s.Bi? && Wf(s) && Sorted(compare, Elems(s))
      modifies Nodes(s)
      ensures Rep(res, t) && Wf(t) && Full(t) && Grown(t, s)
      ensures Elems(t) == Put(compare, Elems(s), elm) && Height(t) == Height(s)
      decreases s, 1
    {
      Look(n, s);
      Parts(s);
      var cmp0 := compare(elm.key, n.telm0.value.key);
      ghost var u;
      if cmp0 < 0 {
        GoLeft(compare, Elems(s.l), s.e0, Elems(s.r), elm);
        u := AddToLeft(n, elm, s);
        Parts(SetL(s, u));
        res, t := AddLeft2(n, SetL(s, u));
      } else if cmp0 == 0 {
        HitNode(compare, Elems(s.l), s.e0, Elems(s.r), elm);
        n.SetElm0(elm, s);
        res, t := n, SetE0(s, elm);
      } else {
        GoRight(compare, Elems(s.l), s.e0, Elems(s.r), elm);
        u := AddToRight(n, elm, s);
        Parts(SetR(s, u));
        res, t := AddRight2(n, SetR(s, u));
      }
    }

    method AddTri(n: Tree23Node<K, V>, elm: Elm<K, V>, ghost s: Shape<K, V>)
      returns (res: Tree23Node<K, V>, ghost t: Shape<K, V>)
      requires TotalOrder(compare) && Rep(n, s) && s.Tri? && Wf(s) && Sorted(compare, Elems(s))
      modifies Nodes(s)
      ensures Rep(res, t) && Wf(t) && Grown(t, s)
      ensures Elems(t) == Put(compare, Elems(s), elm) && Height(t) == Height(s)
      ensures !t.Gap? && !t.Nil? && (t.Ins? <==> Overflows(compare, s, elm.key))
      decreases s, 1
    {
      Look(n, s);
      Parts(s);
      var cmp0 := compare(elm.key, n.telm0.value.key);
      var cmp1 := compare(elm.key, n.telm1.value.key);
      ghost var u;
      if cmp0 < 0 {
        TriLeft(compare, Elems(s.l), s.e0, Elems(s.m), s.e1, Elems(s.r), elm);
        u := AddToLeft(n, elm, s);
        Parts(SetL(s, u));
        res, t := AddLeft3(n, SetL(s, u));
      } else if cmp0 == 0 {
        TriHit0(compare, Elems(s.l), s.e0, Elems(s.m), s.e1, Elems(s.r), elm);
        n.SetElm0(elm, s);
        res, t := n, SetE0(s, elm);
      } else if cmp1 < 0 {
        TriMidle(compare, Elems(s.l), s.e0, Elems(s.m), s.e1, Elems(s.r), elm);
        u := AddToMidle(n, elm, s);
        Parts(SetM(s, u));
        res, t := AddMidle3(n, SetM(s, u));
      } else if cmp1 == 0 {
        HitNode(compare, Elems(s.l) + [s.e0] + Elems(s.m), s.e1, Elems(s.r), elm);
        n.SetElm1(elm, s);
        res, t := n, SetE1(s, elm);
      } else {
        GoRight(compare, Elems(s.l) + [s.e0] + Elems(s.m), s.e1, Elems(s.r), elm);
        u := AddToRight(n, elm, s);
        Parts(SetR(s, u));
        res, t := AddRight3(n, SetR(s, u));
      }
    }

    method RemoveAt(n: Tree23Node?<K, V>, k: K, ghost s: Shape<K, V>)
      returns (res: Tree23Node?<K, V>, ghost t: Shape<K, V>)
      requires TotalOrder(compare) && Rep(n, s) && Wf(s) && Full(s) && Sorted(compare, Elems(s))
      modifies Nodes(s)
      ensures Rep(res, t) && Wf(t) && Grown(t, s)
      ensures Elems(t) == Del(compare, Elems(s), k) && Height(t) == Height(s) && !t.Ins?
      ensures t.Gap? <==> Underflows(compare, s, k)
      decreases s
    {
      Look(n, s);
      if n == null {
        return null, Nil;
      }
      if n.typ == BI_NODE {
        res, t := RemoveBi(n, k, s);
      } else {
        res, t := RemoveTri(n, k, s);
      }
    }

    method RemoveBi(n: Tree23Node<K, V>, k: K, ghost s: Shape<K, V>)
      returns (res: Tree23Node<K, V>, ghost t: Shape<K, V>)
      requires TotalOrder(compare) && Rep(n, s) && s.Bi? && Wf(s) && Sorted(compare, Elems(s))
      modifies Nodes(s)
      ensures Rep(res, t) && Wf(t) && Grown(t, s)
      ensures Elems(t) == Del(compare, Elems(s), k) && Height(t) == Height(s) && !t.Ins?
      ensures t.Gap? <==> Underflows(compare, s, k)
      decreases s, 1
    {
      Look(n, s);
      Parts(s);
      ghost var e := Elm(k, s.e0.val);
      var cmp0 := compare(k, n.telm0.value.key);
      ghost var u;
      if cmp0 < 0 {
        GoLeft(compare, Elems(s.l), s.e0, Elems(s.r), e);
        u := RemoveFromLeft(n, k, s);
        Parts(SetL(s, u));
        res, t := RemoveLeft2(n, SetL(s, u));
      } else if cmp0 == 0 {
        HitNode(compare, Elems(s.l), s.e0, Elems(s.r), e);
        if n.left == null {
          Look(n.left, s.l);
          res := new Tree23Node.Hole(DELETE_ACTIVE, null, Nil);
          return res, Gap(res, Nil);
        }
        var maxLeft;
        maxLeft, u := RemoveMaxOfLeft(n, s);
        n.SetElm0(maxLeft, SetL(s, u));
        Parts(SetE0(SetL(s, u), maxLeft));
        res, t := RemoveLeft2(n, SetE0(SetL(s, u), maxLeft));
      } else {
        GoRight(compare, Elems(s.l), s.e0, Elems(s.r), e);
        u := RemoveFromRight(n, k, s);
        Parts(SetR(s, u));
        res, t := RemoveRight2(n, SetR(s, u));
      }
    }

    method RemoveTri(n: Tree23Node<K, V>, k: K, ghost s: Shape<K, V>)
      returns (res: Tree23Node<K, V>, ghost t: Shape<K, V>)
      requires TotalOrder(compare) && Rep(n, s) && s.Tri? && Wf(s) && Sorted(compare, Elems(s))
      modifies Nodes(s)
      ensures Rep(res, t) && Wf(t) && Full(t) && Grown(t, s)
      ensures Elems(t) == Del(compare, Elems(s), k) && Height(t) == Height(s)
      decreases s, 1
    {
      Look(n, s);
      Parts(s);
      ghost var e := Elm(k, s.e0.val);
      var cmp0, cmp1 := compare(k, n.telm0.value.key), compare(k, n.telm1.value.key);
      ghost var u;
      if cmp0 < 0 {
        TriLeft(compare, Elems(s.l), s.e0, Elems(s.m), s.e1, Elems(s.r), e);
        u := RemoveFromLeft(n, k, s);
        Parts(SetL(s, u));
        res, t := RemoveLeft3(n, SetL(s, u));
      } else if cmp0 == 0 {
        TriHit0(compare, Elems(s.l), s.e0, Elems(s.m), s.e1, Elems(s.r), e);
        if n.left == null {
          Look(n.left, s.l);
          res := new Tree23Node.Bi(BI_NODE, n.telm1, null, null, Nil, Nil);
          return res, Bi(res, s.e1, Nil, Nil);
        }
        var maxLeft;
        maxLeft, u := RemoveMaxOfLeft(n, s);
        n.SetElm0(maxLeft, SetL(s, u));
        Parts(SetE0(SetL(s, u), maxLeft));
        res, t := RemoveLeft3(n, SetE0(SetL(s, u), maxLeft));
      } else if cmp1 < 0 {
        TriMidle(compare, Elems(s.l), s.e0, Elems(s.m), s.e1, Elems(s.r), e);
        u := RemoveFromMidle(n, k, s);
        Parts(SetM(s, u));
        res, t := RemoveMidle3(n, SetM(s, u));
      } else if cmp1 == 0 {
        HitNode(compare, Elems(s.l) + [s.e0] + Elems(s.m), s.e1, Elems(s.r), e);
        if n.midle == null {
          Look(n.midle, s.m);
          res := new Tree23Node.Bi(BI_NODE, n.telm0, null, null, Nil, Nil);
          return res, Bi(res, s.e0, Nil, Nil);
        }
        var maxMidle;
        maxMidle, u := RemoveMaxOfMidle(n, s);
        n.SetElm1(maxMidle, SetM(s, u));
        Parts(SetE1(SetM(s, u), maxMidle));
        MoveMax(Elems(s.l) + [s.e0], Elems(u), maxMidle, Elems(s.r));
        res, t := RemoveMidle3(n, SetE1(SetM(s, u), maxMidle));
      } else {
        GoRight(compare, Elems(s.l) + [s.e0] + Elems(s.m), s.e1, Elems(s.r), e);
        u := RemoveFromRight(n, k, s);
        Parts(SetR(s, u));
        res, t := RemoveRight3(n, SetR(s, u));
      }
    }

    /** Takes out the last element of a non-empty subtree. */
    method RemoveMax(node: Tree23Node<K, V>, ghost s: Shape<K, V>)
      returns (res: Tree23Node<K, V>, elm: Elm<K, V>, ghost t: Shape<K, V>)
      requires Rep(node, s) && Wf(s) && Full(s)
      modifies Nodes(s)
      ensures Rep(res, t) && Wf(t) && Grown(t, s)
      ensures Elems(s) == Elems(t) + [elm] && Height(t) == Height(s) && !t.Ins?
      ensures t.Gap? <==> UnderflowsMax(s)
      decreases s, 1
    {
      Look(node, s);
      Parts(s);
      Look(node.right, s.r);
      if node.right == null {
        if node.typ == BI_NODE {
          elm := node.telm0.value;
          res := new Tree23Node.Hole(DELETE_ACTIVE, null, Nil);
          t := Gap(res, Nil);
        } else {
          elm := node.telm1.value;
          res := new Tree23Node.Bi(BI_NODE, node.telm0, null, null, Nil, Nil);
          t := Bi(res, s.e0, Nil, Nil);
        }
      } else {
        ghost var u;
        elm, u := RemoveMaxOfRight(node, s);
        Parts(SetR(s, u));
        if node.typ == BI_NODE {
          res, t := RemoveRight2(node, SetR(s, u));
        } else {
          res, t := RemoveRight3(node, SetR(s, u));
        }
      }
    }

    // ---- insertion ----

    method AddLeft2(node: Tree23Node<K, V>, ghost s: Shape<K, V>) returns (res: Tree23Node<K, V>, ghost t: Shape<K, V>)
      requires s.Bi? && Rep(node, s) && Open(s) && Full(s.r) && !s.l.Gap?
      ensures Rep(res, t) && Same(t, s) && Full(t) && Grown(t, s)
    {
      Parts(s); Look(node, s);
      var n := node.left;
      Parts(s.l); Look(n, s.l);
      if n != null && n.typ == INSERT_ACTIVE {
        res := new Tree23Node.Tri(n.telm0, node.telm0, n.left, n.right, node.right, s.l.l, s.l.r, s.r);
        t := Tri(res, s.l.e0, s.e0, s.l.l, s.l.r, s.r);
      } else {
        res, t := node, s;
      }
    }

    method AddRight2(node: Tree23Node<K, V>, ghost s: Shape<K, V>) returns (res: Tree23Node<K, V>, ghost t: Shape<K, V>)
      requires s.Bi? && Rep(node, s) && Open(s) && Full(s.l) && !s.r.Gap?
      ensures Rep(res, t) && Same(t, s) && Full(t) && Grown(t, s)
    {
      Parts(s); Look(node, s);
      var n := node.right;
      Parts(s.r); Look(n, s.r);
      if n != null && n.typ == INSERT_ACTIVE {
        res := new Tree23Node.Tri(node.telm0, n.telm0, node.left, n.left, n.right, s.l, s.r.l, s.r.r);
        t := Tri(res, s.e0, s.r.e0, s.l, s.r.l, s.r.r);
        Regroup(Elems(s.l), s.e0, Elems(s.r.l), s.r.e0, Elems(s.r.r));
      } else {
        res, t := node, s;
      }
    }

    method AddLeft3(node: Tree23Node<K, V>, ghost s: Shape<K, V>) returns (res: Tree23Node<K, V>, ghost t: Shape<K, V>)
      requires s.Tri? && Rep(node, s) && Open(s) && Full(s.m) && Full(s.r) && !s.l.Gap?
      modifies node.left
      ensures Rep(res, t) && Same(t, s) && !t.Gap? && (t.Ins? <==> s.l.Ins?) && Grown(t, s)
    {
      Parts(s); Look(node, s);
      var n := node.left;
      Parts(s.l); Look(n, s.l);
      if n != null && n.typ == INSERT_ACTIVE {
        n.Settle(s.l);
        ghost var l := Bi(n, s.l.e0, s.l.l, s.l.r);
        var nn := new Tree23Node.Bi(BI_NODE, node.telm1, node.midle, node.right, s.m, s.r);
        res := new Tree23Node.Bi(INSERT_ACTIVE, node.telm0, n, nn, l, Bi(nn, s.e1, s.m, s.r));
        t := SplitLeft(s, res, nn);
      } else {
        res, t := node, s;
      }
    }

    method AddRight3(node: Tree23Node<K, V>, ghost s: Shape<K, V>) returns (res: Tree23Node<K, V>, ghost t: Shape<K, V>)
      requires s.Tri? && Rep(node, s) && Open(s) && Full(s.l) && Full(s.m) && !s.r.Gap?
      modifies node.right
      ensures Rep(res, t) && Same(t, s) && !t.Gap? && (t.Ins? <==> s.r.Ins?) && Grown(t, s)
    {
      Parts(s); Look(node, s);
      var n := node.right;
      Parts(s.r); Look(n, s.r);
      if n != null && n.typ == INSERT_ACTIVE {
        n.Settle(s.r);
        ghost var r := Bi(n, s.r.e0, s.r.l, s.r.r);
        var nn := new Tree23Node.Bi(BI_NODE, node.telm0, node.left, node.midle, s.l, s.m);
        res := new Tree23Node.Bi(INSERT_ACTIVE, node.telm1, nn, n, Bi(nn, s.e0, s.l, s.m), r);
        t := SplitRight(s, res, nn);
      } else {
        res, t := node, s;
      }
    }

    method AddMidle3(node: Tree23Node<K, V>, ghost s: Shape<K, V>) returns (res: Tree23Node<K, V>, ghost t: Shape<K, V>)
      requires s.Tri? && Rep(node, s) && Open(s) && Full(s.l) && Full(s.r) && !s.m.Gap?
      modifies node.midle
      ensures Rep(res, t) && Same(t, s) && !t.Gap? && (t.Ins? <==> s.m.Ins?) && Grown(t, s)
    {
      Parts(s); Look(node, s);
      var n := node.midle;
      Parts(s.m); Look(n, s.m);
      if n != null && n.typ == INSERT_ACTIVE {
        var ln := new Tree23Node.Bi(BI_NODE, node.telm0, node.left, n.left, s.l, s.m.l);
        var rn := new Tree23Node.Bi(BI_NODE, node.telm1, n.right, node.right, s.m.r, s.r);
        n.SetSlots(ln, rn, Bi(ln, s.e0, s.l, s.m.l), Bi(rn, s.e1, s.m.r, s.r));
        res := n;
        t := SplitMidle(s, ln, rn);
      } else {
        res, t := node, s;
      }
    }

    // ---- deletion ----

    method RemoveLeft2(node: Tree23Node<K, V>, ghost s: Shape<K, V>)
      returns (res: Tree23Node<K, V>, ghost t: Shape<K, V>)
      requires s.Bi? && Rep(node, s) && Open(s) && Full(s.r) && !s.l.Ins?
      ensures Rep(res, t) && Same(t, s) && !t.Ins? && (t.Gap? <==> s.l.Gap? && s.r.Bi?) && Grown(t, s)
    {
      Parts(s); Look(node, s);
      var n := node.left;
      Parts(s.l); Look(n, s.l);
      if n != null && n.typ == DELETE_ACTIVE {
        var r := node.right;
        Parts(s.r); Look(r, s.r);
        if r.typ == BI_NODE {
          var midle := new Tree23Node.Tri(node.telm0, r.telm0, n.midle, r.left, r.right, s.l.m, s.r.l, s.r.r);
          res := new Tree23Node.Hole(DELETE_ACTIVE, midle, Tri(midle, s.e0, s.r.e0, s.l.m, s.r.l, s.r.r));
          t := MergeLeft2(s, res, midle);
        } else {
          var left := new Tree23Node.Bi(BI_NODE, node.telm0, n.midle, r.left, s.l.m, s.r.l);
          var right := new Tree23Node.Bi(BI_NODE, r.telm1, r.midle, r.right, s.r.m, s.r.r);
          res := new Tree23Node.Bi(BI_NODE, r.telm0, left, right,
                                   Bi(left, s.e0, s.l.m, s.r.l), Bi(right, s.r.e1, s.r.m, s.r.r));
          t := BorrowLeft2(s, res, left, right);
        }
      } else {
        res, t := node, s;
      }
    }

    method RemoveRight2(node: Tree23Node<K, V>, ghost s: Shape<K, V>)
      returns (res: Tree23Node<K, V>, ghost t: Shape<K, V>)
      requires s.Bi? && Rep(node, s) && Open(s) && Full(s.l) && !s.r.Ins?
      ensures Rep(res, t) && Same(t, s) && !t.Ins? && (t.Gap? <==> s.r.Gap? && s.l.Bi?) && Grown(t, s)
    {
      Parts(s); Look(node, s);
      var n := node.right;
      Parts(s.r); Look(n, s.r);
      if n != null && n.typ == DELETE_ACTIVE {
        var l := node.left;
        Parts(s.l); Look(l, s.l);
        if l.typ == BI_NODE {
          var midle := new Tree23Node.Tri(l.telm0, node.telm0, l.left, l.right, n.midle, s.l.l, s.l.r, s.r.m);
          res := new Tree23Node.Hole(DELETE_ACTIVE, midle, Tri(midle, s.l.e0, s.e0, s.l.l, s.l.r, s.r.m));
          t := MergeRight2(s, res, midle);
        } else {
          var right := new Tree23Node.Bi(BI_NODE, node.telm0, l.right, n.midle, s.l.r, s.r.m);
          var left := new Tree23Node.Bi(BI_NODE, l.telm0, l.left, l.midle, s.l.l, s.l.m);
          res := new Tree23Node.Bi(BI_NODE, l.telm1, left, right,
                                   Bi(left, s.l.e0, s.l.l, s.l.m), Bi(right, s.e0, s.l.r, s.r.m));
          t := BorrowRight2(s, res, left, right);
        }
      } else {
        res, t := node, s;
      }
    }

    method RemoveLeft3(node: Tree23Node<K, V>, ghost s: Shape<K, V>)
      returns (res: Tree23Node<K, V>, ghost t: Shape<K, V>)
      requires s.Tri? && Rep(node, s) && Open(s) && Full(s.m) && Full(s.r) && !s.l.Ins?
      ensures Rep(res, t) && Same(t, s) && !t.Ins? && !t.Gap? && Grown(t, s)
    {
      Parts(s); Look(node, s);
      var n := node.left;
      Parts(s.l); Look(n, s.l);
      if n != null && n.typ == DELETE_ACTIVE {
        var m := node.midle;
        Parts(s.m); Look(m, s.m);
        if m.typ == BI_NODE {
          var left := new Tree23Node.Tri(node.telm0, m.telm0, n.midle, m.left, m.right, s.l.m, s.m.l, s.m.r);
          res := new Tree23Node.Bi(BI_NODE, node.telm1, left, node.right,
                                   Tri(left, s.e0, s.m.e0, s.l.m, s.m.l, s.m.r), s.r);
          t := MergeLeft3(s, res, left);
        } else {
          var left := new Tree23Node.Bi(BI_NODE, node.telm0, n.midle, m.left, s.l.m, s.m.l);
          var midle := new Tree23Node.Bi(BI_NODE, m.telm1, m.midle, m.right, s.m.m, s.m.r);
          res := new Tree23Node.Tri(m.telm0, node.telm1, left, midle, node.right,
                                    Bi(left, s.e0, s.l.m, s.m.l), Bi(midle, s.m.e1, s.m.m, s.m.r), s.r);
          t := BorrowLeft3(s, res, left, midle);
        }
      } else {
        res, t := node, s;
      }
    }

    method RemoveMidle3(node: Tree23Node<K, V>, ghost s: Shape<K, V>)
      returns (res: Tree23Node<K, V>, ghost t: Shape<K, V>)
      requires s.Tri? && Rep(node, s) && Open(s) && Full(s.l) && Full(s.r) && !s.m.Ins?
      ensures Rep(res, t) && Same(t, s) && !t.Ins? && !t.Gap? && Grown(t, s)
    {
      Parts(s); Look(node, s);
      var n := node.midle;
      Parts(s.m); Look(n, s.m);
      if n != null && n.typ == DELETE_ACTIVE {
        var r := node.right;
        Parts(s.r); Look(r, s.r);
        if r.typ == BI_NODE {
          var right := new Tree23Node.Tri(node.telm1, r.telm0, n.midle, r.left, r.right, s.m.m, s.r.l, s.r.r);
          res := new Tree23Node.Bi(BI_NODE, node.telm0, node.left, right,
                                   s.l, Tri(right, s.e1, s.r.e0, s.m.m, s.r.l, s.r.r));
          t := MergeMidle3(s, res, right);
        } else {
          var midle := new Tree23Node.Bi(BI_NODE, node.telm1, n.midle, r.left, s.m.m, s.r.l);
          var right := new Tree23Node.Bi(BI_NODE, r.telm1, r.midle, r.right, s.r.m, s.r.r);
          res := new Tree23Node.Tri(node.telm0, r.telm0, node.left, midle, right,
                                    s.l, Bi(midle, s.e1, s.m.m, s.r.l), Bi(right, s.r.e1, s.r.m, s.r.r));
          t := BorrowMidle3(s, res, midle, right);
        }
      } else {
        res, t := node, s;
      }
    }

    method RemoveRight3(node: Tree23Node<K, V>, ghost s: Shape<K, V>)
      returns (res: Tree23Node<K, V>, ghost t: Shape<K, V>)
      requires s.Tri? && Rep(node, s) && Open(s) && Full(s.l) && Full(s.m) && !s.r.Ins?
      ensures Rep(res, t) && Same(t, s) && !t.Ins? && !t.Gap? && Grown(t, s)
    {
      Parts(s); Look(node, s);
      var n := node.right;
      Parts(s.r); Look(n, s.r);
      if n != null && n.typ == DELETE_ACTIVE {
        var m := node.midle;
        Parts(s.m); Look(m, s.m);
        if m.typ == BI_NODE {
          var right := new Tree23Node.Tri(m.telm0, node.telm1, m.left, m.right, n.midle, s.m.l, s.m.r, s.r.m);
          res := new Tree23Node.Bi(BI_NODE, node.telm0, node.left, right,
                                   s.l, Tri(right, s.m.e0, s.e1, s.m.l, s.m.r, s.r.m));
          t := MergeRight3(s, res, right);
        } else {
          var right := new Tree23Node.Bi(BI_NODE, node.telm1, m.right, n.midle, s.m.r, s.r.m);
          var midle := new Tree23Node.Bi(BI_NODE, m.telm0, m.left, m.midle, s.m.l, s.m.m);
          res := new Tree23Node.Tri(node.telm0, m.telm1, node.left, midle, right,
                                    s.l, Bi(midle, s.m.e0, s.m.l, s.m.m), Bi(right, s.e1, s.m.r, s.r.m));
          t := BorrowRight3(s, res, midle, right);
        }
      } else {
        res, t := node, s;
      }
    }
  }
}
