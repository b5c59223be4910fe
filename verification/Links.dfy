/** The doubly linked list that the gateway's small tables are made of: elements are
    appended at the end, looked for from the front and unlinked anywhere. */
module LinkedTable {
  import opened SortedMap

  class Link<T> {
    const item: T
    var next: Link?<T>
    var prev: Link?<T>

    constructor (item: T)
      ensures this.item == item && next == null && prev == null
    {
      this.item, next, prev := item, null, null;
    }
  }

  /** Indexing by a name of its own: the quantifiers over a list are used only where it is mentioned. */
  ghost function Nth<T>(s: seq<T>, i: int): T
    requires 0 <= i < |s|
  {
    s[i]
  }

  ghost function Behind<T>(ls: seq<Link<T>>, i: int): Link?<T>
    requires 0 <= i < |ls|
  {
    if i + 1 < |ls| then ls[i + 1] else null
  }

  ghost function Before<T>(ls: seq<Link<T>>, i: int): Link?<T>
    requires 0 <= i < |ls|
  {
    if i > 0 then ls[i - 1] else null
  }

  ghost function Items<T>(ls: seq<Link<T>>): (r: seq<T>)
    ensures |r| == |ls|
  {
    if ls == [] then [] else [ls[0].item] + Items(ls[1..])
  }

  lemma {:induction false} ItemsConcat<T>(a: seq<Link<T>>, b: seq<Link<T>>)
    ensures Items(a + b) == Items(a) + Items(b)
  {
    if a == [] {
      assert a + b == b;
    } else {
      assert (a + b)[1..] == a[1..] + b;
      ItemsConcat(a[1..], b);
    }
  }

  function Without<T>(s: seq<T>, i: nat): seq<T>
    requires i < |s|
  {
    s[..i] + s[i + 1..]
  }

  lemma WithoutTail<T>(s: seq<T>, i: nat)
    requires 0 < i < |s|
    ensures Without(s, i) == [s[0]] + Without(s[1..], i - 1)
  {
  }

  lemma {:induction false} ItemsWithout<T>(ls: seq<Link<T>>, i: nat)
    requires i < |ls|
    ensures Items(ls)[i] == ls[i].item
    ensures Items(Without(ls, i)) == Without(Items(ls), i)
    decreases i
  {
    if i == 0 {
      assert Without(ls, 0) == ls[1..] && Without(Items(ls), 0) == Items(ls[1..]);
    } else {
      ItemsWithout(ls[1..], i - 1);
      WithoutTail(ls, i);
      WithoutTail(Items(ls), i);
      assert Without(ls, i)[1..] == Without(ls[1..], i - 1);
    }
  }

  /** The first position whose item satisfies `f`, the length when there is none. */
  function FirstIndex<T>(s: seq<T>, f: T -> bool): (i: nat)
    ensures i <= |s| && (i < |s| ==> f(s[i]))
    ensures forall j :: 0 <= j < i ==> !f(s[j])
  {
    if s == [] then 0
    else if f(s[0]) then 0
    else 1 + FirstIndex(s[1..], f)
  }

  class Links<T> {
    var first: Link?<T>
    var end: Link?<T>
    ghost var spine: seq<Link<T>>

    ghost predicate Valid()
      reads this, spine
    {
      && first == (if spine == [] then null else spine[0])
      && end == (if spine == [] then null else spine[|spine| - 1])
      && (forall i {:trigger Nth(spine, i)} :: 0 <= i < |spine| ==>
            Nth(spine, i).next == Behind(spine, i) && Nth(spine, i).prev == Before(spine, i))
      && (forall i, j {:trigger Nth(spine, i), Nth(spine, j)} ::
            0 <= i < j < |spine| ==> Nth(spine, i) != Nth(spine, j))
    }

    ghost function Contents(): seq<T> reads this { Items(spine) }

    constructor ()
      ensures Valid() && Contents() == [] && spine == []
    {
      first, end, spine := null, null, [];
    }

    method Append(item: T)
      requires Valid()
      modifies this, spine
      ensures Valid() && Contents() == old(Contents()) + [item]
      ensures forall k :: 0 <= k < |spine| ==> spine[k] in old(spine) || fresh(spine[k])
    {
      var elm := new Link(item);
      if first == null {
        first, end := elm, elm;
      } else {
        assert end == Nth(spine, |spine| - 1);
        elm.prev := end;
        end.next := elm;
        end := elm;
      }
      ghost var was := spine;
      ItemsConcat(spine, [elm]);
      spine := spine + [elm];
      assert forall j {:trigger Nth(spine, j)} :: 0 <= j < |was| ==> Nth(spine, j) == Nth(was, j);
    }

    /** The first link whose item satisfies `f`. */
    method Find(f: T -> bool) returns (p: Link?<T>, ghost i: nat)
      requires Valid()
      ensures i == FirstIndex(Contents(), f) && i <= |spine|
      ensures p == (if i == |spine| then null else spine[i])
      ensures p != null ==> p.item == Contents()[i] && f(p.item)
    {
      p, i := first, 0;
      while p != null
        invariant i <= |spine| && p == (if i == |spine| then null else spine[i])
        invariant FirstIndex(Items(spine), f) == i + FirstIndex(Items(spine[i..]), f)
        decreases |spine| - i
      {
        assert p == Nth(spine, i) && spine[i..][1..] == spine[i + 1..];
        assert Items(spine[i..])[1..] == Items(spine[i + 1..]);
        ItemsWithout(spine, i);
        if f(p.item) {
          return;
        }
        p := p.next;
        i := i + 1;
      }
    }

    method Unlink(p: Link<T>, ghost i: nat)
      requires Valid() && i < |spine| && spine[i] == p
      modifies this, spine
      ensures Valid() && spine == Without(old(spine), i) && Contents() == Without(old(Contents()), i)
    {
      ghost var was, less := spine, Without(spine, i);
      ItemsWithout(spine, i);
      assert Nth(was, i) == p;
      assert i > 0 ==> p.prev == Nth(was, i - 1);
      assert i + 1 < |was| ==> p.next == Nth(was, i + 1);
      assert i > 0 ==> Nth(was, 0) != p;
      assert i + 1 < |was| ==> Nth(was, |was| - 1) != p;
      if p.prev == null {
        first := p.next;
      } else {
        p.prev.next := p.next;
      }
      if p.next == null {
        end := p.prev;
      } else {
        p.next.prev := p.prev;
      }
      spine := less;
      forall j | 0 <= j < |less|
        ensures Nth(less, j).next == Behind(less, j) && Nth(less, j).prev == Before(less, j)
      {
        var k := if j < i then j else j + 1;
        assert Nth(less, j) == Nth(was, k);
        assert k != i - 1 && i > 0 ==> Nth(was, k) != Nth(was, i - 1);
        assert k != i + 1 && i + 1 < |was| ==> Nth(was, k) != Nth(was, i + 1);
      }
      assert forall j {:trigger Nth(less, j)} ::
          0 <= j < |less| ==> Nth(less, j) == Nth(was, if j < i then j else j + 1);
    }

    method Clear()
      requires Valid()
      modifies this
      ensures Valid() && Contents() == [] && spine == []
    {
      first, end, spine := null, null, [];
    }
  }
}
