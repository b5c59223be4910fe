/** Que: the singly traversed linked queue under every event queue and packet buffer. */
module LinkedQueue {
  import opened SortedMap

  /** A queue accepts an element while it is below its limit; 0 means no limit. */
  predicate HasRoom(size: int, maxSize: nat) {
    maxSize == 0 || size < maxSize
  }

  class QueElement<T> {
    const element: T
    var next: QueElement?<T>
    var prev: QueElement?<T>

    constructor (t: T)
      ensures element == t && next == null
    {
      element, next, prev := t, null, null;
    }
  }

  ghost function Elements<T>(s: seq<QueElement<T>>): (r: seq<T>)
    ensures |r| == |s|
  {
    if s == [] then [] else [s[0].element] + Elements(s[1..])
  }

  lemma {:induction false} ElementsAppend<T>(s: seq<QueElement<T>>, e: QueElement<T>)
    ensures Elements(s + [e]) == Elements(s) + [e.element]
  {
    if s != [] {
      assert (s + [e])[1..] == s[1..] + [e];
      ElementsAppend(s[1..], e);
    }
  }

  class Que<T> {
    var cnt: int
    var maxSize: nat
    var head: QueElement?<T>
    var tail: QueElement?<T>
    /** The elements from head to tail. */
    ghost var spine: seq<QueElement<T>>

    ghost predicate Valid()
      reads this, spine
    {
      && cnt == |spine|
      && (forall i, j :: 0 <= i < j < |spine| ==> spine[i] != spine[j])
      && (forall i {:trigger spine[i].next} :: 0 <= i < |spine| - 1 ==> spine[i].next == spine[i + 1])
      && (if spine == [] then head == null && tail == null
          else head == spine[0] && tail == spine[|spine| - 1] && spine[|spine| - 1].next == null)
    }

    ghost function Contents(): seq<T> reads this { Elements(spine) }

    constructor ()
      ensures Valid() && Contents() == [] && maxSize == 0 && spine == []
    {
      cnt, maxSize, head, tail, spine := 0, 0, null, null, [];
    }

    method SetMaxSize(n: nat)
      requires Valid()
      modifies this`maxSize
      ensures Valid() && maxSize == n
    {
      maxSize := n;
    }

    method Size() returns (n: int)
      requires Valid()
      ensures n == |Contents()|
    {
      n := cnt;
    }

    /** The oldest element, nothing when the queue is empty. */
    method Front() returns (t: Option<T>)
      requires Valid()
      ensures t == if Contents() == [] then None else Some(Contents()[0])
    {
      if head != null {
        return Some(head.element);
      }
      return None;
    }

    /** Drops the oldest element; an empty queue is left alone. */
    method Pop()
      requires Valid()
      modifies this, spine
      ensures Valid() && maxSize == old(maxSize)
      ensures spine == if old(spine) == [] then [] else old(spine)[1..]
      ensures Contents() == if old(Contents()) == [] then [] else old(Contents())[1..]
    {
      if head != null {
        var h := head;
        if h == tail {
          head, tail := null, null;
        } else {
          head := h.next;
          h.prev := null;
        }
        cnt := cnt - 1;
        spine := spine[1..];
      }
    }

    /** Appends an element unless the queue is at its limit; returns the new size, 0 on refusal. */
    method Post(t: Option<T>) returns (rc: int)
      requires Valid()
      modifies this, spine
      ensures Valid() && maxSize == old(maxSize)
      ensures rc == if t.Some? && HasRoom(|old(Contents())|, maxSize) then |Contents()| else 0
      ensures Contents() == if t.Some? && HasRoom(|old(Contents())|, maxSize)
                            then old(Contents()) + [t.value] else old(Contents())
      ensures old(spine) <= spine && |spine| <= |old(spine)| + 1
      ensures |spine| > |old(spine)| ==> fresh(spine[|old(spine)|])
    {
      if t.Some? && HasRoom(cnt, maxSize) {
        var elm := new QueElement(t.value);
        if head != null {
          if tail == head {
            elm.prev := tail;
            tail := elm;
            head.next := elm;
          } else {
            tail.next := elm;
            elm.prev := tail;
            tail := elm;
          }
        } else {
          head, tail := elm, elm;
        }
        cnt := cnt + 1;
        ElementsAppend(spine, elm);
        spine := spine + [elm];
        return cnt;
      }
      return 0;
    }
  }
}
