/** Topics: the linked list behind a client's topic table. */
module TopicsList {
  import opened SortedMap
  import opened TopicFilter
  import opened TopicTable
  import opened LinkedTable

  class Topic {
    const typ: TopicType
    const topicId: nat
    const topicName: string
    var next: Topic?

    constructor (typ: TopicType, topicId: nat, topicName: string)
      ensures this.typ == typ && this.topicId == topicId && this.topicName == topicName && next == null
    {
      this.typ, this.topicId, this.topicName, next := typ, topicId, topicName, null;
    }

    /** The string scan of `TopicFilter`, with this topic's name as the filter. */
    method IsMatch(name: string) returns (b: bool)
      ensures b == ScanAt(topicName, 0, name, 0)
    {
      b := TopicFilter.IsMatch(topicName, name);
    }
  }

  function EntryOf(t: Topic): Entry { Entry(t.typ, t.topicId, t.topicName) }

  function EntriesOf(ts: seq<Topic>): (r: seq<Entry>)
    ensures |r| == |ts|
  {
    if ts == [] then [] else [EntryOf(ts[0])] + EntriesOf(ts[1..])
  }

  lemma {:induction false} EntriesOfConcat(a: seq<Topic>, b: seq<Topic>)
    ensures EntriesOf(a + b) == EntriesOf(a) + EntriesOf(b)
  {
    if a == [] {
      assert a + b == b;
    } else {
      assert (a + b)[1..] == a[1..] + b;
      EntriesOfConcat(a[1..], b);
    }
  }

  /** What comes behind position `i`. */
  ghost function After(ts: seq<Topic>, i: int): Topic?
    requires 0 <= i < |ts|
  {
    if i + 1 < |ts| then ts[i + 1] else null
  }

  /** The topics of `ts`, linked in this order. */
  ghost predicate List(first: Topic?, ts: seq<Topic>)
    reads ts
  {
    && first == (if ts == [] then null else ts[0])
    && (forall i {:trigger Nth(ts, i)} :: 0 <= i < |ts| ==> Nth(ts, i).next == After(ts, i))
    && (forall i, j {:trigger Nth(ts, i), Nth(ts, j)} :: 0 <= i < j < |ts| ==> Nth(ts, i) != Nth(ts, j))
  }

  class Topics {
    var nextTopicId: nat
    var first: Topic?
    var cnt: int
    ghost var spine: seq<Topic>

    ghost predicate Valid()
      reads this, spine
    {
      List(first, spine) && cnt == |spine| && Inv(Abs()) == true
    }

    ghost function Abs(): Table reads this { Table(EntriesOf(spine), nextTopicId) }

    constructor ()
      ensures Valid() && Abs() == EMPTY && spine == []
    {
      nextTopicId, first, cnt, spine := 0, null, 0, [];
    }

    method GetTopicByName(name: string) returns (r: Topic?)
      requires Valid()
      ensures r != null ==> r in spine
      ensures FindName(Abs().entries, name) == if r == null then None else Some(EntryOf(r))
    {
      var p := first;
      ghost var i := 0;
      while p != null
        invariant i <= |spine| && p == (if i < |spine| then spine[i] else null)
        invariant FindName(EntriesOf(spine), name) == FindName(EntriesOf(spine[i..]), name)
        decreases |spine| - i
      {
        assert spine[i..][1..] == spine[i + 1..] && p == Nth(spine, i);
        if p.topicName == name {
          return p;
        }
        p := p.next;
        i := i + 1;
      }
      return null;
    }

    method GetTopicById(typ: TopicType, id: nat) returns (r: Topic?)
      requires Valid()
      ensures r != null ==> r in spine
      ensures FindId(Abs().entries, typ, id) == if r == null then None else Some(EntryOf(r))
    {
      var p := first;
      ghost var i := 0;
      while p != null
        invariant i <= |spine| && p == (if i < |spine| then spine[i] else null)
        invariant FindId(EntriesOf(spine), typ, id) == FindId(EntriesOf(spine[i..]), typ, id)
        decreases |spine| - i
      {
        assert spine[i..][1..] == spine[i + 1..] && p == Nth(spine, i);
        if p.typ == typ && p.topicId == id {
          return p;
        }
        p := p.next;
        i := i + 1;
      }
      return null;
    }

    /** The first topic whose name matches as a filter; only for NORMAL requests. */
    method Match(typ: TopicType, name: string) returns (r: Topic?)
      requires Valid()
      ensures r != null ==> r in spine
      ensures (if typ == NORMAL then FindMatch(Abs().entries, name) else None)
           == if r == null then None else Some(EntryOf(r))
    {
      if typ != NORMAL {
        return null;
      }
      var p := first;
      ghost var i := 0;
      while p != null
        invariant i <= |spine| && p == (if i < |spine| then spine[i] else null)
        invariant FindMatch(EntriesOf(spine), name) == FindMatch(EntriesOf(spine[i..]), name)
        decreases |spine| - i
      {
        assert spine[i..][1..] == spine[i + 1..] && p == Nth(spine, i);
        var hit := p.IsMatch(name);
        if hit {
          return p;
        }
        p := p.next;
        i := i + 1;
      }
      return null;
    }

    method GetNextTopicId() returns (id: nat)
      modifies this`nextTopicId
      ensures id == nextTopicId == NextTopicId(old(nextTopicId))
    {
      nextTopicId := (nextTopicId + 1) % 0x10000;
      if nextTopicId == 0xffff {
        nextTopicId := (nextTopicId + 2) % 0x10000;
      }
      return nextTopicId;
    }

    /** Adds a NUL-terminated name: id 0 registers it with a new id, any other id predefines it. */
    method AddName(topicName: string, id: nat) returns (r: Topic?)
      requires Valid()
      modifies this, spine
      ensures Valid()
      ensures (Abs(), if r == null then None else Some(EntryOf(r))) == TopicTable.AddName(old(Abs()), topicName, id)
      ensures forall k :: 0 <= k < |spine| ==> spine[k] in old(spine) || fresh(spine[k])
    {
      AddInv(Abs(), topicName, id);
      if cnt >= MAX_TOPIC_PAR_CLIENT {
        return null;
      }
      r := GetTopicByName(topicName);
      if r != null {
        return r;
      }
      if id == 0 {
        var newId := GetNextTopicId();
        r := new Topic(NORMAL, newId, topicName);
      } else {
        r := new Topic(PREDEFINED, id, topicName);
      }
      cnt := cnt + 1;
      Append(r);
    }

    /** Links a new topic behind the last one. */
    method Append(r: Topic)
      requires List(first, spine) && r !in spine && r.next == null
      modifies this`first, this`spine, spine
      ensures List(first, spine) && spine == old(spine) + [r]
      ensures EntriesOf(spine) == EntriesOf(old(spine)) + [EntryOf(r)]
    {
      EntriesOfConcat(spine, [r]);
      if first == null {
        first := r;
      } else {
        var tp := first;
        ghost var i := 0;
        while tp.next != null
          invariant i < |spine| && tp == Nth(spine, i)
          decreases |spine| - i
        {
          tp := tp.next;
          i := i + 1;
        }
        tp.next := r;
      }
      ghost var was := spine;
      spine := spine + [r];
      assert forall j {:trigger Nth(spine, j)} :: 0 <= j < |was| ==> Nth(spine, j) == Nth(was, j);
    }

    /** Registers the name of a packet. */
    method Register(typ: TopicType, name: string) returns (r: Topic?)
      requires Valid()
      modifies this, spine
      ensures Valid()
      ensures (Abs(), if r == null then None else Some(EntryOf(r))) == TopicTable.Register(old(Abs()), typ, name)
      ensures forall k :: 0 <= k < |spine| ==> spine[k] in old(spine) || fresh(spine[k])
    {
      if typ != NORMAL {
        return null;
      }
      r := GetTopicByName(name);
      if r != null {
        return r;
      }
      r := AddName(CStr(name), 0);
    }

    /** Forgets every NORMAL topic. */
    method EraseNormal()
      requires Valid()
      modifies this, spine
      ensures Valid()
      ensures Abs() == TopicTable.EraseNormal(old(Abs()))
      ensures forall k :: 0 <= k < |spine| ==> spine[k] in old(spine)
    {
      EraseInv(Abs());
      UnlinkNormal();
    }

    method UnlinkNormal()
      requires List(first, spine) && cnt == |spine|
      modifies this`first, this`cnt, this`spine, spine
      ensures List(first, spine) == true && cnt == |spine|
      ensures EntriesOf(spine) == Others(EntriesOf(old(spine)))
      ensures forall k :: 0 <= k < |spine| ==> spine[k] in old(spine)
    {
      var topic := first;
      var prev: Topic? := null;
      ghost var all, i, rest := spine, 0, spine;
      ghost var kept: seq<Topic> := [];
      assert all[..0] == [] && kept + rest == all;
      while topic != null
        invariant i <= |all| && rest == all[i..]
        invariant List(first, kept + rest) == true
        invariant At(all, i, kept, prev, topic) == true
        invariant cnt == |kept| + |rest|
        decreases |rest|
      {
        ghost var t, tail := all[i], rest[1..];
        var next := topic.next;
        Progress(first, all, i, kept, rest, prev, topic);
        if topic.typ == NORMAL {
          Unlink(prev, topic, next, kept, rest);
          cnt := cnt - 1;
        } else {
          prev := topic;
          kept := kept + [t];
        }
        assert List(first, kept + tail) == true;
        topic, rest := next, tail;
        i := i + 1;
      }
      assert all[..i] == all && kept + rest == kept;
      spine := kept;
    }

    /** Takes the topic behind `prev` out of the list. */
    method Unlink(prev: Topic?, topic: Topic, next: Topic?, ghost kept: seq<Topic>, ghost rest: seq<Topic>)
      requires List(first, kept + rest) && rest != [] && topic == rest[0] && next == topic.next
      requires prev == (if kept == [] then null else kept[|kept| - 1])
      modifies this`first, if prev == null then {} else {prev}
      ensures List(first, kept + rest[1..])
    {
      ghost var whole, less := kept + rest, kept + rest[1..];
      assert forall i {:trigger Nth(less, i)} :: 0 <= i < |less| ==>
          Nth(less, i) == Nth(whole, if i < |kept| then i else i + 1);
      assert Nth(whole, |kept|) == topic && (kept != [] ==> Nth(whole, 0) == first);
      if first == topic {
        first := next;
      }
      if prev != null {
        assert prev == Nth(whole, |kept| - 1);
        prev.next := next;
      }
    }
  }

  /** Where the erasing loop stands: `kept` is what remains of the first `i` topics. */
  ghost predicate At(all: seq<Topic>, i: nat, kept: seq<Topic>, prev: Topic?, topic: Topic?)
    requires i <= |all|
  {
    && prev == (if kept == [] then null else kept[|kept| - 1])
    && topic == (if i == |all| then null else all[i])
    && EntriesOf(kept) == Others(EntriesOf(all[..i]))
    && (forall t :: t in kept ==> t in all)
    && (prev != null ==> prev in all)
  }

  lemma Progress(first: Topic?, all: seq<Topic>, i: nat, kept: seq<Topic>, rest: seq<Topic>, prev: Topic?, topic: Topic)
    requires i <= |all| && At(all, i, kept, prev, topic) && rest == all[i..]
    requires List(first, kept + rest)
    ensures topic.typ == NORMAL ==> At(all, i + 1, kept, prev, topic.next)
    ensures topic.typ != NORMAL ==> At(all, i + 1, kept + [topic], topic, topic.next)
    ensures rest[1..] == all[i + 1..] && kept + rest == (kept + [topic]) + rest[1..]
  {
    Following(first, kept, rest);
    EntriesOfConcat(kept, [topic]);
    var done := all[..i];
    EntriesOfConcat(done, [topic]);
    assert all[..i + 1] == done + [topic];
    assert EntriesOf([topic]) == [EntryOf(topic)];
    OthersAppend(EntriesOf(done), EntryOf(topic));
  }

  lemma Following(first: Topic?, kept: seq<Topic>, rest: seq<Topic>)
    requires List(first, kept + rest) && rest != []
    ensures rest[0].next == (if |rest| == 1 then null else rest[1])
  {
    assert Nth(kept + rest, |kept|) == rest[0];
  }
}
