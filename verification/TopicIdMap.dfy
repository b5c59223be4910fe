/** TopicIdMap: which topic id a PUBACK from the broker has to carry back to the client. */
module TopicIds {
  import opened SortedMap
  import opened LinkedTable
  import opened TopicTable

  const MAX_INFLIGHTMESSAGES := 10

  datatype IdRec = IdRec(msgId: nat, topicId: nat, typ: TopicType)

  function ById(msgId: nat): IdRec -> bool { (r: IdRec) => r.msgId == msgId }

  function Lookup(recs: seq<IdRec>, msgId: nat): Option<IdRec> {
    var i := FirstIndex(recs, ById(msgId));
    if i < |recs| then Some(recs[i]) else None
  }

  function Drop(recs: seq<IdRec>, msgId: nat): seq<IdRec> {
    var i := FirstIndex(recs, ById(msgId));
    if i < |recs| then Without(recs, i) else recs
  }

  /** More than twice the in-flight limit, or no topic id at all: the record is not taken. */
  predicate Accepts(recs: seq<IdRec>, topicId: nat, typ: TopicType) {
    |recs| <= MAX_INFLIGHTMESSAGES * 2 && !(topicId == 0 && typ != SHORT)
  }

  function Insert(recs: seq<IdRec>, r: IdRec): seq<IdRec> {
    if Accepts(recs, r.topicId, r.typ) then Drop(recs, r.msgId) + [r] else recs
  }

  ghost predicate Unique(recs: seq<IdRec>) {
    forall i, j :: 0 <= i < j < |recs| ==> recs[i].msgId != recs[j].msgId
  }

  /** A record is found by its message id exactly when it is in the map. */
  lemma LookupMember(recs: seq<IdRec>, m: nat, r: IdRec)
    requires Unique(recs)
    ensures Lookup(recs, m) == Some(r) <==> r in recs && r.msgId == m
  {
    var i := FirstIndex(recs, ById(m));
    if r in recs && r.msgId == m {
      var k :| 0 <= k < |recs| && recs[k] == r;
      assert ById(m)(recs[k]);
    }
  }

  lemma DropUnique(recs: seq<IdRec>, m: nat)
    requires Unique(recs)
    ensures Unique(Drop(recs, m))
    ensures forall r :: r in Drop(recs, m) <==> r in recs && r.msgId != m
    ensures |Drop(recs, m)| == |recs| - (if Lookup(recs, m).Some? then 1 else 0)
  {
    var i := FirstIndex(recs, ById(m));
    var d := Drop(recs, m);
    assert forall r {:trigger r in recs} :: r in recs && r.msgId == m ==> ById(m)(r);
    if i < |recs| {
      assert ById(m)(recs[i]);
      forall r ensures r in d <==> r in recs && r.msgId != m {
        if r in recs && r.msgId != m {
          var k :| 0 <= k < |recs| && recs[k] == r;
          assert d[if k < i then k else k - 1] == r;
        }
      }
    } else {
      forall r | r in recs ensures r.msgId != m {
        var k :| 0 <= k < |recs| && recs[k] == r;
        assert !ById(m)(recs[k]);
      }
    }
  }

  lemma InsertUnique(recs: seq<IdRec>, r: IdRec)
    requires Unique(recs)
    ensures Unique(Insert(recs, r))
    ensures |recs| <= MAX_INFLIGHTMESSAGES * 2 + 1 ==> |Insert(recs, r)| <= MAX_INFLIGHTMESSAGES * 2 + 1
    ensures forall q :: q in Insert(recs, r) <==>
              if Accepts(recs, r.topicId, r.typ) then q == r || (q in recs && q.msgId != r.msgId) else q in recs
  {
    DropUnique(recs, r.msgId);
    var d := Drop(recs, r.msgId);
    assert forall k :: 0 <= k < |d| ==> d[k] in d;
  }

  class TopicIdMap {
    const links: Links<IdRec>
    var cnt: int

    ghost predicate Linked()
      reads this, links, links.spine
    {
      links.Valid() && Unique(links.Contents())
    }

    ghost predicate Valid()
      reads this, links, links.spine
    {
      Linked() && cnt == |links.Contents()|
    }

    constructor ()
      ensures Valid() && links.Contents() == [] && fresh(links) && links.spine == []
    {
      links := new Links();
      cnt := 0;
    }

    method GetElement(msgId: nat) returns (r: Option<IdRec>)
      requires Linked()
      ensures r == Lookup(links.Contents(), msgId)
    {
      var p, i := links.Find(ById(msgId));
      return if p == null then None else Some(p.item);
    }

    /** Replaces what was recorded for the message id. */
    method Add(msgId: nat, topicId: nat, typ: TopicType) returns (r: Option<IdRec>)
      requires Valid()
      modifies this`cnt, links, links.spine
      ensures Valid()
      ensures links.Contents() == Insert(old(links.Contents()), IdRec(msgId, topicId, typ))
      ensures r == if Accepts(old(links.Contents()), topicId, typ) then Some(IdRec(msgId, topicId, typ)) else None
      ensures forall k :: 0 <= k < |links.spine| ==> links.spine[k] in old(links.spine) || fresh(links.spine[k])
    {
      ghost var was := links.Contents();
      InsertUnique(was, IdRec(msgId, topicId, typ));
      if cnt > MAX_INFLIGHTMESSAGES * 2 || (topicId == 0 && typ != SHORT) {
        return None;
      }
      DropUnique(was, msgId);
      var e := GetElement(msgId);
      if e.Some? {
        Erase(msgId);
      }
      assert links.Contents() == Drop(was, msgId);
      links.Append(IdRec(msgId, topicId, typ));
      cnt := cnt + 1;
      return Some(IdRec(msgId, topicId, typ));
    }

    /** Unlinks the record of a message id. The count goes down in any case, so it
        stays the number of records if and only if there was one to unlink. */
    method Erase(msgId: nat)
      requires Linked()
      modifies this`cnt, links, links.spine
      ensures Linked() && cnt == old(cnt) - 1
      ensures links.Contents() == Drop(old(links.Contents()), msgId)
      ensures old(Valid()) ==> (Valid() <==> Lookup(old(links.Contents()), msgId).Some?)
      ensures forall k :: 0 <= k < |links.spine| ==> links.spine[k] in old(links.spine)
    {
      DropUnique(links.Contents(), msgId);
      var p, i := links.Find(ById(msgId));
      if p != null {
        links.Unlink(p, i);
      }
      cnt := cnt - 1;
    }

    method Clear()
      requires Linked()
      modifies this`cnt, links
      ensures Valid() && links.Contents() == [] && links.spine == []
    {
      links.Clear();
      cnt := 0;
    }
  }

  // ---- every run: which topic id the client is answered with ----

  datatype Op =
    | Recorded(r: IdRec)           // a client's PUBLISH with QoS 1 or 2 is recorded
    | Pubacked(msgId: nat)          // the broker's PUBACK: answered and erased when recorded
    | Cleared                       // a clean-session CONNECT clears the map

  function Step(recs: seq<IdRec>, e: Op): seq<IdRec> {
    match e
    case Recorded(r) => Insert(recs, r)
    case Pubacked(m) => Drop(recs, m)
    case Cleared => []
  }

  function After(es: seq<Op>): seq<IdRec> {
    if es == [] then [] else Step(After(es[..|es| - 1]), es[|es| - 1])
  }

  /** The last accepted PUBLISH with this message id that has not been answered or cleared since. */
  function Latest(es: seq<Op>, m: nat): Option<IdRec> {
    if es == [] then None
    else
      var before := es[..|es| - 1];
      match es[|es| - 1]
      case Recorded(r) =>
        if r.msgId == m && Accepts(After(before), r.topicId, r.typ) then Some(r) else Latest(before, m)
      case Pubacked(k) => if k == m then None else Latest(before, m)
      case Cleared => None
  }

  lemma {:induction false} AfterInv(es: seq<Op>)
    ensures Unique(After(es)) && |After(es)| <= MAX_INFLIGHTMESSAGES * 2 + 1
  {
    if es != [] {
      var before := es[..|es| - 1];
      AfterInv(before);
      match es[|es| - 1]
      case Recorded(r) => InsertUnique(After(before), r);
      case Pubacked(m) => DropUnique(After(before), m);
      case Cleared =>
    }
  }

  /** The answer to a PUBACK carries the topic of the latest accepted PUBLISH with its message
      id, and there is an answer only while that PUBLISH is unanswered. */
  lemma {:induction false} AnswersLatest(es: seq<Op>, m: nat)
    ensures Lookup(After(es), m) == Latest(es, m)
  {
    if es != [] {
      var before := es[..|es| - 1];
      AnswersLatest(before, m);
      AfterInv(before);
      AfterInv(es);
      var was, now := After(before), After(es);
      forall r ensures Lookup(now, m) == Some(r) <==> Latest(es, m) == Some(r) {
        LookupMember(was, m, r);
        LookupMember(now, m, r);
        match es[|es| - 1]
        case Recorded(q) => InsertUnique(was, q);
        case Pubacked(k) => DropUnique(was, k);
        case Cleared =>
      }
    }
  }

  /** The position of the last accepted PUBLISH with this message id that has not been answered
      or cleared since, |es| when there is none. */
  function LatestAt(es: seq<Op>, m: nat): (k: nat)
    ensures k <= |es|
    ensures (k == |es|) <==> Latest(es, m).None?
    ensures k < |es| ==> es[k].Recorded? && Latest(es, m) == Some(es[k].r) && es[k].r.msgId == m
  {
    if es == [] then 0
    else
      var n := |es| - 1;
      var k := LatestAt(es[..n], m);
      var earlier := if k == n then n + 1 else k;
      match es[n]
      case Recorded(r) => if r.msgId == m && Accepts(After(es[..n]), r.topicId, r.typ) then n else earlier
      case Pubacked(a) => if a == m then n + 1 else earlier
      case Cleared => n + 1
  }

  /** The n-th operation is a PUBACK of the broker that is passed on to the client. */
  predicate Answers(es: seq<Op>, n: nat)
    requires n < |es|
  {
    es[n].Pubacked? && Lookup(After(es[..n]), es[n].msgId).Some?
  }

  /** Once answered, a record is not found again: what is found is later than the answer. */
  lemma {:induction false} LaterThanAnswer(es: seq<Op>, n: nat)
    requires n < |es| && es[n].Pubacked?
    ensures LatestAt(es, es[n].msgId) > n
    decreases |es|
  {
    if n < |es| - 1 {
      var before := es[..|es| - 1];
      LaterThanAnswer(before, n);
      assert before[n] == es[n];
    }
  }

  /** In every run, the answer to a PUBACK carries the topic of one particular accepted PUBLISH before it
      with its message id, and two answers are never for the same PUBLISH. */
  lemma {:induction false} AnsweredOnce(es: seq<Op>, i: nat, j: nat)
    requires i < j < |es| && Answers(es, i) && Answers(es, j)
    ensures var a, b := LatestAt(es[..i], es[i].msgId), LatestAt(es[..j], es[j].msgId);
            && a < i && b < j && a != b
            && es[a] == Recorded(Lookup(After(es[..i]), es[i].msgId).value)
            && es[b] == Recorded(Lookup(After(es[..j]), es[j].msgId).value)
  {
    AnswersLatest(es[..i], es[i].msgId);
    AnswersLatest(es[..j], es[j].msgId);
    var a, b := LatestAt(es[..i], es[i].msgId), LatestAt(es[..j], es[j].msgId);
    assert es[..i][a] == es[a] && es[..j][b] == es[b];
    if es[i].msgId == es[j].msgId {
      assert es[..j][i] == es[i];
      LaterThanAnswer(es[..j], i);
    }
  }

  // ---- PUBACKs that are not passed on ----

  /** The operation has to do with this message id. */
  predicate Touches(e: Op, m: nat) {
    e.Cleared? || e == Pubacked(m) || (e.Recorded? && e.r.msgId == m)
  }

  lemma {:induction false} Undisturbed(es: seq<Op>, later: seq<Op>, m: nat)
    requires forall e :: e in later ==> !Touches(e, m)
    ensures Latest(es + later, m) == Latest(es, m)
    decreases |later|
  {
    if later == [] {
      assert es + later == es;
    } else {
      var n := |later| - 1;
      assert (es + later)[..|es| + n] == es + later[..n] && later[n] in later;
      Undisturbed(es, later[..n], m);
    }
  }

  /** Whether a client's PUBLISH will be answered is settled when it is recorded: until its message id is used
      again, answered or cleared, nothing is found for it exactly when more than twenty records were
      there (or it has no topic id), and none of them for its message id. */
  lemma LostIff(es: seq<Op>, r: IdRec, later: seq<Op>)
    requires forall e :: e in later ==> !Touches(e, r.msgId)
    ensures Lookup(After(es + [Recorded(r)] + later), r.msgId) == None
            <==> !Accepts(After(es), r.topicId, r.typ) && Lookup(After(es), r.msgId) == None
  {
    var now := es + [Recorded(r)];
    AnswersLatest(now + later, r.msgId);
    Undisturbed(now, later, r.msgId);
    AnswersLatest(es, r.msgId);
    assert now[..|now| - 1] == es;
  }
}
