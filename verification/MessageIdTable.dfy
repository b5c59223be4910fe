/** MessageIdTable: the aggregating gateway's translation between a client's
    message ids and the ids it uses towards the broker. */
module MessageIds {
  import opened SortedMap
  import opened LinkedTable
  import opened Cycles

  const MAX_MESSAGEID_TABLE_SIZE := 500

  type ClientRef = nat

  datatype MsgRec = MsgRec(msgId: nat, client: ClientRef, clientMsgId: nat)

  /** Client::getNextPacketId on a uint16_t: 0xffff is replaced by 1. */
  function NextPacketId(packetId: nat): nat {
    var n := (packetId + 1) % 0x10000;
    if n == 0xffff then 1 else n
  }

  function ByMsgId(msgId: nat): MsgRec -> bool { (r: MsgRec) => r.msgId == msgId }

  function ByClient(client: ClientRef, clientMsgId: nat): MsgRec -> bool {
    (r: MsgRec) => r.clientMsgId == clientMsgId && r.client == client
  }

  class PacketIds {
    var packetId: nat

    constructor ()
      ensures packetId == 0
    {
      packetId := 0;
    }

    method GetNextPacketId() returns (id: nat)
      modifies this
      ensures id == packetId == NextPacketId(old(packetId))
    {
      packetId := (packetId + 1) % 0x10000;
      if packetId == 0xffff {
        packetId := 1;
      }
      return packetId;
    }
  }

  ghost predicate UniqueKeys(recs: seq<MsgRec>) {
    forall i, j :: 0 <= i < j < |recs| ==>
      !(recs[i].client == recs[j].client && recs[i].clientMsgId == recs[j].clientMsgId)
  }

  /** A full table or a known (client, message id) pair: nothing is added and no id is used up. */
  predicate CanAdd(recs: seq<MsgRec>, client: ClientRef, clientMsgId: nat) {
    |recs| <= MAX_MESSAGEID_TABLE_SIZE && FirstIndex(recs, ByClient(client, clientMsgId)) == |recs|
  }

  function Convert(recs: seq<MsgRec>, msgId: nat): Option<MsgRec> {
    var i := FirstIndex(recs, ByMsgId(msgId));
    if i < |recs| then Some(recs[i]) else None
  }

  function Remove(recs: seq<MsgRec>, msgId: nat): seq<MsgRec> {
    var i := FirstIndex(recs, ByMsgId(msgId));
    if i < |recs| then Without(recs, i) else recs
  }

  lemma RemoveUnique(recs: seq<MsgRec>, msgId: nat)
    requires UniqueKeys(recs)
    ensures UniqueKeys(Remove(recs, msgId))
  {
  }

  lemma AddUnique(recs: seq<MsgRec>, r: MsgRec)
    requires UniqueKeys(recs) && CanAdd(recs, r.client, r.clientMsgId)
    ensures UniqueKeys(recs + [r])
  {
    forall i | 0 <= i < |recs| ensures !(recs[i].client == r.client && recs[i].clientMsgId == r.clientMsgId) {
      assert !ByClient(r.client, r.clientMsgId)(recs[i]);
    }
  }

  class MessageIdTable {
    const links: Links<MsgRec>
    var cnt: int
    const maxSize: int := MAX_MESSAGEID_TABLE_SIZE

    ghost predicate Valid()
      reads this, links, links.spine
    {
      links.Valid() && UniqueKeys(links.Contents()) && cnt == |links.Contents()|
    }

    constructor ()
      ensures Valid() && links.Contents() == [] && fresh(links) && links.spine == []
    {
      links := new Links();
      cnt := 0;
    }

    /** Registers a pair under the next id of the aggregating client. */
    method Add(aggregater: PacketIds, client: ClientRef, clientMsgId: nat) returns (r: Option<MsgRec>)
      requires Valid()
      modifies this`cnt, links, links.spine, aggregater
      ensures Valid()
      ensures if CanAdd(old(links.Contents()), client, clientMsgId)
              then && aggregater.packetId == NextPacketId(old(aggregater.packetId))
                   && r == Some(MsgRec(aggregater.packetId, client, clientMsgId))
                   && links.Contents() == old(links.Contents()) + [r.value]
              else r == None && aggregater.packetId == old(aggregater.packetId)
                   && links.Contents() == old(links.Contents())
    {
      if cnt > maxSize {
        return None;
      }
      var p, i := links.Find(ByClient(client, clientMsgId));
      if p == null {
        var id := aggregater.GetNextPacketId();
        r := Some(MsgRec(id, client, clientMsgId));
        AddUnique(links.Contents(), r.value);
        links.Append(r.value);
        cnt := cnt + 1;
      } else {
        r := None;
      }
    }

    /** Converts a broker id back and forgets it. */
    method GetClientMsgId(msgId: nat) returns (r: Option<(ClientRef, nat)>)
      requires Valid()
      modifies this`cnt, links, links.spine
      ensures Valid() && links.Contents() == Remove(old(links.Contents()), msgId)
      ensures r == match Convert(old(links.Contents()), msgId)
                   case Some(e) => Some((e.client, e.clientMsgId))
                   case None => None
    {
      RemoveUnique(links.Contents(), msgId);
      var p, i := links.Find(ByMsgId(msgId));
      if p != null {
        r := Some((p.item.client, p.item.clientMsgId));
        links.Unlink(p, i);
        cnt := cnt - 1;
      } else {
        r := None;
      }
    }

    method Erase(msgId: nat)
      requires Valid()
      modifies this`cnt, links, links.spine
      ensures Valid() && links.Contents() == Remove(old(links.Contents()), msgId)
    {
      RemoveUnique(links.Contents(), msgId);
      var p, i := links.Find(ByMsgId(msgId));
      if p != null {
        links.Unlink(p, i);
        cnt := cnt - 1;
      }
    }

    /** The broker id of a pair, 0 when it is not registered. */
    method GetMsgId(client: ClientRef, clientMsgId: nat) returns (msgId: nat)
      requires Valid()
      ensures var i := FirstIndex(links.Contents(), ByClient(client, clientMsgId));
              msgId == if i < |links.Contents()| then links.Contents()[i].msgId else 0
    {
      var p, i := links.Find(ByClient(client, clientMsgId));
      return if p == null then 0 else p.item.msgId;
    }
  }

  // ---- every run: ids across the 16-bit wrap-around ----

  /** The n-th id ever issued. */
  function IdOf(n: nat): nat
    requires n >= 1
  {
    (n - 1) % ID_PERIOD + 1
  }

  /** A history: the table, for each record the number of the call that issued its id,
      and the number of calls of getNextPacketId so far, for this table or otherwise. */
  datatype History = History(recs: seq<MsgRec>, serials: seq<nat>, calls: nat, packetId: nat)

  datatype Op =
    | Add(client: ClientRef, clientMsgId: nat)
    | Back(msgId: nat)             // getClientMsgId or erase
    | Other                        // getNextPacketId for another purpose

  const START := History([], [], 0, 0)

  function Step(h: History, op: Op): History {
    match op
    case Add(c, m) =>
      if CanAdd(h.recs, c, m) then
        var id := NextPacketId(h.packetId);
        History(h.recs + [MsgRec(id, c, m)], h.serials + [h.calls + 1], h.calls + 1, id)
      else h
    case Back(id) =>
      var i := FirstIndex(h.recs, ByMsgId(id));
      if i < |h.recs| && i < |h.serials| then h.(recs := Without(h.recs, i), serials := Without(h.serials, i)) else h
    case Other => h.(calls := h.calls + 1, packetId := NextPacketId(h.packetId))
  }

  function Run(h: History, ops: seq<Op>): History
    decreases |ops|
  {
    if ops == [] then h else Run(Step(h, ops[0]), ops[1..])
  }

  ghost predicate Inv(h: History) {
    && |h.serials| == |h.recs|
    && UniqueKeys(h.recs)
    && |h.recs| <= MAX_MESSAGEID_TABLE_SIZE + 1
    && h.packetId == (if h.calls == 0 then 0 else IdOf(h.calls))
    && (forall i :: 0 <= i < |h.serials| ==> 1 <= h.serials[i] <= h.calls && h.recs[i].msgId == IdOf(h.serials[i]))
    && (forall i, j :: 0 <= i < j < |h.serials| ==> h.serials[i] < h.serials[j])
  }

  lemma NextIdOf(calls: nat)
    ensures NextPacketId(if calls == 0 then 0 else IdOf(calls)) == IdOf(calls + 1)
  {
  }

  lemma StepInv(h: History, op: Op)
    requires Inv(h)
    ensures Inv(Step(h, op))
  {
    NextIdOf(h.calls);
    match op
    case Add(c, m) => AddInv(h, c, m);
    case Back(id) =>
      RemoveUnique(h.recs, id);
      BackInv(h, id);
    case Other =>
  }

  lemma AddInv(h: History, c: ClientRef, m: nat)
    requires Inv(h)
    ensures Inv(Step(h, Add(c, m)))
  {
    NextIdOf(h.calls);
    if CanAdd(h.recs, c, m) {
      AddUnique(h.recs, MsgRec(NextPacketId(h.packetId), c, m));
    }
  }

  lemma BackInv(h: History, id: nat)
    requires Inv(h)
    requires UniqueKeys(Remove(h.recs, id))
    ensures Inv(Step(h, Back(id)))
  {
  }

  lemma {:induction false} RunInv(h: History, ops: seq<Op>)
    requires Inv(h)
    ensures Inv(Run(h, ops)) && |Run(h, ops).recs| <= 501
    decreases |ops|
  {
    if ops != [] {
      StepInv(h, ops[0]);
      RunInv(Step(h, ops[0]), ops[1..]);
    }
  }

  /** Two live entries share a broker id exactly when their ids were issued a whole
      number of periods apart. */
  lemma SameIdIff(h: History, i: nat, j: nat)
    requires Inv(h) && i < j < |h.recs|
    ensures h.recs[i].msgId == h.recs[j].msgId <==> (h.serials[j] - h.serials[i]) % ID_PERIOD == 0
  {
    var a, b := h.serials[i] - 1, h.serials[j] - 1;
    Periods(ID_PERIOD, a, b);
  }

  /** No older live entry got its id a whole number of periods before the k-th. */
  predicate FirstOfItsId(serials: seq<nat>, k: nat)
    requires k < |serials|
  {
    forall i :: 0 <= i < k ==> (serials[k] - serials[i]) % ID_PERIOD != 0
  }

  lemma FirstIndexIff(h: History, k: nat)
    requires Inv(h) && k < |h.recs|
    ensures FirstIndex(h.recs, ByMsgId(h.recs[k].msgId)) == k <==> FirstOfItsId(h.serials, k)
    ensures FirstIndex(h.recs, ByMsgId(h.recs[k].msgId)) <= k
  {
    var f := ByMsgId(h.recs[k].msgId);
    var first := FirstIndex(h.recs, f);
    assert f(h.recs[k]);
    if first == k {
      forall i | 0 <= i < k ensures (h.serials[k] - h.serials[i]) % ID_PERIOD != 0 {
        assert !f(h.recs[i]);
        SameIdIff(h, i, k);
      }
    } else {
      assert f(h.recs[first]);
      SameIdIff(h, first, k);
    }
  }

  /** After any run: the broker id of a live entry converts back to that entry, and takes out that
      entry, if and only if no older live entry got its id a whole number of periods earlier. */
  lemma ConvertsBack(ops: seq<Op>, k: nat)
    requires k < |Run(START, ops).recs|
    ensures var h := Run(START, ops);
            && |h.serials| == |h.recs| && 1 <= h.recs[k].msgId <= 0xfffe
            && (Convert(h.recs, h.recs[k].msgId) == Some(h.recs[k]) <==> FirstOfItsId(h.serials, k))
            && (Step(h, Back(h.recs[k].msgId)).recs == Without(h.recs, k) <==> FirstOfItsId(h.serials, k))
  {
    RunInv(START, ops);
    BackIff(Run(START, ops), k);
  }

  lemma BackIff(h: History, k: nat)
    requires Inv(h) && k < |h.recs|
    ensures Convert(h.recs, h.recs[k].msgId) == Some(h.recs[k]) <==> FirstOfItsId(h.serials, k)
    ensures Step(h, Back(h.recs[k].msgId)).recs == Without(h.recs, k) <==> FirstOfItsId(h.serials, k)
  {
    FirstIndexIff(h, k);
    var i := FirstIndex(h.recs, ByMsgId(h.recs[k].msgId));
    if i < k {
      assert Without(h.recs, i)[i] == h.recs[i + 1];
      assert Without(h.recs, k)[i] == h.recs[i];
    }
  }

  /** In particular while every live entry got its id within the last 65534 calls. */
  lemma RecentConvertsBack(h: History, k: nat)
    requires Inv(h) && k < |h.recs| && h.calls - h.serials[0] < ID_PERIOD
    ensures FirstOfItsId(h.serials, k)
  {
  }

  /** The table has this record, and its id was the n-th issued. */
  predicate Holds(h: History, n: nat, r: MsgRec) {
    |h.serials| == |h.recs| && exists k :: 0 <= k < |h.recs| && h.serials[k] == n && h.recs[k] == r
  }

  lemma StaysHeld(h: History, op: Op, n: nat, r: MsgRec)
    requires Inv(h) && Holds(h, n, r) && op != Back(r.msgId)
    ensures Holds(Step(h, op), n, r)
  {
    var k :| 0 <= k < |h.recs| && h.serials[k] == n && h.recs[k] == r;
    var t := Step(h, op);
    StepInv(h, op);
    if op.Back? {
      var i := FirstIndex(h.recs, ByMsgId(op.msgId));
      if i < |h.recs| {
        assert ByMsgId(op.msgId)(h.recs[i]) && i != k;
        var at := if k < i then k else k - 1;
        assert t.serials[at] == n && t.recs[at] == r;
      }
    } else {
      assert t.serials[k] == n && t.recs[k] == r;
    }
  }

  lemma {:induction false} RunHolds(h: History, ops: seq<Op>, n: nat, r: MsgRec)
    requires Inv(h) && Holds(h, n, r) && forall op :: op in ops ==> op != Back(r.msgId)
    ensures Holds(Run(h, ops), n, r)
    decreases |ops|
  {
    if ops != [] {
      assert ops[0] in ops && forall op :: op in ops[1..] ==> op in ops;
      StepInv(h, ops[0]);
      StaysHeld(h, ops[0], n, r);
      RunHolds(Step(h, ops[0]), ops[1..], n, r);
    }
  }

  lemma AddHolds(h: History, client: ClientRef, clientMsgId: nat)
    requires Inv(h) && |h.recs| <= 500
    requires forall r :: r in h.recs ==> !(r.client == client && r.clientMsgId == clientMsgId)
    ensures Holds(Step(h, Add(client, clientMsgId)), h.calls + 1, MsgRec(h.calls % 65534 + 1, client, clientMsgId))
  {
    NextIdOf(h.calls);
    assert CanAdd(h.recs, client, clientMsgId);
    var a := Step(h, Add(client, clientMsgId));
    assert a.recs[|h.recs|] == MsgRec(h.calls % 65534 + 1, client, clientMsgId) && a.serials[|h.recs|] == h.calls + 1;
  }

  /** The table has this record, of the n-th id, which converts to it if and only if no older live entry got its id a
      whole number of periods before. */
  predicate ConvertsIff(h: History, n: nat, r: MsgRec) {
    && |h.serials| == |h.recs|
    && exists k :: 0 <= k < |h.recs| && h.serials[k] == n && h.recs[k] == r
                   && (Convert(h.recs, r.msgId) == Some(r) <==> FirstOfItsId(h.serials, k))
  }

  lemma HeldConverts(h: History, n: nat, r: MsgRec)
    requires Inv(h) && Holds(h, n, r)
    ensures ConvertsIff(h, n, r)
  {
    var k :| 0 <= k < |h.recs| && h.serials[k] == n && h.recs[k] == r;
    BackIff(h, k);
  }

  /** A client's message id that is registered comes back with its client: after any run, and whatever happens
      later to other ids, the broker id it was given, the n-th of the cycle 1 to 65534, converts to this very pair if
      and only if no older live entry got its id a whole number of periods before. */
  lemma PairComesBack(ops: seq<Op>, client: ClientRef, clientMsgId: nat, later: seq<Op>)
    requires var h := Run(START, ops);
             |h.recs| <= 500 && forall r :: r in h.recs ==> !(r.client == client && r.clientMsgId == clientMsgId)
    requires var id := Run(START, ops).calls % 65534 + 1; forall op :: op in later ==> op != Back(id)
    ensures var h := Run(START, ops);
            var r := MsgRec(h.calls % 65534 + 1, client, clientMsgId);
            ConvertsIff(Run(Step(h, Add(client, clientMsgId)), later), h.calls + 1, r)
  {
    var h := Run(START, ops);
    RunInv(START, ops);
    var r := MsgRec(h.calls % 65534 + 1, client, clientMsgId);
    var a := Step(h, Add(client, clientMsgId));
    AddHolds(h, client, clientMsgId);
    StepInv(h, Add(client, clientMsgId));
    RunHolds(a, later, h.calls + 1, r);
    RunInv(a, later);
    HeldConverts(Run(a, later), h.calls + 1, r);
  }

  function Repeat(n: nat): (ops: seq<Op>)
    ensures |ops| == n
  {
    if n == 0 then [] else [Other] + Repeat(n - 1)
  }

  lemma {:induction false} RunRepeat(h: History, n: nat)
    requires Inv(h)
    ensures var t := Run(h, Repeat(n));
            t.recs == h.recs && t.serials == h.serials && t.calls == h.calls + n && Inv(t)
    decreases n
  {
    if n > 0 {
      var ops := Repeat(n);
      assert ops[0] == Other && ops[1..] == Repeat(n - 1);
      StepInv(h, Other);
      RunRepeat(Step(h, Other), n - 1);
    }
  }

  /** The limit is needed: an entry that outlives a whole period gets a double, and
      its id no longer converts to the later pair. */
  lemma OldEntryShadowsNew() returns (ops: seq<Op>)
    ensures var h := Step(Run(Step(START, Add(1, 7)), ops), Add(2, 9));
            && |h.recs| == 2 && h.recs[0].msgId == h.recs[1].msgId
            && Convert(h.recs, h.recs[1].msgId) == Some(h.recs[0])
            && h.recs[0].client != h.recs[1].client
  {
    var a := Step(START, Add(1, 7));
    assert a.recs == [MsgRec(1, 1, 7)] && a.serials == [1] && a.calls == 1;
    StepInv(START, Add(1, 7));
    var n :| n == ID_PERIOD - 1;
    ops := Repeat(n);
    RunRepeat(a, n);
    Shadowed(Run(a, ops));
  }

  lemma Shadowed(b: History)
    requires Inv(b) && b.recs == [MsgRec(1, 1, 7)] && b.serials == [1] && b.calls == ID_PERIOD
    ensures var h := Step(b, Add(2, 9));
            && |h.recs| == 2 && h.recs[0].msgId == h.recs[1].msgId
            && Convert(h.recs, h.recs[1].msgId) == Some(h.recs[0])
            && h.recs[0].client != h.recs[1].client
  {
    assert !ByClient(2, 9)(b.recs[0]);
    StepInv(b, Add(2, 9));
    var h := Step(b, Add(2, 9));
    assert h.serials == [1, ID_PERIOD + 1];
    SameIdIff(h, 0, 1);
    assert ByMsgId(h.recs[1].msgId)(h.recs[0]);
  }
}
