/** WaitREGACKPacketList: the PUBLISHes that wait for the REGACK of their REGISTER. */
module RegackList {
  import opened SortedMap
  import opened LinkedTable
  import opened SessionModel

  lemma CountDown(n: nat)
    requires n > 0
    ensures (n % 256 - 1) % 256 == (n - 1) % 256
  {
  }

  class WaitREGACKPacketList {
    const links: Links<Wait>
    var cnt: nat    // a uint8_t

    ghost predicate Valid()
      reads this, links, links.spine
    {
      links.Valid() && cnt == |links.Contents()| % 256
    }

    constructor ()
      ensures Valid() && links.Contents() == [] && fresh(links) && links.spine == []
    {
      links := new Links();
      cnt := 0;
    }

    method SetPacket(p: SnPublish, regackMsgId: nat)
      requires Valid()
      modifies this`cnt, links, links.spine
      ensures Valid()
      ensures links.Contents() == old(links.Contents()) + [Wait(regackMsgId, p)]
      ensures forall k :: 0 <= k < |links.spine| ==> links.spine[k] in old(links.spine) || fresh(links.spine[k])
    {
      links.Append(Wait(regackMsgId, p));
      cnt := (cnt + 1) % 256;
    }

    /** The first that waits for this message id. */
    method GetPacket(regackMsgId: nat) returns (r: Option<SnPublish>)
      requires Valid()
      ensures var i := FirstIndex(links.Contents(), ByRegack(regackMsgId));
              r == if i < |links.Contents()| then Some(links.Contents()[i].p) else None
    {
      var p, i := links.Find(ByRegack(regackMsgId));
      return if p == null then None else Some(p.item.p);
    }

    /** Unlinks the first that waits for this message id, and no other. */
    method Erase(regackMsgId: nat)
      requires Valid()
      modifies this`cnt, links, links.spine
      ensures Valid()
      ensures links.Contents() == WithoutFirst(old(links.Contents()), regackMsgId)
      ensures forall k :: 0 <= k < |links.spine| ==> links.spine[k] in old(links.spine)
    {
      var p, i := links.Find(ByRegack(regackMsgId));
      if p != null {
        CountDown(|links.Contents()|);
        links.Unlink(p, i);
        cnt := (cnt - 1) % 256;
      }
    }

    method GetCount() returns (n: nat)
      requires Valid()
      ensures n == |links.Contents()| % 256
    {
      return cnt;
    }
  }
}
