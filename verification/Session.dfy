/** A client of the gateway and the handlers that serve it, as they change its tables and
    queues in place. Each is proved to do what `SessionModel` says of the values. */
module ClientSession {
  import opened SortedMap
  import opened LinkedQueue
  import opened LinkedTable
  import opened TopicTable
  import opened TopicsList
  import opened TopicIds
  import opened SessionModel
  import opened RegackList
  import SessionRuns

  class Session {
    const topics: Topics
    const pubIds: TopicIdMap
    const waiting: WaitREGACKPacketList
    const stored: Que<GwPublish>
    const events: Que<Event>      // the gateway's packet event queue
    var status: Status
    var snMsgId: nat
    var hold: bool
    var toClient: seq<ToClient>   // what was put on the client send queue
    var toBroker: seq<ToBroker>
    var crashed: bool             // set where the source follows a null pointer

    ghost predicate TablesValid()
      reads topics, topics.spine, pubIds, pubIds.links, pubIds.links.spine
      reads waiting, waiting.links, waiting.links.spine
    {
      (topics.Valid() && pubIds.Valid() && waiting.Valid()) == true
    }

    ghost predicate QueuesValid()
      reads stored, stored.spine, events, events.spine
    {
      (&& stored.Valid() && events.Valid()
       && stored.maxSize == MAX_SAVED_PUBLISH && events.maxSize == MAX_PACKET_EVENTS) == true
    }

    ghost predicate Valid()
      reads this, topics, topics.spine, pubIds, pubIds.links, pubIds.links.spine
      reads waiting, waiting.links, waiting.links.spine, stored, stored.spine, events, events.spine
    {
      TablesValid() && QueuesValid()
    }

    ghost function Abs(): State
      reads this, topics, pubIds.links, waiting.links, stored, events
    {
      State(status, topics.Abs(), pubIds.links.Contents(), waiting.links.Contents(), snMsgId,
            stored.Contents(), hold, events.Contents(), toClient, toBroker, crashed)
    }

    constructor ()
      ensures Valid() && Abs() == INITIAL
    {
      var sleepQue, eventQue := NewQues();
      topics := new Topics();
      pubIds := new TopicIdMap();
      waiting := new WaitREGACKPacketList();
      stored, events := sleepQue, eventQue;
      status, snMsgId, hold, toClient, toBroker, crashed := Status.Disconnected, 0, false, [], [], false;
    }

    method SendStoredPublish()
      requires Valid()
      modifies stored, stored.spine, events, events.spine
      ensures Valid() && Abs() == SendStored(old(Abs()))
    {
      LoopIsSendStored(Abs());
      OfferStored();
    }

    method OfferStored()
      requires Valid()
      modifies stored, stored.spine, events, events.spine
      ensures Valid() && Abs() == StoredOffered(old(Abs()))
    {
      MoveAll(stored, events, MAX_SAVED_PUBLISH, MAX_PACKET_EVENTS);
    }

    method GetNextSnMsgId() returns (id: nat)
      modifies this`snMsgId
      ensures id == snMsgId == NextSnMsgId(old(snMsgId))
    {
      snMsgId := (snMsgId + 1) % 256;
      if snMsgId == 0 {
        snMsgId := snMsgId + 1;
      }
      return snMsgId;
    }

    // ---- what the handlers do with the tables and queues ----

    method PostToClient(m: ToClient)
      requires Valid()
      modifies this`toClient
      ensures Valid() && Abs() == ToC(old(Abs()), m)
    {
      toClient := toClient + [m];
    }

    method PostToBroker(m: ToBroker)
      requires Valid()
      modifies this`toBroker
      ensures Valid() && Abs() == ToB(old(Abs()), m)
    {
      toBroker := toBroker + [m];
    }

    method SetClientSleepPacket(m: GwPublish)
      requires Valid()
      modifies stored, stored.spine
      ensures Valid() && Abs() == StorePublish(old(Abs()), m)
    {
      var rc := stored.Post(Some(m));
    }

    method AddTopic(name: string) returns (topic: Topic?)
      requires Valid()
      modifies topics, topics.spine
      ensures Valid()
      ensures var (t, e) := TopicTable.Register(old(Abs()).topics, NORMAL, name);
              Abs() == old(Abs()).(topics := t) && e == if topic == null then None else Some(EntryOf(topic))
    {
      topic := topics.Register(NORMAL, name);
    }

    method AddPredefinedTopic(name: string, id: nat) returns (topic: Topic?)
      requires Valid()
      modifies topics, topics.spine
      ensures Valid()
      ensures var (t, e) := TopicTable.AddName(old(Abs()).topics, name, id);
              Abs() == old(Abs()).(topics := t) && e == if topic == null then None else Some(EntryOf(topic))
    {
      topic := topics.AddName(name, id);
    }

    method EraseNormalTopics()
      requires Valid()
      modifies topics, topics.spine
      ensures Valid() && Abs() == old(Abs()).(topics := TopicTable.EraseNormal(old(Abs()).topics))
    {
      topics.EraseNormal();
    }

    method SetWaitedPubTopicId(msgId: nat, topicId: nat, typ: TopicType)
      requires Valid()
      modifies pubIds`cnt, pubIds.links, pubIds.links.spine
      ensures Valid() && Abs() == old(Abs()).(pubIds := Insert(old(Abs()).pubIds, IdRec(msgId, topicId, typ)))
    {
      var r := pubIds.Add(msgId, topicId, typ);
    }

    method EraseWaitedPubTopicId(msgId: nat)
      requires Valid() && Lookup(Abs().pubIds, msgId).Some?
      modifies pubIds`cnt, pubIds.links, pubIds.links.spine
      ensures Valid() && Abs() == old(Abs()).(pubIds := Drop(old(Abs()).pubIds, msgId))
    {
      pubIds.Erase(msgId);
    }

    method ClearWaitedPubTopicId()
      requires Valid()
      modifies pubIds`cnt, pubIds.links
      ensures Valid() && Abs() == old(Abs()).(pubIds := [])
    {
      pubIds.Clear();
    }

    method SetWaitingPacket(p: SnPublish, regackMsgId: nat)
      requires Valid()
      modifies waiting`cnt, waiting.links, waiting.links.spine
      ensures Valid() && Abs() == old(Abs()).(waiting := old(Abs()).waiting + [Wait(regackMsgId, p)])
    {
      waiting.SetPacket(p, regackMsgId);
    }

    method EraseWaitingPacket(regackMsgId: nat)
      requires Valid()
      modifies waiting`cnt, waiting.links, waiting.links.spine
      ensures Valid() && Abs() == old(Abs()).(waiting := WithoutFirst(old(Abs()).waiting, regackMsgId))
    {
      waiting.Erase(regackMsgId);
    }

    // ---- packets from the broker ----

    method ReplyAck(m: GwPublish)
      requires Valid()
      modifies this`toBroker
      ensures Valid() && Abs() == SessionModel.ReplyAck(old(Abs()), m)
    {
      if m.qos == 1 {
        PostToBroker(PubackBroker(m.msgId));
      } else if m.qos == 2 {
        PostToBroker(AckBroker(PUBREC, m.msgId));
      }
    }

    /** A PUBLISH from the broker: saved, sent under the topic's id, or held back until the
        client has acknowledged the REGISTER for it. */
    method HandlePublish(m: GwPublish)
      requires Valid()
      modifies this`toClient, this`toBroker, this`snMsgId, this`crashed, topics, topics.spine
      modifies waiting`cnt, waiting.links, waiting.links.spine, stored, stored.spine
      ensures Valid() && Abs() == SessionModel.HandlePublish(old(Abs()), m)
    {
      if status != Active && status != Asleep && status != Awake {
        return;
      }
      if status == Asleep {
        ReplyAck(m);
        SetClientSleepPacket(m);
        return;
      }
      if |m.topic| <= 2 {
        PostToClient(SendPublish(ToSn(m, ShortName(m))));
        return;
      }
      var tp := topics.GetTopicByName(m.topic);
      if tp != null {
        PostToClient(SendPublish(ToSn(m, TopicRef.ById(tp.typ, tp.topicId))));
        return;
      }
      var filter := topics.Match(NORMAL, m.topic);
      if filter == null {
        ReplyAck(m);
        return;
      }
      RegisterAndHold(m);
    }

    method RegisterAndHold(m: GwPublish)
      requires Valid()
      modifies this`toClient, this`snMsgId, this`crashed, topics, topics.spine
      modifies waiting`cnt, waiting.links, waiting.links.spine
      ensures Valid() && Abs() == SessionModel.RegisterAndHold(old(Abs()), m)
    {
      var topic := AddTopic(m.topic);
      if topic == null {
        crashed := true;
        return;
      }
      HoldBack(topic.topicId, m);
    }

    method HoldBack(id: nat, m: GwPublish)
      requires Valid()
      modifies this`toClient, this`snMsgId, waiting`cnt, waiting.links, waiting.links.spine
      ensures Valid() && Abs() == SessionModel.HoldBack(old(Abs()), id, m)
    {
      var regackMsgId := GetNextSnMsgId();
      PostToClient(SendRegister(id, regackMsgId, m.topic));
      SetWaitingPacket(ToSn(m, TopicRef.ById(NORMAL, id)), regackMsgId);
    }

    /** A PUBACK from the broker goes to the client with the topic id recorded for it. */
    method HandlePuback(msgId: nat)
      requires Valid()
      modifies this`toClient, pubIds`cnt, pubIds.links, pubIds.links.spine
      ensures Valid() && Abs() == SessionModel.HandlePuback(old(Abs()), msgId)
    {
      var r := pubIds.GetElement(msgId);
      if r.Some? {
        PostToClient(SendPuback(r.value.topicId, msgId, RC_ACCEPTED));
        EraseWaitedPubTopicId(msgId);
      }
    }

    method HandleAck(typ: AckType, msgId: nat)
      requires Valid()
      modifies this`toClient, this`toBroker
      ensures Valid() && Abs() == SessionModel.HandleAck(old(Abs()), typ, msgId)
    {
      if status == Active || status == Awake {
        PostToClient(SendAck(typ, msgId));
      } else if status == Asleep {
        if typ == PUBREL {
          PostToBroker(AckBroker(PUBCOMP, msgId));
        }
      }
    }

    method HandlePingresp()
      requires Valid()
      modifies this`status, this`toClient
      ensures Valid() && Abs() == SessionModel.HandlePingresp(old(Abs()))
    {
      if status == Awake || status == Asleep {
        status := Asleep;
      }
      PostToClient(SendPingresp);
    }

    method HandleConnack(rc: nat)
      requires Valid()
      modifies this`status, this`toClient
      ensures Valid() && Abs() == SessionModel.HandleConnack(old(Abs()), rc)
    {
      // an unknown code is taken for MQTT_SERVER_UNAVAILABLE, whose number is that of RC_NOT_SUPPORTED
      var snRc := MQTT_SERVER_UNAVAILABLE;
      if rc == MQTT_CONNECTION_ACCEPTED {
        snRc := RC_ACCEPTED;
      } else if rc == MQTT_SERVER_UNAVAILABLE {
        snRc := RC_REJECTED_CONGESTED;
      } else if rc <= 5 {
        snRc := RC_NOT_SUPPORTED;
      }
      status := if snRc == RC_ACCEPTED then Active else Status.Disconnected;
      PostToClient(SendConnack(snRc));
    }

    // ---- packets from the client ----

    method HandleConnect(cleanSession: bool, will: bool)
      requires Valid()
      modifies this`status, this`toClient, this`toBroker, topics, topics.spine
      modifies pubIds`cnt, pubIds.links, stored, stored.spine, events, events.spine
      ensures Valid() && Abs() == SessionModel.HandleConnect(old(Abs()), cleanSession, will)
    {
      if status == Asleep || status == Awake {
        PostToClient(SendConnack(RC_ACCEPTED));
        SendStoredPublish();
        return;
      }
      Restart(cleanSession);
      if will {
        PostToClient(SendWillTopicReq);
      } else {
        PostToBroker(ConnectBroker);
      }
    }

    method Restart(cleanSession: bool)
      requires Valid()
      modifies this`status, topics, topics.spine, pubIds`cnt, pubIds.links
      ensures Valid() && Abs() == Restarted(old(Abs()), cleanSession)
    {
      status := Status.Disconnected;
      if cleanSession {
        ClearWaitedPubTopicId();
        EraseNormalTopics();
      }
    }

    method HandleDisconnect(duration: nat)
      requires Valid()
      modifies this`toClient, this`toBroker
      ensures Valid() && Abs() == SessionModel.HandleDisconnect(old(Abs()), duration)
    {
      if duration == 0 {
        PostToBroker(DisconnectBroker);
      }
      PostToClient(SendDisconnect);
    }

    method HandlePingreq()
      requires Valid()
      modifies this`hold, this`toBroker, stored, stored.spine, events, events.spine
      ensures Valid() && Abs() == SessionModel.HandlePingreq(old(Abs()))
    {
      var first := stored.Front();
      if (status == Asleep || status == Awake) && first != None {
        HoldPing();
      } else {
        ForwardPing();
      }
    }

    method HoldPing()
      requires Valid()
      modifies this`hold, stored, stored.spine, events, events.spine
      ensures Valid() && Abs() == SendStored(old(Abs())).(hold := true)
    {
      SendStoredPublish();
      hold := true;
    }

    method ForwardPing()
      requires Valid()
      modifies this`hold, this`toBroker
      ensures Valid() && Abs() == ToB(old(Abs()), PingBroker).(hold := false)
    {
      hold := false;
      PostToBroker(PingBroker);
    }

    /** A PUBLISH from the client, for a topic of its own table or of the gateway's. */
    method HandleClientPublish(gateway: Topics, p: SnPublish)
      requires Valid() && gateway.Valid() && gateway != topics
      modifies this`toClient, this`toBroker, topics, topics.spine, pubIds`cnt, pubIds.links, pubIds.links.spine
      ensures Valid() && Abs() == SessionModel.HandleClientPublish(old(Abs()), old(gateway.Abs()), p)
    {
      var name := FindTopic(gateway, p.topic);
      var answerable := p.msgId != 0 && 0 < p.qos < 3;
      if name == None && p.qos == 3 {
        return;
      }
      if name == None && answerable {
        PostToClient(SendPuback(RefId(p.topic), p.msgId, RC_REJECTED_INVALID_TOPIC_ID));
        return;
      }
      if answerable {
        SetWaitedPubTopicId(p.msgId, RefId(p.topic), RefType(p.topic));
      }
      PostToBroker(PublishBroker(ToGw(p, name.GetOr(""))));
    }

    method FindTopic(gateway: Topics, ref: TopicRef) returns (name: Option<string>)
      requires Valid() && gateway.Valid() && gateway != topics
      modifies topics, topics.spine
      ensures Valid()
      ensures var (t, n) := Resolve(old(topics.Abs()), old(gateway.Abs()), ref);
              Abs() == old(Abs()).(topics := t) && name == n
    {
      match ref
      case ByShortName(c0, c1) => return Some([c0, c1]);
      case ById(typ, id) =>
        var topic := topics.GetTopicById(typ, id);
        if topic == null {
          var known := gateway.GetTopicById(typ, id);
          if known == null {
            return None;
          }
          topic := AddPredefinedTopic(known.topicName, known.topicId);
        }
        return if topic == null then None else Some(topic.topicName);
    }

    method HandleRegister(msgId: nat, name: string)
      requires Valid()
      modifies this`toClient, this`crashed, topics, topics.spine
      ensures Valid() && Abs() == SessionModel.HandleRegister(old(Abs()), msgId, name)
    {
      if status == Active || status == Awake {
        var topic := AddTopic(name);
        if topic != null {
          PostToClient(SendRegack(topic.topicId, msgId, RC_ACCEPTED));
        } else {
          crashed := true;
        }
      }
    }

    method ReleasePacket(msgId: nat)
      requires Valid()
      modifies this`toClient, waiting`cnt, waiting.links, waiting.links.spine
      ensures Valid() && Abs() == Released(old(Abs()), msgId)
    {
      var p := waiting.GetPacket(msgId);
      if p != None {
        EraseWaitingPacket(msgId);
        PostToClient(SendPublish(p.value));
      }
    }

    method PassHeldPing()
      requires Valid()
      modifies this`toBroker, this`hold
      ensures Valid() && Abs() == SessionModel.PassHeldPing(old(Abs()))
    {
      var count := waiting.GetCount();
      if hold && count == 0 {
        hold := false;
        PostToBroker(PingBroker);
      }
    }

    method HandleRegAck(msgId: nat)
      requires Valid()
      modifies this`toClient, this`toBroker, this`hold, waiting`cnt, waiting.links, waiting.links.spine
      ensures Valid() && Abs() == SessionModel.HandleRegAck(old(Abs()), msgId)
    {
      if status == Active || status == Awake {
        ReleasePacket(msgId);
        PassHeldPing();
      }
    }

    method HandleSubscribe(gateway: Topics, qos: nat, msgId: nat, filter: Filter)
      requires Valid() && gateway.Valid() && gateway != topics
      modifies this`toClient, this`toBroker, this`crashed, topics, topics.spine
      ensures Valid()
      ensures Abs() == SessionModel.HandleSubscribe(old(Abs()), old(gateway.Abs()), qos, msgId, filter)
    {
      if msgId == 0 {
        return;
      }
      match filter
      case Named(name) => SubscribeNamed(qos, msgId, name);
      case Predefined(id) => SubscribePredefined(gateway, qos, msgId, id);
      case Short(c0, c1) => PostToBroker(SubscribeBroker(CStr([c0, c1]), qos, msgId));
    }

    method SubscribeNamed(qos: nat, msgId: nat, name: string)
      requires Valid()
      modifies this`toBroker, topics, topics.spine
      ensures Valid() && Abs() == SessionModel.SubscribeNamed(old(Abs()), qos, msgId, name)
    {
      var topic := AddTopic(name);
      if topic != null {
        PostToBroker(SubscribeBroker(topic.topicName, qos, msgId));
      }
    }

    method SubscribePredefined(gateway: Topics, qos: nat, msgId: nat, id: nat)
      requires Valid() && gateway.Valid() && gateway != topics
      modifies this`toClient, this`toBroker, this`crashed, topics, topics.spine
      ensures Valid()
      ensures Abs() == SessionModel.SubscribePredefined(old(Abs()), old(gateway.Abs()), qos, msgId, id)
    {
      var topic := topics.GetTopicById(PREDEFINED, id);
      if topic != null {
        PostToBroker(SubscribeBroker(topic.topicName, qos, msgId));
        return;
      }
      topic := gateway.GetTopicById(PREDEFINED, id);
      if topic == null {
        PostToClient(SendSuback(qos, id, msgId, RC_NOT_SUPPORTED));
        return;
      }
      CopyAndSubscribe(topic.topicName, topic.topicId, topic.typ, qos, msgId);
    }

    method CopyAndSubscribe(name: string, id: nat, ghost typ: TopicType, qos: nat, msgId: nat)
      requires Valid()
      modifies this`toBroker, this`crashed, topics, topics.spine
      ensures Valid() && Abs() == SessionModel.CopyAndSubscribe(old(Abs()), Entry(typ, id, name), qos, msgId)
    {
      var topic := AddPredefinedTopic(name, id);
      if topic == null {
        crashed := true;
      } else {
        PostToBroker(SubscribeBroker(topic.topicName, qos, msgId));
      }
    }

    method UpdateStatus(c: FromClient)
      requires Valid()
      modifies this`status
      ensures Valid() && Abs() == SessionModel.UpdateStatus(old(Abs()), c)
    {
      var next := status;
      if status == Active {
        if c.Disconnect? {
          next := if c.duration != 0 then Asleep else Status.Disconnected;
        }
      } else if status == Awake || status == Asleep {
        match c
        case Connect(_, _) => next := Active;
        case Disconnect(_) => next := Status.Disconnected;
        case Pingreq => next := Awake;
        case Pingresp => next := Asleep;
        case _ =>
      }
      status := next;
    }

    // ---- PacketHandleTask ----

    method HandleBroker(b: FromBroker)
      requires Valid()
      modifies this, topics, topics.spine, pubIds`cnt, pubIds.links, pubIds.links.spine
      modifies waiting`cnt, waiting.links, waiting.links.spine, stored, stored.spine
      ensures Valid() && Abs() == SessionModel.HandleBroker(old(Abs()), b)
    {
      match b
      case BrokerConnack(rc) => HandleConnack(rc);
      case BrokerPingresp => HandlePingresp();
      case BrokerPublish(m) => HandlePublish(m);
      case BrokerPuback(msgId) => HandlePuback(msgId);
      case BrokerAck(typ, msgId) => HandleAck(typ, msgId);
    }

    method HandleClient(gateway: Topics, c: FromClient)
      requires Valid() && gateway.Valid() && gateway != topics
      modifies this, topics, topics.spine, pubIds`cnt, pubIds.links, pubIds.links.spine
      modifies waiting`cnt, waiting.links, waiting.links.spine, stored, stored.spine, events, events.spine
      ensures Valid() && Abs() == SessionModel.HandleClient(old(Abs()), old(gateway.Abs()), c)
    {
      match c
      case Connect(clean, will) => HandleConnect(clean, will);
      case Disconnect(duration) => HandleDisconnect(duration);
      case Pingreq => HandlePingreq();
      case Publish(p) => HandleClientPublish(gateway, p);
      case Puback(msgId, rc) =>
        if status == Active && rc == RC_ACCEPTED { PostToBroker(PubackBroker(msgId)); }
      case Ack(typ, msgId) =>
        if status == Active { PostToBroker(AckBroker(typ, msgId)); }
      case Register(msgId, name) => HandleRegister(msgId, name);
      case Regack(msgId) => HandleRegAck(msgId);
      case Subscribe(qos, msgId, filter) => HandleSubscribe(gateway, qos, msgId, filter);
      case Pingresp =>
    }

    /** One turn of PacketHandleTask's loop: the first event is taken from the queue and handled; after
        a client's packet the status is updated. */
    method RunOnce(gateway: Topics)
      requires Valid() && gateway.Valid() && gateway != topics && !crashed
      modifies this, topics, topics.spine, pubIds`cnt, pubIds.links, pubIds.links.spine
      modifies waiting`cnt, waiting.links, waiting.links.spine, stored, stored.spine, events, events.spine
      ensures Valid()
      ensures Abs() == Turn(old(gateway.Abs()), old(Abs()))
    {
      var n := events.Size();
      if n == 0 {
        return;
      }
      HandleFirst(gateway);
    }

    /** The oldest event is taken from the queue and handled. */
    method HandleFirst(gateway: Topics)
      requires Valid() && gateway.Valid() && gateway != topics && Abs().events != []
      modifies this, topics, topics.spine, pubIds`cnt, pubIds.links, pubIds.links.spine
      modifies waiting`cnt, waiting.links, waiting.links.spine, stored, stored.spine, events, events.spine
      ensures Valid()
      ensures Abs() == AfterEvent(old(gateway.Abs()), SessionRuns.Popped(old(Abs())), old(Abs()).events[0])
    {
      var e := TakeEvent();
      HandleEvent(gateway, e);
    }

    method HandleEvent(gateway: Topics, e: Event)
      requires Valid() && gateway.Valid() && gateway != topics
      modifies this, topics, topics.spine, pubIds`cnt, pubIds.links, pubIds.links.spine
      modifies waiting`cnt, waiting.links, waiting.links.spine, stored, stored.spine, events, events.spine
      ensures Valid()
      ensures Abs() == AfterEvent(old(gateway.Abs()), old(Abs()), e)
    {
      match e
      case Foreign =>
      case BrokerRecv(b) => HandleBroker(b);
      case ClientRecv(c) =>
        HandleClient(gateway, c);
        if !crashed {
          UpdateStatus(c);
        }
    }

    method TakeEvent() returns (e: Event)
      requires Valid() && Abs().events != []
      modifies events, events.spine
      ensures Valid() == true && Abs() == SessionRuns.Popped(old(Abs())) && e == old(Abs()).events[0]
      ensures events.spine == old(events.spine)[1..]
    {
      var front := events.Front();
      events.Pop();
      return front.value;
    }
  }

  function AfterEvent(gw: Table, s: State, e: Event): State {
    var t := SessionRuns.Handled(gw, s, e);
    if e.ClientRecv? && !t.crashed then UpdateStatus(t, e.c) else t
  }

  /** What one turn of the loop does. */
  function Turn(gw: Table, s: State): State {
    if s.events == [] then s else AfterEvent(gw, SessionRuns.Popped(s), s.events[0])
  }

  /** A turn is one or two steps of a run: the handler, and the status if that is still to be updated. */
  lemma TurnIsSteps(gw: Table, s: State)
    requires s.events != [] && !s.crashed
    ensures var r := SessionRuns.Next(gw, SessionRuns.Session(s, None), SessionRuns.Dispatch);
            Turn(gw, s) == if SessionRuns.Enabled(r, SessionRuns.Update)
                           then SessionRuns.Next(gw, r, SessionRuns.Update).s else r.s
  {
  }

  function Offered(es: seq<Event>, maxSize: nat, m: GwPublish): seq<Event> {
    if HasRoom(|es|, maxSize) then es + [BrokerRecv(BrokerPublish(m))] else es
  }

  /** The event queue after the PUBLISHes were offered to it one by one. */
  function AllOffered(es: seq<Event>, maxSize: nat, ms: seq<GwPublish>): seq<Event>
    decreases |ms|
  {
    if ms == [] then es else AllOffered(Offered(es, maxSize, ms[0]), maxSize, ms[1..])
  }

  lemma {:induction false} NoneOffered(es: seq<Event>, maxSize: nat, ms: seq<GwPublish>)
    requires 0 < maxSize <= |es|
    ensures AllOffered(es, maxSize, ms) == es
    decreases |ms|
  {
    if ms != [] {
      NoneOffered(es, maxSize, ms[1..]);
    }
  }

  lemma {:induction false} SomeOffered(es: seq<Event>, maxSize: nat, ms: seq<GwPublish>)
    requires |es| <= maxSize && maxSize > 0
    ensures AllOffered(es, maxSize, ms) == es + Requeued(ms[..Min(maxSize - |es|, |ms|)])
    decreases |ms|
  {
    var n := Min(maxSize - |es|, |ms|);
    if n == 0 {
      NoneOfferedOrEmpty(es, maxSize, ms);
      assert es + Requeued(ms[..0]) == es;
    } else {
      var e := BrokerRecv(BrokerPublish(ms[0]));
      SomeOffered(es + [e], maxSize, ms[1..]);
      assert ms[..n] == [ms[0]] + ms[1..][..n - 1];
      RequeuedCons(ms[0], ms[1..][..n - 1]);
      Associates(es, [e], Requeued(ms[1..][..n - 1]));
    }
  }

  lemma RequeuedCons(m: GwPublish, ms: seq<GwPublish>)
    ensures Requeued([m] + ms) == [BrokerRecv(BrokerPublish(m))] + Requeued(ms)
  {
  }

  lemma Associates(a: seq<Event>, b: seq<Event>, c: seq<Event>)
    ensures a + (b + c) == a + b + c
  {
  }

  lemma NoneOfferedOrEmpty(es: seq<Event>, maxSize: nat, ms: seq<GwPublish>)
    requires maxSize > 0 && (ms == [] || maxSize <= |es|)
    ensures AllOffered(es, maxSize, ms) == es
  {
    if ms != [] {
      NoneOffered(es, maxSize, ms);
    }
  }

  function StoredOffered(s: State): State {
    s.(stored := [], events := AllOffered(s.events, MAX_PACKET_EVENTS, s.stored))
  }

  /** Offering the stored PUBLISHes one by one appends as many as find room, in their order. */
  lemma LoopIsSendStored(s: State)
    ensures SendStored(s) == StoredOffered(s)
  {
    if |s.events| < MAX_PACKET_EVENTS {
      SomeOffered(s.events, MAX_PACKET_EVENTS, s.stored);
    } else {
      NoneOffered(s.events, MAX_PACKET_EVENTS, s.stored);
      assert s.events + Requeued(s.stored[..0]) == s.events;
    }
  }

  method NewQues() returns (stored: Que<GwPublish>, events: Que<Event>)
    ensures stored.Valid() && events.Valid() && fresh(stored) && fresh(events)
    ensures stored.spine == [] && events.spine == []
    ensures stored.maxSize == MAX_SAVED_PUBLISH && events.maxSize == MAX_PACKET_EVENTS
  {
    stored := new Que();
    events := new Que();
    stored.SetMaxSize(MAX_SAVED_PUBLISH);
    events.SetMaxSize(MAX_PACKET_EVENTS);
  }

  lemma Apart(a: Que<GwPublish>, b: Que<Event>)
    ensures (a as object) != b
    ensures forall i, j :: 0 <= i < |a.spine| && 0 <= j < |b.spine| ==> (a.spine[i] as object) != b.spine[j]
    ensures forall i :: 0 <= i < |a.spine| ==> (a.spine[i] as object) != b
    ensures forall i :: 0 <= i < |b.spine| ==> (b.spine[i] as object) != a
  {
  }

  ghost predicate Ready(stored: Que<GwPublish>, events: Que<Event>, maxStored: nat, maxEvents: nat)
    reads stored, stored.spine, events, events.spine
  {
    stored.Valid() && events.Valid() && stored.maxSize == maxStored && events.maxSize == maxEvents
  }

  /** Takes the oldest stored PUBLISH and moves it to the event queue. */
  method MoveFront(stored: Que<GwPublish>, events: Que<Event>, ghost maxStored: nat, ghost maxEvents: nat)
    returns (moved: bool)
    requires Ready(stored, events, maxStored, maxEvents)
    modifies stored, stored.spine, events, events.spine
    ensures Ready(stored, events, maxStored, maxEvents) == true
    ensures var ms, es := old(stored.Contents()), old(events.Contents());
            && moved == (ms != [])
            && stored.Contents() == (if moved then ms[1..] else [])
            && events.Contents() == (if moved then Offered(es, maxEvents, ms[0]) else es)
    ensures forall k :: 0 <= k < |stored.spine| ==> stored.spine[k] in old(stored.spine)
    ensures forall k :: 0 <= k < |events.spine| ==> events.spine[k] in old(events.spine) || fresh(events.spine[k])
  {
    Apart(stored, events);
    var msg := stored.Front();
    if msg == None {
      return false;
    }
    stored.Pop();
    Apart(stored, events);
    var rc := events.Post(Some(BrokerRecv(BrokerPublish(msg.value))));
    return true;
  }

  /** The loop of sendStoredPublish. */
  method MoveAll(stored: Que<GwPublish>, events: Que<Event>, ghost maxStored: nat, ghost maxEvents: nat)
    requires Ready(stored, events, maxStored, maxEvents)
    modifies stored, stored.spine, events, events.spine
    ensures Ready(stored, events, maxStored, maxEvents) == true
    ensures stored.Contents() == []
    ensures events.Contents() == AllOffered(old(events.Contents()), maxEvents, old(stored.Contents()))
  {
    ghost var all := AllOffered(events.Contents(), maxEvents, stored.Contents());
    var more := true;
    while more
      invariant Ready(stored, events, maxStored, maxEvents) == true
      invariant AllOffered(events.Contents(), maxEvents, stored.Contents()) == all
      invariant !more ==> stored.Contents() == []
      invariant forall k :: 0 <= k < |stored.spine| ==> stored.spine[k] in old(stored.spine)
      invariant forall k :: 0 <= k < |events.spine| ==> events.spine[k] in old(events.spine) || fresh(events.spine[k])
      decreases |stored.Contents()|, more
    {
      more := MoveFront(stored, events, maxStored, maxEvents);
    }
  }
}
