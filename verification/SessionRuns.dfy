/** Every run of one client's session: packets arrive from both sides at any time, the
    thread that handles packets takes one event after the other (handler first, then the status
    update), and the thread that talks to the broker may report a sent CONNECT in between. */
module SessionRuns {
  import opened SortedMap
  import opened LinkedQueue
  import opened LinkedTable
  import opened TopicTable
  import opened TopicIds
  import opened SessionModel

  /** The session, and the client packet whose status update is still due. */
  datatype Session = Session(s: State, pending: Option<FromClient>)

  datatype Act =
    | BrokerSends(b: FromBroker)
    | ClientSends(c: FromClient)
    | OthersPost
    | Dispatch        // an event is taken and its handler runs
    | Update          // updateStatus is applied to a client's packet
    | ConnectSent     // Client::connectSended

  /** A client starts with the predefined topics that are configured for it. */
  function Start(own: Table): Session { Session(INITIAL.(topics := own), None) }

  predicate Enabled(r: Session, a: Act) {
    !r.s.crashed &&
    match a
    case Dispatch => r.pending.None? && r.s.events != []
    case Update => r.pending.Some?
    case _ => true
  }

  /** The state in which the handler of the first event starts: the event is off the queue. */
  function Popped(s: State): State
    requires s.events != []
  {
    s.(events := s.events[1..])
  }

  function Handled(gw: Table, s: State, e: Event): State {
    match e
    case Foreign => s
    case ClientRecv(c) => HandleClient(s, gw, c)
    case BrokerRecv(b) => HandleBroker(s, b)
  }

  function Next(gw: Table, r: Session, a: Act): Session
    requires Enabled(r, a)
  {
    match a
    case BrokerSends(b) => r.(s := PostEvent(r.s, BrokerRecv(b)))
    case ClientSends(c) => r.(s := PostEvent(r.s, ClientRecv(c)))
    case OthersPost => r.(s := PostEvent(r.s, Foreign))
    case Dispatch =>
      var e := r.s.events[0];
      Session(Handled(gw, Popped(r.s), e), if e.ClientRecv? then Some(e.c) else None)
    case Update => Session(UpdateStatus(r.s, r.pending.value), None)
    case ConnectSent => r.(s := r.s.(status := Connecting))
  }

  function Exec(gw: Table, r: Session, acts: seq<Act>): Option<Session>
    decreases |acts|
  {
    if acts == [] then Some(r)
    else if Enabled(r, acts[0]) then Exec(gw, Next(gw, r, acts[0]), acts[1..])
    else None
  }

  // ---- what every handler keeps ----

  ghost predicate Tables(s: State) {
    && TopicTable.Inv(s.topics)
    && Unique(s.pubIds) && FewIds(s.pubIds)
  }

  ghost predicate Bounded(s: State) {
    && |s.stored| <= MAX_SAVED_PUBLISH
    && |s.events| <= MAX_PACKET_EVENTS
    && Tables(s)
  }

  /** What a handler makes of the topic table. */
  lemma TopicsAfter(gw: Table, s: State, e: Event)
    ensures Handled(gw, s, e).topics ==
            match e
            case BrokerRecv(BrokerPublish(m)) =>
              if Listening(s) && NeedsRegister(s.topics, m)
              then TopicTable.Register(s.topics, NORMAL, m.topic).0 else s.topics
            case ClientRecv(Connect(clean, _)) => if clean && !Dozing(s) then EraseNormal(s.topics) else s.topics
            case ClientRecv(Publish(p)) => Resolve(s.topics, gw, p.topic).0
            case ClientRecv(Register(_, name)) =>
              if Listening(s) then TopicTable.Register(s.topics, NORMAL, name).0 else s.topics
            case ClientRecv(Subscribe(_, msgId, Predefined(id))) =>
              if msgId != 0 then Resolve(s.topics, gw, TopicRef.ById(PREDEFINED, id)).0 else s.topics
            case ClientRecv(Subscribe(_, msgId, Named(name))) =>
              if msgId != 0 then TopicTable.Register(s.topics, NORMAL, name).0 else s.topics
            case _ => s.topics
  {
    match e
    case BrokerRecv(b) => if b.BrokerPublish? { PublishTopics(s, b.m); }
    case ClientRecv(c) =>
    case Foreign =>
  }

  lemma PublishTopics(s: State, m: GwPublish)
    ensures HandlePublish(s, m).topics == if Listening(s) && NeedsRegister(s.topics, m)
                                          then TopicTable.Register(s.topics, NORMAL, m.topic).0 else s.topics
  {
  }

  /** What a handler makes of the topic ids recorded for PUBACKs. */
  lemma PubIdsAfter(gw: Table, s: State, e: Event)
    ensures Handled(gw, s, e).pubIds ==
            match e
            case BrokerRecv(BrokerPuback(msgId)) => Drop(s.pubIds, msgId)
            case ClientRecv(Connect(clean, _)) => if clean && !Dozing(s) then [] else s.pubIds
            case ClientRecv(Publish(p)) =>
              if Records(s, gw, p) then Insert(s.pubIds, IdRec(p.msgId, RefId(p.topic), RefType(p.topic))) else s.pubIds
            case _ => s.pubIds
  {
    match e
    case BrokerRecv(b) => if b.BrokerPublish? { PublishPubIds(s, b.m); }
    case ClientRecv(c) => if !c.Publish? { ClientPubIds(s, gw, c); }
    case Foreign =>
  }

  /** A PUBLISH of the client that the broker will answer with a PUBACK or its like. */
  predicate Records(s: State, gw: Table, p: SnPublish) {
    0 < p.qos < 3 && p.msgId != 0 && Resolve(s.topics, gw, p.topic).1.Some?
  }

  lemma PublishPubIds(s: State, m: GwPublish)
    ensures HandlePublish(s, m).pubIds == s.pubIds
  {
  }

  lemma ClientPubIds(s: State, gw: Table, c: FromClient)
    requires !c.Publish?
    ensures HandleClient(s, gw, c).pubIds == if c.Connect? && c.cleanSession && !Dozing(s) then [] else s.pubIds
  {
  }

  lemma ResolveInv(topics: Table, gw: Table, r: TopicRef)
    requires TopicTable.Inv(topics)
    ensures TopicTable.Inv(Resolve(topics, gw, r).0)
  {
    if r.ById? && FindId(gw.entries, r.typ, r.id).Some? {
      var g := FindId(gw.entries, r.typ, r.id).value;
      AddInv(topics, g.name, g.id);
    }
  }

  lemma HandledKeepsTopics(gw: Table, s: State, e: Event)
    requires TopicTable.Inv(s.topics)
    ensures TopicTable.Inv(Handled(gw, s, e).topics)
  {
    TopicsAfter(gw, s, e);
    match e
    case BrokerRecv(BrokerPublish(m)) => RegisterInv(s.topics, NORMAL, m.topic);
    case ClientRecv(Connect(_, _)) => EraseInv(s.topics);
    case ClientRecv(Publish(p)) => ResolveInv(s.topics, gw, p.topic);
    case ClientRecv(Register(_, name)) => RegisterInv(s.topics, NORMAL, name);
    case ClientRecv(Subscribe(_, _, Named(name))) => RegisterInv(s.topics, NORMAL, name);
    case ClientRecv(Subscribe(_, _, Predefined(id))) => ResolveInv(s.topics, gw, TopicRef.ById(PREDEFINED, id));
    case _ =>
  }

  predicate FewIds(recs: seq<IdRec>) { |recs| <= MAX_INFLIGHTMESSAGES * 2 + 1 }

  lemma HandledKeepsIds(gw: Table, s: State, e: Event)
    requires Unique(s.pubIds) && FewIds(s.pubIds)
    ensures Unique(Handled(gw, s, e).pubIds) && FewIds(Handled(gw, s, e).pubIds)
  {
    PubIdsAfter(gw, s, e);
    match e
    case BrokerRecv(BrokerPuback(msgId)) => DropUnique(s.pubIds, msgId);
    case ClientRecv(Publish(p)) => InsertUnique(s.pubIds, IdRec(p.msgId, RefId(p.topic), RefType(p.topic)));
    case _ =>
  }

  predicate Drains(s: State, c: FromClient) {
    Dozing(s) && (c.Connect? || c.Pingreq?)
  }

  lemma DrainsBuffer(s: State, gw: Table, c: FromClient)
    requires Drains(s, c)
    ensures HandleClient(s, gw, c).stored == [] && HandleClient(s, gw, c).events == SendStored(s).events
  {
    if c.Pingreq? && s.stored == [] {
      assert SendStored(s).events == s.events;
    }
  }

  lemma ClientKeepsBuffer(s: State, gw: Table, c: FromClient)
    requires !Drains(s, c)
    ensures HandleClient(s, gw, c).stored == s.stored && HandleClient(s, gw, c).events == s.events
  {
    if c.Subscribe? { SubscribeSends(gw, s, c); }
  }

  /** Only a CONNECT or PINGREQ of a dozing client takes from the buffer; only a PUBLISH
      from the broker to a sleeping client adds to it. */
  lemma BufferAfter(gw: Table, s: State, e: Event)
    ensures var t := Handled(gw, s, e);
            if e.ClientRecv? && Drains(s, e.c) then t.stored == [] && t.events == SendStored(s).events
            else if e.BrokerRecv? && e.b.BrokerPublish? && s.status == Asleep then
              t.stored == StorePublish(s, e.b.m).stored && t.events == s.events
            else t.stored == s.stored && t.events == s.events
  {
    match e
    case ClientRecv(c) =>
      if Drains(s, c) { DrainsBuffer(s, gw, c); } else { ClientKeepsBuffer(s, gw, c); }
    case BrokerRecv(b) => BrokerBuffer(s, b);
    case Foreign =>
  }

  lemma BrokerBuffer(s: State, b: FromBroker)
    ensures HandleBroker(s, b).events == s.events
    ensures HandleBroker(s, b).stored == if b.BrokerPublish? && s.status == Asleep
                                         then StorePublish(s, b.m).stored else s.stored
  {
  }

  lemma StepBounded(gw: Table, r: Session, a: Act)
    requires Bounded(r.s) && Enabled(r, a)
    ensures Bounded(Next(gw, r, a).s)
  {
    if a.Dispatch? {
      var s, e := Popped(r.s), r.s.events[0];
      BufferAfter(gw, s, e);
      HandledKeepsTopics(gw, s, e);
      HandledKeepsIds(gw, s, e);
    }
  }

  // ---- where the gateway ends ----

  /** The event makes the handler use a topic that a full table has refused to add. */
  predicate Fatal(gw: Table, s: State, e: Event) {
    && |s.topics.entries| >= MAX_TOPIC_PAR_CLIENT
    && match e
       case BrokerRecv(BrokerPublish(m)) => Listening(s) && NeedsRegister(s.topics, m)
       case ClientRecv(Register(_, name)) => Listening(s) && FindName(s.topics.entries, name).None?
       case ClientRecv(Subscribe(_, msgId, Predefined(id))) =>
         && msgId != 0 && FindId(s.topics.entries, PREDEFINED, id).None?
         && FindId(gw.entries, PREDEFINED, id).Some?
       case _ => false
  }

  /** The gateway follows a null pointer exactly when a client with fifty topics is listening and is sent
      a PUBLISH that only a wildcard explains, or listening and registers a name that it does not have, or
      subscribes to a predefined id that only the gateway's table knows. */
  lemma CrashIff(gw: Table, r: Session, a: Act)
    requires Enabled(r, a)
    ensures Next(gw, r, a).s.crashed <==> a.Dispatch? && Fatal(gw, Popped(r.s), r.s.events[0])
  {
    if a.Dispatch? {
      var s := Popped(r.s);
      match r.s.events[0]
      case BrokerRecv(b) => BrokerCrashes(gw, s, b);
      case ClientRecv(c) => ClientCrashes(gw, s, c);
      case Foreign =>
    }
  }

  lemma BrokerCrashes(gw: Table, s: State, b: FromBroker)
    requires !s.crashed
    ensures HandleBroker(s, b).crashed <==> Fatal(gw, s, BrokerRecv(b))
  {
  }

  lemma ClientCrashes(gw: Table, s: State, c: FromClient)
    requires !s.crashed
    ensures HandleClient(s, gw, c).crashed <==> Fatal(gw, s, ClientRecv(c))
  {
  }

  // ---- the sleep cycle ----

  /** When a client becomes Awake, Asleep, Active, Disconnected or Connecting: only by its own PINGREQ; by a PINGRESP of
      either side or its own DISCONNECT with a duration; by its own CONNECT or an accepting CONNACK; by its own
      DISCONNECT, its own CONNECT or a refusing CONNACK; and by the report that the CONNECT was sent. */
  lemma SleepCycle(gw: Table, r: Session, a: Act)
    requires Enabled(r, a)
    ensures var was, now := r.s.status, Next(gw, r, a).s.status;
            && (now == Awake != was <==> a.Update? && r.pending == Some(Pingreq) && was == Asleep)
            && (now == Asleep != was <==>
                  || (a.Update? && r.pending.value.Disconnect? && r.pending.value.duration != 0 && was == Active)
                  || (a.Dispatch? && r.s.events[0] == BrokerRecv(BrokerPingresp) && was == Awake)
                  || (a.Update? && r.pending == Some(Pingresp) && was == Awake))
            && (now == Active != was <==>
                  || (a.Update? && r.pending.value.Connect? && Dozing(r.s))
                  || (a.Dispatch? && r.s.events[0] == BrokerRecv(BrokerConnack(0)) && was != Active))
            && (now == Status.Disconnected != was <==>
                  || (a.Update? && r.pending.value.Disconnect?
                      && (Dozing(r.s) || (was == Active && r.pending.value.duration == 0)))
                  || (a.Dispatch? && EndsSession(r.s, r.s.events[0]) && was != Status.Disconnected))
            && (now == Connecting != was <==> a.ConnectSent? && was != Connecting)
            && (now == TryConnecting || now == Lost ==> now == was)
  {
    if a.Dispatch? {
      StatusAfter(gw, Popped(r.s), r.s.events[0]);
    }
  }

  /** A CONNECT that begins a session, or the broker's refusal. */
  predicate EndsSession(s: State, e: Event) {
    (e.ClientRecv? && e.c.Connect? && !Dozing(s)) || (e.BrokerRecv? && e.b.BrokerConnack? && e.b.rc != 0)
  }

  lemma StatusAfter(gw: Table, s: State, e: Event)
    ensures Handled(gw, s, e).status ==
            match e
            case BrokerRecv(BrokerConnack(rc)) => if rc == MQTT_CONNECTION_ACCEPTED then Active else Disconnected
            case BrokerRecv(BrokerPingresp) => if Dozing(s) then Asleep else s.status
            case ClientRecv(Connect(_, _)) => if Dozing(s) then s.status else Disconnected
            case _ => s.status
  {
    match e
    case BrokerRecv(b) => if b.BrokerPublish? { PublishStatus(s, b.m); }
    case ClientRecv(c) => if !c.Connect? { ClientStatus(gw, s, c); }
    case Foreign =>
  }

  lemma PublishStatus(s: State, m: GwPublish)
    ensures HandlePublish(s, m).status == s.status
  {
  }

  lemma ClientStatus(gw: Table, s: State, c: FromClient)
    requires !c.Connect?
    ensures HandleClient(s, gw, c).status == s.status
  {
  }

  /** While a client sleeps the gateway answers the broker for it: the QoS 1 and QoS 2 handshakes go
      on, and the client is sent nothing but a CONNACK, a PINGRESP or the answer to a PUBLISH of its own. */
  lemma SleeperIsRepresented(s: State, b: FromBroker)
    requires s.status == Asleep
    ensures var t := HandleBroker(s, b);
            && t.toBroker == s.toBroker + (match b
                                           case BrokerPublish(m) =>
                                             if m.qos == 1 then [PubackBroker(m.msgId)]
                                             else if m.qos == 2 then [AckBroker(PUBREC, m.msgId)] else []
                                           case BrokerAck(PUBREL, msgId) => [AckBroker(PUBCOMP, msgId)]
                                           case _ => [])
            && (t.toClient != s.toClient <==>
                  b.BrokerConnack? || b.BrokerPingresp? || (b.BrokerPuback? && Lookup(s.pubIds, b.msgId).Some?))
  {
  }

  // ---- tables of a well-configured client ----

  lemma RegisterConfigured(t: Table, name: string)
    requires Configured(t)
    ensures Configured(TopicTable.Register(t, NORMAL, name).0)
  {
    RegisterInv(t, NORMAL, name);
    NextOnCycle(t.next);
  }

  lemma ResolveConfigured(t: Table, gw: Table, r: TopicRef)
    requires Configured(t) && Configuration(gw)
    ensures Configured(Resolve(t, gw, r).0)
  {
    ResolveInv(t, gw, r);
  }

  lemma HandledConfigured(gw: Table, s: State, e: Event)
    requires Configured(s.topics) && Configuration(gw)
    ensures Configured(Handled(gw, s, e).topics)
  {
    TopicsAfter(gw, s, e);
    match e
    case BrokerRecv(b) => if b.BrokerPublish? { RegisterConfigured(s.topics, b.m.topic); }
    case Foreign =>
    case ClientRecv(c) =>
      match c
      case Connect(_, _) => EraseInv(s.topics);
      case Publish(p) => ResolveConfigured(s.topics, gw, p.topic);
      case Register(_, name) => RegisterConfigured(s.topics, name);
      case Subscribe(_, _, Named(name)) => RegisterConfigured(s.topics, name);
      case Subscribe(_, _, Predefined(id)) => ResolveConfigured(s.topics, gw, TopicRef.ById(PREDEFINED, id));
      case _ =>
  }

  /** A client whose predefined ids are configured once each keeps a table in which they are, in every
      run; the gateway's own predefined topics may have any of these ids. */
  lemma {:induction false} ExecConfigured(gw: Table, r: Session, acts: seq<Act>)
    requires Configured(r.s.topics) && Configuration(gw) && Exec(gw, r, acts).Some?
    ensures Configured(Exec(gw, r, acts).value.s.topics)
    decreases |acts|
  {
    if acts != [] {
      if acts[0].Dispatch? {
        HandledConfigured(gw, Popped(r.s), r.s.events[0]);
      }
      ExecConfigured(gw, Next(gw, r, acts[0]), acts[1..]);
    }
  }

  lemma HandledCNames(gw: Table, s: State, e: Event)
    requires CNames(s.topics) && Configuration(gw)
    ensures CNames(Handled(gw, s, e).topics)
  {
    TopicsAfter(gw, s, e);
    if e == ClientRecv(Connect(true, false)) || e == ClientRecv(Connect(true, true)) {
      OthersOnly(s.topics.entries);
    }
  }

  /** All names in a client's table are C strings, in every run. */
  lemma {:induction false} ExecCNames(gw: Table, r: Session, acts: seq<Act>)
    requires CNames(r.s.topics) && Configuration(gw) && Exec(gw, r, acts).Some?
    ensures CNames(Exec(gw, r, acts).value.s.topics)
    decreases |acts|
  {
    if acts != [] {
      if acts[0].Dispatch? {
        HandledCNames(gw, Popped(r.s), r.s.events[0]);
      }
      ExecCNames(gw, Next(gw, r, acts[0]), acts[1..]);
    }
  }

  // ---- the PINGREQ ----

  /** An Awake client has an empty buffer, and so has one that is about to become Awake. */
  ghost predicate EmptyWhenAwake(r: Session) {
    && (r.s.status == Awake ==> r.s.stored == [])
    && (r.pending == Some(Pingreq) && Dozing(r.s) ==> r.s.stored == [])
  }

  lemma StepEmptyWhenAwake(gw: Table, r: Session, a: Act)
    requires EmptyWhenAwake(r) && Enabled(r, a)
    ensures EmptyWhenAwake(Next(gw, r, a))
  {
    if a.Dispatch? {
      BufferAfter(gw, Popped(r.s), r.s.events[0]);
    }
  }

  lemma {:induction false} ExecInv(gw: Table, r: Session, acts: seq<Act>)
    requires Bounded(r.s) && EmptyWhenAwake(r) && Exec(gw, r, acts).Some?
    ensures var t := Exec(gw, r, acts).value; Bounded(t.s) && EmptyWhenAwake(t)
    decreases |acts|
  {
    if acts != [] {
      StepBounded(gw, r, acts[0]);
      StepEmptyWhenAwake(gw, r, acts[0]);
      ExecInv(gw, Next(gw, r, acts[0]), acts[1..]);
    }
  }

  /** The handler of the event forwards a PINGREQ to the broker. */
  predicate Pings(gw: Table, s: State, e: Event) {
    var t := Handled(gw, s, e);
    exists i :: |s.toBroker| <= i < |t.toBroker| && t.toBroker[i] == PingBroker
  }

  /** How many would still wait after a REGACK. */
  function StillWaiting(s: State, msgId: nat): nat {
    if FirstIndex(s.waiting, ByRegack(msgId)) < |s.waiting| then |s.waiting| - 1 else |s.waiting|
  }

  /** What makes the gateway forward a PINGREQ. */
  predicate PingDue(s: State, e: Event) {
    e.ClientRecv? &&
    match e.c
    case Pingreq => !(Dozing(s) && s.stored != [])
    case Regack(msgId) => Listening(s) && s.hold && StillWaiting(s, msgId) % 256 == 0
    case _ => false
  }

  /** A PINGREQ goes on at once when there is nothing stored; otherwise it is held, and only a
      REGACK after which none waits (counted in eight bits) lets it go. */
  lemma PingsIff(gw: Table, s: State, e: Event)
    ensures Pings(gw, s, e) <==> PingDue(s, e)
    ensures Handled(gw, s, e).hold != s.hold ==> e.ClientRecv? && (e.c.Pingreq? || e.c.Regack?)
  {
    match e
    case BrokerRecv(b) => BrokerSendsNoPing(s, b);
    case ClientRecv(c) =>
      if c.Pingreq? || c.Regack? {
        var t := Handled(gw, s, e);
        if PingDue(s, e) {
          assert t.toBroker == s.toBroker + [PingBroker];
          assert |s.toBroker| < |t.toBroker| && t.toBroker[|s.toBroker|] == PingBroker;
          assert Pings(gw, s, e);
        } else {
          assert t.toBroker == s.toBroker;
        }
      } else {
        ClientSendsNoPing(gw, s, c);
      }
    case Foreign =>
  }

  lemma BrokerSendsNoPing(s: State, b: FromBroker)
    ensures var t := HandleBroker(s, b);
            t.hold == s.hold && forall i :: |s.toBroker| <= i < |t.toBroker| ==> t.toBroker[i] != PingBroker
  {
    match b
    case BrokerPublish(m) => PublishSendsNoPing(s, m);
    case _ =>
  }

  lemma PublishSendsNoPing(s: State, m: GwPublish)
    ensures var t := HandlePublish(s, m);
            t.hold == s.hold && forall i :: |s.toBroker| <= i < |t.toBroker| ==> t.toBroker[i] != PingBroker
  {
  }

  lemma ClientSendsNoPing(gw: Table, s: State, c: FromClient)
    requires !c.Pingreq? && !c.Regack?
    ensures var t := HandleClient(s, gw, c);
            t.hold == s.hold && forall i :: |s.toBroker| <= i < |t.toBroker| ==> t.toBroker[i] != PingBroker
  {
    if c.Subscribe? { SubscribeSends(gw, s, c); }
  }

  lemma SubscribeSends(gw: Table, s: State, c: FromClient)
    requires c.Subscribe?
    ensures var t := HandleClient(s, gw, c);
            && t.hold == s.hold && t.stored == s.stored && t.events == s.events
            && (t.toBroker == s.toBroker
                || (exists name :: t.toBroker == s.toBroker + [SubscribeBroker(name, c.qos, c.msgId)]))
  {
    var t := HandleClient(s, gw, c);
    if t.toBroker != s.toBroker {
      var n := |s.toBroker|;
      assert t.toBroker[n].SubscribeBroker? && t.toBroker == s.toBroker + [t.toBroker[n]];
    }
  }

  /** In every reachable state an Awake client has nothing stored, and whenever the gateway
      forwards a PINGREQ for an Asleep or Awake client, nothing is stored for it. */
  lemma PingOnlyWhenEmpty(gw: Table, own: Table, acts: seq<Act>)
    requires Configuration(own) && Exec(gw, Start(own), acts).Some?
    ensures var r := Exec(gw, Start(own), acts).value;
            && (r.s.status == Awake ==> r.s.stored == [])
            && (Enabled(r, Dispatch) && Dozing(r.s) && Pings(gw, Popped(r.s), r.s.events[0]) ==>
                  r.s.stored == [] && Next(gw, r, Dispatch).s.stored == [])
  {
    ExecInv(gw, Start(own), acts);
    var r := Exec(gw, Start(own), acts).value;
    if Enabled(r, Dispatch) {
      PingsIff(gw, Popped(r.s), r.s.events[0]);
      BufferAfter(gw, Popped(r.s), r.s.events[0]);
    }
  }

  predicate PingOrRegack(e: Event) {
    e.ClientRecv? && (e.c.Pingreq? || e.c.Regack?)
  }

  /** A held PINGREQ is answered by a REGACK or a further PINGREQ, or not at all: as long as the
      client sends neither, it stays held and the broker is not asked, whatever else happens. */
  lemma {:induction false} HeldPingStays(gw: Table, r: Session, acts: seq<Act>)
    requires r.s.hold && Exec(gw, r, acts).Some?
    requires forall e :: e in r.s.events ==> !PingOrRegack(e)
    requires forall a :: a in acts && a.ClientSends? ==> !PingOrRegack(ClientRecv(a.c))
    ensures var t := Exec(gw, r, acts).value.s;
            t.hold && forall i :: |r.s.toBroker| <= i < |t.toBroker| ==> t.toBroker[i] != PingBroker
    ensures r.s.toBroker <= Exec(gw, r, acts).value.s.toBroker
    decreases |acts|
  {
    if acts != [] {
      var n := Next(gw, r, acts[0]);
      NextHoldsPing(gw, r, acts[0]);
      HeldPingStays(gw, n, acts[1..]);
    }
  }

  lemma NextHoldsPing(gw: Table, r: Session, a: Act)
    requires r.s.hold && Enabled(r, a)
    requires forall e :: e in r.s.events ==> !PingOrRegack(e)
    requires a.ClientSends? ==> !PingOrRegack(ClientRecv(a.c))
    ensures var t := Next(gw, r, a).s;
            && t.hold && r.s.toBroker <= t.toBroker
            && (forall i :: |r.s.toBroker| <= i < |t.toBroker| ==> t.toBroker[i] != PingBroker)
            && (forall e :: e in t.events ==> !PingOrRegack(e))
  {
    if a.Dispatch? {
      var s, e := Popped(r.s), r.s.events[0];
      assert !PingOrRegack(e) && forall x :: x in s.events ==> x in r.s.events;
      PingsIff(gw, s, e);
      BufferAfter(gw, s, e);
      SendsInOrder(gw, s, e);
      DrainedEvents(s);
    }
  }

  lemma DrainedEvents(s: State)
    requires forall e :: e in s.events ==> !PingOrRegack(e)
    ensures forall e :: e in SendStored(s).events ==> !PingOrRegack(e)
  {
    var es := Requeued(s.stored[..Min(Room(s), |s.stored|)]);
    forall e | e in s.events + es ensures !PingOrRegack(e) {
      if e !in s.events {
        assert e in es;
      }
    }
  }

  lemma SendsInOrder(gw: Table, s: State, e: Event)
    ensures s.toBroker <= Handled(gw, s, e).toBroker
  {
    match e
    case ClientRecv(c) => ClientSendsInOrder(gw, s, c);
    case BrokerRecv(b) => BrokerSendsInOrder(s, b);
    case Foreign =>
  }

  lemma ClientSendsInOrder(gw: Table, s: State, c: FromClient)
    ensures s.toBroker <= HandleClient(s, gw, c).toBroker
  {
    if c.Subscribe? { SubscribeSends(gw, s, c); }
  }

  lemma BrokerSendsInOrder(s: State, b: FromBroker)
    ensures s.toBroker <= HandleBroker(s, b).toBroker
  {
  }
}
