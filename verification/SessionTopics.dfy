/** What the client is told about topic ids: no PUBLISH reaches it under an id that it has
    not been told first, and a PUBLISH held back for a REGACK is released once. */
module SessionTopics {
  import opened SortedMap
  import opened LinkedTable
  import opened Cycles
  import opened TopicTable
  import opened SessionModel
  import opened SessionRuns

  /** For a PUBLISH that waits: its topic, the position of its REGISTER, the number of the REGISTER's
      message id among all that were issued, and the session it was held in. */
  datatype Held = Held(topic: string, at: nat, serial: nat, session: nat)

  /** What a message to the client is about: its topic, the session it belongs to and where that
      began in the messages sent, and, for a released PUBLISH, how it was held. */
  datatype Note = Note(topic: string, session: nat, since: nat, held: Option<Held>)

  datatype Log = Log(
    notes: seq<Note>,          // one for each message to the client
    helds: seq<Held>,          // one for each waiting PUBLISH
    session: nat,              // how often a clean CONNECT has erased the NORMAL topics
    since: nat,                // how much had been sent when that last happened
    subscribed: set<Note>,     // topics that a SUBSCRIBE by name has added to the table
    issued: nat,               // message ids issued for REGISTERs
    released: seq<nat>)        // the numbers of the PUBLISHes released by a REGACK

  const BLANK := Log([], [], 0, 0, {}, 0, [])

  function NoteOf(l: Log, topic: string): Note { Note(topic, l.session, l.since, None) }

  function Noted(s: State, t: State, l: Log, topic: string): Log {
    if |t.toClient| > |s.toClient| then l.(notes := l.notes + [NoteOf(l, topic)]) else l
  }

  function PublishLog(s: State, t: State, l: Log, topic: string): Log {
    var k := Noted(s, t, l, topic);
    if |t.waiting| > |s.waiting| then
      k.(helds := l.helds + [Held(topic, |s.toClient|, l.issued + 1, l.session)], issued := l.issued + 1)
    else k
  }

  /** The log after event `e` was handled in state `s`, judged by what changed. */
  function LogAfter(gw: Table, s: State, e: Event, l: Log): Log {
    var t := Handled(gw, s, e);
    match e
    case BrokerRecv(BrokerPublish(m)) =>
      PublishLog(s, t, l, m.topic)
    case ClientRecv(Register(_, name)) => Noted(s, t, l, name)
    case ClientRecv(Subscribe(_, _, Named(_))) =>
      var n := |s.topics.entries|;
      if |t.topics.entries| > n then l.(subscribed := l.subscribed + {NoteOf(l, t.topics.entries[n].name)}) else l
    case ClientRecv(Regack(msgId)) =>
      var i := FirstIndex(s.waiting, ByRegack(msgId));
      if |t.waiting| < |s.waiting| && i < |l.helds| then ReleaseLog(l, i) else l
    case ClientRecv(Connect(true, _)) =>
      var k := Noted(s, t, l, "");
      if Dozing(s) then k else k.(since := |t.toClient|, session := l.session + 1)
    case _ => Noted(s, t, l, "")
  }

  function Logged(gw: Table, r: Session, acts: seq<Act>, l: Log): Log
    requires Exec(gw, r, acts).Some?
    decreases |acts|
  {
    if acts == [] then l
    else Logged(gw, Next(gw, r, acts[0]), acts[1..],
                if acts[0].Dispatch? then LogAfter(gw, Popped(r.s), r.s.events[0], l) else l)
  }

  // ---- announcements ----

  /** The message tells the client what topic the id stands for. */
  predicate Announces(m: ToClient, id: nat) {
    (m.SendRegister? && m.id == id) || (m.SendRegack? && m.id == id)
  }

  /** One of the first `n` messages has announced the id for the topic. */
  ghost predicate Told(sent: seq<ToClient>, notes: seq<Note>, n: nat, id: nat, note: Note)
    requires n <= |sent| && n <= |notes|
  {
    exists k :: note.since <= k < n && Announces(sent[k], id) && CStr(notes[k].topic) == CStr(note.topic)
  }

  lemma ToldLater(sent: seq<ToClient>, notes: seq<Note>, n: nat, id: nat, note: Note,
                  sent': seq<ToClient>, notes': seq<Note>, n': nat)
    requires n <= n' <= |sent'| && n <= |sent| && sent <= sent'
    requires n' <= |notes'| && n <= |notes| && notes <= notes'
    requires Told(sent, notes, n, id, note)
    ensures Told(sent', notes', n', id, note)
  {
    var k :| note.since <= k < n && Announces(sent[k], id) && CStr(notes[k].topic) == CStr(note.topic);
    assert sent'[k] == sent[k] && notes'[k] == notes[k];
  }

  ghost predicate Aligned(s: State, l: Log) {
    |l.notes| == |s.toClient| && |l.helds| == |s.waiting| && l.since <= |s.toClient|
  }

  ghost predicate EntryTold(s: State, l: Log, e: Entry)
    requires Aligned(s, l)
  {
    NoteOf(l, e.name) in l.subscribed || Told(s.toClient, l.notes, |s.toClient|, e.id, NoteOf(l, e.name))
  }

  /** The client knows the ids of its NORMAL topics. */
  ghost predicate TableTold(s: State, l: Log)
    requires Aligned(s, l)
  {
    forall e :: e in s.topics.entries && e.typ == NORMAL ==> EntryTold(s, l, e)
  }

  /** The PUBLISH waits for the answer to a REGISTER that carries its id and topic. */
  ghost predicate HeldTold(s: State, l: Log, w: Wait, h: Held)
    requires Aligned(s, l)
  {
    && w.p.topic.ById? && w.p.topic.typ == NORMAL
    && h.at < |s.toClient|
    && s.toClient[h.at] == SendRegister(w.p.topic.id, w.regackMsgId, h.topic)
    && l.notes[h.at].topic == h.topic
    && h.session <= l.session && (h.at >= l.since <==> h.session == l.session)
  }

  ghost predicate WaitsTold(s: State, l: Log)
    requires Aligned(s, l)
  {
    forall i :: 0 <= i < |s.waiting| ==> HeldTold(s, l, s.waiting[i], l.helds[i])
  }

  /** The PUBLISH stands behind the REGISTER it was held for, which belongs to the same session
      exactly when no clean CONNECT has come between the two. */
  ghost predicate ReleaseTold(sent: seq<ToClient>, notes: seq<Note>, i: nat, id: nat, note: Note, h: Held)
    requires i <= |sent| && i <= |notes|
  {
    && h.at < i && sent[h.at].SendRegister? && sent[h.at].id == id
    && sent[h.at].name == note.topic == notes[h.at].topic
    && (h.at >= note.since <==> h.session == note.session)
  }

  /** The i-th message, if it is a PUBLISH under a NORMAL id, comes after the announcement of
      this id for the very topic it was published to. */
  ghost predicate UseTold(s: State, l: Log, i: nat)
    requires i < |s.toClient| == |l.notes|
  {
    var m, note := s.toClient[i], l.notes[i];
    m.SendPublish? && m.p.topic.ById? && m.p.topic.typ == NORMAL ==>
      match note.held
      case None => note in l.subscribed || Told(s.toClient, l.notes, i, m.p.topic.id, note)
      case Some(h) => ReleaseTold(s.toClient, l.notes, i, m.p.topic.id, note, h)
  }

  ghost predicate AllTold(s: State, l: Log)
    requires Aligned(s, l)
  {
    forall i :: 0 <= i < |s.toClient| ==> UseTold(s, l, i)
  }

  ghost predicate TopicsTold(s: State, l: Log) {
    Aligned(s, l) && TableTold(s, l) && WaitsTold(s, l) && AllTold(s, l)
  }

  predicate SameSession(l: Log, k: Log) { k.session == l.session && k.since == l.since }

  /** More has been sent and noted. */
  ghost predicate Later(s: State, l: Log, t: State, k: Log) {
    && Aligned(s, l) && Aligned(t, k)
    && s.toClient <= t.toClient && l.notes <= k.notes && l.subscribed <= k.subscribed
  }

  lemma EntryLater(s: State, l: Log, t: State, k: Log, e: Entry)
    requires Later(s, l, t, k) && SameSession(l, k) && EntryTold(s, l, e)
    ensures EntryTold(t, k, e)
  {
    var note := NoteOf(l, e.name);
    if note !in l.subscribed {
      ToldLater(s.toClient, l.notes, |s.toClient|, e.id, note, t.toClient, k.notes, |t.toClient|);
    }
  }

  /** No new topics. */
  lemma TableLater(s: State, l: Log, t: State, k: Log)
    requires Later(s, l, t, k) && SameSession(l, k) && TableTold(s, l)
    requires forall e :: e in t.topics.entries && e.typ == NORMAL ==> e in s.topics.entries
    ensures TableTold(t, k)
  {
    forall e | e in t.topics.entries && e.typ == NORMAL ensures EntryTold(t, k, e) {
      EntryLater(s, l, t, k, e);
    }
  }

  lemma WaitsLater(s: State, l: Log, t: State, k: Log)
    requires Later(s, l, t, k) && WaitsTold(s, l) && t.waiting == s.waiting && k.helds == l.helds
    requires SameSession(l, k) || (k.session > l.session && k.since == |t.toClient|)
    ensures WaitsTold(t, k)
  {
    forall i | 0 <= i < |t.waiting| ensures HeldTold(t, k, t.waiting[i], k.helds[i]) {
      assert HeldTold(s, l, s.waiting[i], l.helds[i]);
    }
  }

  lemma UseLater(s: State, l: Log, t: State, k: Log, i: nat)
    requires Later(s, l, t, k) && i < |s.toClient| && UseTold(s, l, i)
    ensures UseTold(t, k, i)
  {
    var m := s.toClient[i];
    assert t.toClient[i] == m && k.notes[i] == l.notes[i];
    var note := l.notes[i];
    if m.SendPublish? && m.p.topic.ById? && m.p.topic.typ == NORMAL && note.held.None? && note !in l.subscribed {
      ToldLater(s.toClient, l.notes, i, m.p.topic.id, l.notes[i], t.toClient, k.notes, i);
    }
  }

  /** At most one more message, which is itself told. */
  lemma AllLater(s: State, l: Log, t: State, k: Log)
    requires Later(s, l, t, k) && AllTold(s, l)
    requires |t.toClient| <= |s.toClient| + 1
    requires |t.toClient| > |s.toClient| ==> UseTold(t, k, |s.toClient|)
    ensures AllTold(t, k)
  {
    forall i | 0 <= i < |t.toClient| ensures UseTold(t, k, i) {
      if i < |s.toClient| {
        UseLater(s, l, t, k, i);
      }
    }
  }

  // ---- the handlers ----

  lemma RegisterEntry(t: Table, name: string)
    ensures var (t', r) := TopicTable.Register(t, NORMAL, name);
            && (r.None? ==> t' == t)
            && (r.Some? ==>
                  && r.value in t'.entries && CStr(r.value.name) == CStr(name)
                  && (t'.entries == t.entries || t'.entries == t.entries + [r.value]))
  {
  }

  /** Another NORMAL topic, and the message that announces it. */
  lemma AnnouncedKeeps(s: State, l: Log, t: State, k: Log, e: Entry, name: string)
    requires Later(s, l, t, k) && SameSession(l, k) && TableTold(s, l)
    requires |t.toClient| == |s.toClient| + 1 && Announces(t.toClient[|s.toClient|], e.id)
    requires k.notes[|s.toClient|] == NoteOf(l, name) && CStr(e.name) == CStr(name)
    requires t.topics.entries == s.topics.entries || t.topics.entries == s.topics.entries + [e]
    ensures TableTold(t, k)
  {
    forall x | x in t.topics.entries && x.typ == NORMAL ensures EntryTold(t, k, x) {
      if x in s.topics.entries {
        EntryLater(s, l, t, k, x);
      } else {
        assert x == e;
      }
    }
  }

  lemma RegisterKeeps(s: State, l: Log, msgId: nat, name: string)
    requires TopicsTold(s, l)
    ensures TopicsTold(HandleRegister(s, msgId, name), Noted(s, HandleRegister(s, msgId, name), l, name))
  {
    var t := HandleRegister(s, msgId, name);
    var k := Noted(s, t, l, name);
    RegisterEntry(s.topics, name);
    if |t.toClient| > |s.toClient| {
      AnnouncedKeeps(s, l, t, k, TopicTable.Register(s.topics, NORMAL, name).1.value, name);
      WaitsLater(s, l, t, k);
      AllLater(s, l, t, k);
    } else {
      Elsewhere(s, l, t);
    }
  }

  lemma SubscribeKeeps(gw: Table, s: State, l: Log, qos: nat, msgId: nat, name: string)
    requires TopicsTold(s, l)
    ensures TopicsTold(HandleClient(s, gw, Subscribe(qos, msgId, Named(name))),
                       LogAfter(gw, s, ClientRecv(Subscribe(qos, msgId, Named(name))), l))
  {
    var t := HandleClient(s, gw, Subscribe(qos, msgId, Named(name)));
    var k := LogAfter(gw, s, ClientRecv(Subscribe(qos, msgId, Named(name))), l);
    RegisterEntry(s.topics, name);
    if t != s {
      var e := TopicTable.Register(s.topics, NORMAL, name).1.value;
      forall x | x in t.topics.entries && x.typ == NORMAL ensures EntryTold(t, k, x) {
        if x in s.topics.entries {
          EntryLater(s, l, t, k, x);
        } else {
          assert t.topics.entries == s.topics.entries + [e] && x == e;
        }
      }
      WaitsLater(s, l, t, k);
      AllLater(s, l, t, k);
    }
  }

  /** The log after the i-th waiting PUBLISH was released. */
  function ReleaseLog(l: Log, i: nat): Log
    requires i < |l.helds|
  {
    l.(notes := l.notes + [NoteOf(l, l.helds[i].topic).(held := Some(l.helds[i]))],
       helds := Without(l.helds, i), released := l.released + [l.helds[i].serial])
  }

  lemma ReleaseKeeps(s: State, l: Log, t: State, i: nat)
    requires TopicsTold(s, l) && i < |s.waiting| && t.topics == s.topics
    requires t.toClient == s.toClient + [SendPublish(s.waiting[i].p)] && t.waiting == Without(s.waiting, i)
    ensures TopicsTold(t, ReleaseLog(l, i))
  {
    var k := ReleaseLog(l, i);
    TableLater(s, l, t, k);
    assert HeldTold(s, l, s.waiting[i], l.helds[i]);
    AllLater(s, l, t, k);
    forall j | 0 <= j < |t.waiting| ensures HeldTold(t, k, t.waiting[j], k.helds[j]) {
      var j' := if j < i then j else j + 1;
      assert HeldTold(s, l, s.waiting[j'], l.helds[j']);
    }
  }

  lemma RegackKeeps(gw: Table, s: State, l: Log, msgId: nat)
    requires TopicsTold(s, l)
    ensures TopicsTold(HandleRegAck(s, msgId), LogAfter(gw, s, ClientRecv(Regack(msgId)), l))
  {
    var t := HandleRegAck(s, msgId);
    var i := FirstIndex(s.waiting, ByRegack(msgId));
    if |t.waiting| < |s.waiting| {
      ReleaseKeeps(s, l, t, i);
    } else {
      Elsewhere(s, l, t);
    }
  }

  /** How a PUBLISH is passed to a listening client. */
  lemma ForwardAfter(s: State, m: GwPublish)
    ensures var t, (topics, r) := Forward(s, m), TopicTable.Register(s.topics, NORMAL, m.topic);
            && t.topics == (if NeedsRegister(s.topics, m) then topics else s.topics)
            && (NeedsRegister(s.topics, m) && r.Some? ==>
                  && t.toClient == s.toClient + [SendRegister(r.value.id, t.snMsgId, m.topic)]
                  && t.waiting == s.waiting + [Wait(t.snMsgId, ToSn(m, ById(NORMAL, r.value.id)))]
                  && t.snMsgId == NextSnMsgId(s.snMsgId))
            && (!(NeedsRegister(s.topics, m) && r.Some?) ==>
                  && t.waiting == s.waiting && t.snMsgId == s.snMsgId
                  && (t.toClient == s.toClient || t.toClient == s.toClient + [SendPublish(ToSn(m, KnownRef(s, m)))]))
  {
  }

  /** The reference of a topic that needs no REGISTER: its short name, or its entry in the table. */
  function KnownRef(s: State, m: GwPublish): TopicRef {
    match FindName(s.topics.entries, m.topic)
    case Some(e) => if |m.topic| > 2 then ById(e.typ, e.id) else ShortName(m)
    case None => ShortName(m)
  }

  /** The PUBLISH is held behind its REGISTER. */
  lemma HoldKeeps(s: State, l: Log, t: State, m: GwPublish, e: Entry)
    requires TopicsTold(s, l) && CStr(e.name) == CStr(m.topic)
    requires t.toClient == s.toClient + [SendRegister(e.id, t.snMsgId, m.topic)]
    requires t.waiting == s.waiting + [Wait(t.snMsgId, ToSn(m, ById(NORMAL, e.id)))]
    requires t.topics.entries == s.topics.entries || t.topics.entries == s.topics.entries + [e]
    ensures TopicsTold(t, PublishLog(s, t, l, m.topic))
  {
    var k := PublishLog(s, t, l, m.topic);
    AnnouncedKeeps(s, l, t, k, e, m.topic);
    AllLater(s, l, t, k);
    forall j | 0 <= j < |t.waiting| ensures HeldTold(t, k, t.waiting[j], k.helds[j]) {
      if j < |s.waiting| {
        assert HeldTold(s, l, s.waiting[j], l.helds[j]);
      }
    }
  }

  /** The PUBLISH is sent under what the table says, or not at all. */
  lemma SendKeeps(s: State, l: Log, t: State, m: GwPublish)
    requires TopicsTold(s, l) && t.topics == s.topics && t.waiting == s.waiting
    requires t.toClient == s.toClient || t.toClient == s.toClient + [SendPublish(ToSn(m, KnownRef(s, m)))]
    ensures TopicsTold(t, PublishLog(s, t, l, m.topic))
  {
    var k, n := PublishLog(s, t, l, m.topic), |s.toClient|;
    TableLater(s, l, t, k);
    WaitsLater(s, l, t, k);
    var r := FindName(s.topics.entries, m.topic);
    if |t.toClient| > n && r.Some? && r.value.typ == NORMAL {
      assert EntryTold(s, l, r.value);
      EntryLater(s, l, t, k, r.value);
      assert UseTold(t, k, n);
    }
    AllLater(s, l, t, k);
  }

  lemma ForwardKeeps(s: State, l: Log, m: GwPublish)
    requires TopicsTold(s, l)
    ensures TopicsTold(Forward(s, m), PublishLog(s, Forward(s, m), l, m.topic))
  {
    var t, r := Forward(s, m), TopicTable.Register(s.topics, NORMAL, m.topic).1;
    ForwardAfter(s, m);
    RegisterEntry(s.topics, m.topic);
    if NeedsRegister(s.topics, m) && r.Some? {
      HoldKeeps(s, l, t, m, r.value);
    } else {
      SendKeeps(s, l, t, m);
    }
  }

  lemma ResolveNormals(topics: Table, gw: Table, r: TopicRef)
    requires Configuration(gw)
    ensures forall e :: e in Resolve(topics, gw, r).0.entries && e.typ == NORMAL ==> e in topics.entries
  {
  }

  lemma PublishKeeps(gw: Table, s: State, l: Log, p: SnPublish)
    requires TopicsTold(s, l) && Configuration(gw)
    ensures TopicsTold(HandleClientPublish(s, gw, p), LogAfter(gw, s, ClientRecv(Publish(p)), l))
  {
    ResolveNormals(s.topics, gw, p.topic);
    var t := HandleClientPublish(s, gw, p);
    var k := LogAfter(gw, s, ClientRecv(Publish(p)), l);
    TableLater(s, l, t, k);
    WaitsLater(s, l, t, k);
    AllLater(s, l, t, k);
  }

  lemma PredefinedKeeps(gw: Table, s: State, l: Log, qos: nat, msgId: nat, id: nat)
    requires TopicsTold(s, l) && Configuration(gw)
    ensures TopicsTold(HandleClient(s, gw, Subscribe(qos, msgId, Predefined(id))),
                       LogAfter(gw, s, ClientRecv(Subscribe(qos, msgId, Predefined(id))), l))
  {
    ResolveNormals(s.topics, gw, TopicRef.ById(PREDEFINED, id));
    var t := HandleClient(s, gw, Subscribe(qos, msgId, Predefined(id)));
    var k := LogAfter(gw, s, ClientRecv(Subscribe(qos, msgId, Predefined(id))), l);
    TableLater(s, l, t, k);
    WaitsLater(s, l, t, k);
    AllLater(s, l, t, k);
  }

  lemma ConnectKeeps(gw: Table, s: State, l: Log, clean: bool, will: bool)
    requires TopicsTold(s, l)
    ensures TopicsTold(HandleConnect(s, clean, will), LogAfter(gw, s, ClientRecv(Connect(clean, will)), l))
  {
    var t := HandleConnect(s, clean, will);
    var k := LogAfter(gw, s, ClientRecv(Connect(clean, will)), l);
    if clean && !Dozing(s) {
      OthersOnly(s.topics.entries);
    } else {
      TableLater(s, l, t, k);
    }
    WaitsLater(s, l, t, k);
    AllLater(s, l, t, k);
  }

  /** Every other handler leaves topics and waiting PUBLISHes alone, and sends at most one message,
      which is no PUBLISH. */
  predicate Plain(s: State, e: Event) {
    match e
    case BrokerRecv(b) => !b.BrokerPublish? || !Listening(s)
    case ClientRecv(c) => c.Disconnect? || c.Pingreq? || c.Puback? || c.Ack? || c.Pingresp?
                          || (c.Subscribe? && c.filter.Short?)
    case Foreign => true
  }

  lemma PlainAfter(gw: Table, s: State, e: Event)
    requires Plain(s, e)
    ensures var t := Handled(gw, s, e);
            && t.topics == s.topics && t.waiting == s.waiting && t.snMsgId == s.snMsgId
            && OneMore(s, t)
  {
    match e
    case BrokerRecv(b) => if b.BrokerPublish? { QuietPublish(s, b.m); } else { PlainBroker(s, b); }
    case ClientRecv(c) => PlainClient(gw, s, c);
    case Foreign =>
  }

  predicate OneMore(s: State, t: State) {
    && |s.toClient| <= |t.toClient| <= |s.toClient| + 1 && s.toClient <= t.toClient
    && (|t.toClient| > |s.toClient| ==>
          var m := t.toClient[|s.toClient|]; !m.SendPublish? && !m.SendRegister? && !m.SendRegack?)
  }

  lemma PlainBroker(s: State, b: FromBroker)
    requires !b.BrokerPublish?
    ensures var t := HandleBroker(s, b);
            t.topics == s.topics && t.waiting == s.waiting && t.snMsgId == s.snMsgId && OneMore(s, t)
  {
  }

  lemma PlainClient(gw: Table, s: State, c: FromClient)
    requires Plain(s, ClientRecv(c))
    ensures var t := HandleClient(s, gw, c);
            t.topics == s.topics && t.waiting == s.waiting && t.snMsgId == s.snMsgId && OneMore(s, t)
  {
  }

  lemma QuietPublish(s: State, m: GwPublish)
    requires !Listening(s)
    ensures var t := HandlePublish(s, m);
            && t.topics == s.topics && t.waiting == s.waiting && t.snMsgId == s.snMsgId && t.toClient == s.toClient
  {
  }

  lemma NotedKeeps(s: State, l: Log, t: State, topic: string)
    requires TopicsTold(s, l) && t.topics == s.topics && t.waiting == s.waiting
    requires |s.toClient| <= |t.toClient| <= |s.toClient| + 1 && s.toClient <= t.toClient
    requires |t.toClient| > |s.toClient| ==> !t.toClient[|s.toClient|].SendPublish?
    ensures TopicsTold(t, Noted(s, t, l, topic))
  {
    var k := Noted(s, t, l, topic);
    TableLater(s, l, t, k);
    WaitsLater(s, l, t, k);
    AllLater(s, l, t, k);
  }

  lemma PlainLog(gw: Table, s: State, e: Event, l: Log)
    requires Plain(s, e)
    ensures LogAfter(gw, s, e, l)
         == Noted(s, Handled(gw, s, e), l, if e.BrokerRecv? && e.b.BrokerPublish? then e.b.m.topic else "")
  {
    PlainAfter(gw, s, e);
  }

  lemma OtherKeeps(gw: Table, s: State, l: Log, e: Event)
    requires TopicsTold(s, l) && Plain(s, e)
    ensures TopicsTold(Handled(gw, s, e), LogAfter(gw, s, e, l))
  {
    PlainAfter(gw, s, e);
    PlainLog(gw, s, e, l);
    NotedKeeps(s, l, Handled(gw, s, e), if e.BrokerRecv? && e.b.BrokerPublish? then e.b.m.topic else "");
  }

  lemma HandledKeeps(gw: Table, s: State, l: Log, e: Event)
    requires TopicsTold(s, l) && Configuration(gw)
    ensures TopicsTold(Handled(gw, s, e), LogAfter(gw, s, e, l))
  {
    match e
    case BrokerRecv(b) =>
      if b.BrokerPublish? && Listening(s) { ForwardKeeps(s, l, b.m); } else { OtherKeeps(gw, s, l, e); }
    case Foreign => OtherKeeps(gw, s, l, e);
    case ClientRecv(c) =>
      match c
      case Register(msgId, name) => RegisterKeeps(s, l, msgId, name);
      case Subscribe(qos, msgId, Named(name)) => SubscribeKeeps(gw, s, l, qos, msgId, name);
      case Subscribe(qos, msgId, Predefined(id)) => PredefinedKeeps(gw, s, l, qos, msgId, id);
      case Regack(msgId) => RegackKeeps(gw, s, l, msgId);
      case Publish(p) => PublishKeeps(gw, s, l, p);
      case Connect(clean, will) => ConnectKeeps(gw, s, l, clean, will);
      case _ => OtherKeeps(gw, s, l, e);
  }

  /** Nothing but the status and the event queue differs. */
  lemma Elsewhere(s: State, l: Log, t: State)
    requires TopicsTold(s, l)
    requires t.toClient == s.toClient && t.topics == s.topics && t.waiting == s.waiting
    ensures TopicsTold(t, l)
  {
    TableLater(s, l, t, l);
    WaitsLater(s, l, t, l);
    AllLater(s, l, t, l);
  }

  lemma {:induction false} LoggedTold(gw: Table, r: Session, acts: seq<Act>, l: Log)
    requires TopicsTold(r.s, l) && Configuration(gw) && Exec(gw, r, acts).Some?
    ensures TopicsTold(Exec(gw, r, acts).value.s, Logged(gw, r, acts, l))
    decreases |acts|
  {
    if acts != [] {
      var t := Next(gw, r, acts[0]);
      if acts[0].Dispatch? {
        Elsewhere(r.s, l, Popped(r.s));
        HandledKeeps(gw, Popped(r.s), l, r.s.events[0]);
      } else {
        Elsewhere(r.s, l, t.s);
      }
      LoggedTold(gw, t, acts[1..], if acts[0].Dispatch? then LogAfter(gw, Popped(r.s), r.s.events[0], l) else l);
    }
  }

  lemma StartTold(own: Table)
    requires Configuration(own)
    ensures TopicsTold(Start(own).s, BLANK)
  {
  }

  /** In every run: a PUBLISH sent to the client under a NORMAL id comes after a REGISTER or REGACK
      of the same session with this id and the topic the message was published to, unless it was the
      client's own SUBSCRIBE to this name that added the topic. One that was held comes after its own
      REGISTER, which is of the same session if and only if no clean CONNECT of a client that was not
      dozing lies between the two. */
  lemma UseAfterAnnouncement(gw: Table, own: Table, acts: seq<Act>, i: nat)
    requires Configuration(gw) && Configuration(own) && Exec(gw, Start(own), acts).Some?
    requires i < |Exec(gw, Start(own), acts).value.s.toClient|
    ensures var s, l := Exec(gw, Start(own), acts).value.s, Logged(gw, Start(own), acts, BLANK);
            && |l.notes| == |s.toClient| && UseTold(s, l, i)
            && var m, note := s.toClient[i], l.notes[i];
               m.SendPublish? && m.p.topic.ById? && m.p.topic.typ == NORMAL
               && note.held.Some? && note.held.value.session == note.session ==>
                 Told(s.toClient, l.notes, i, m.p.topic.id, note)
  {
    StartTold(own);
    LoggedTold(gw, Start(own), acts, BLANK);
    var s, l := Exec(gw, Start(own), acts).value.s, Logged(gw, Start(own), acts, BLANK);
    assert UseTold(s, l, i);
    var m, note := s.toClient[i], l.notes[i];
    if m.SendPublish? && m.p.topic.ById? && m.p.topic.typ == NORMAL && note.held.Some? {
      assert Announces(s.toClient[note.held.value.at], m.p.topic.id);
    }
  }

  /** In every run: a PUBLISH that is held back stands behind a REGISTER that was sent with its
      topic, its id and the message id it waits for. */
  lemma HeldBehindRegister(gw: Table, own: Table, acts: seq<Act>, i: nat)
    requires Configuration(gw) && Configuration(own) && Exec(gw, Start(own), acts).Some?
    requires i < |Exec(gw, Start(own), acts).value.s.waiting|
    ensures var s, l := Exec(gw, Start(own), acts).value.s, Logged(gw, Start(own), acts, BLANK);
            && |l.helds| == |s.waiting| && l.helds[i].at < |s.toClient|
            && var w, h := s.waiting[i], l.helds[i];
               && w.p.topic.ById? && w.p.topic.typ == NORMAL
               && s.toClient[h.at] == SendRegister(w.p.topic.id, w.regackMsgId, h.topic)
  {
    StartTold(own);
    LoggedTold(gw, Start(own), acts, BLANK);
    var s, l := Exec(gw, Start(own), acts).value.s, Logged(gw, Start(own), acts, BLANK);
    assert HeldTold(s, l, s.waiting[i], l.helds[i]);
  }

  // ---- the announcements of a session agree ----

  /** What the k-th message announces is in the table. */
  ghost predicate StillKnown(s: State, l: Log, k: nat)
    requires k < |s.toClient| == |l.notes|
  {
    var m := s.toClient[k];
    m.SendRegister? || m.SendRegack? ==>
      exists e :: e in s.topics.entries && e.id == m.id && CStr(e.name) == CStr(l.notes[k].topic)
  }

  ghost predicate Known(s: State, l: Log)
    requires Aligned(s, l)
  {
    forall k :: l.since <= k < |s.toClient| ==> StillKnown(s, l, k)
  }

  lemma KnownLater(s: State, l: Log, t: State, k: Log)
    requires Later(s, l, t, k) && SameSession(l, k) && Known(s, l)
    requires forall e :: e in s.topics.entries ==> e in t.topics.entries
    requires |t.toClient| <= |s.toClient| + 1
    requires |t.toClient| > |s.toClient| ==> StillKnown(t, k, |s.toClient|)
    ensures Known(t, k)
  {
    forall i | k.since <= i < |t.toClient| ensures StillKnown(t, k, i) {
      if i < |s.toClient| {
        assert StillKnown(s, l, i) && t.toClient[i] == s.toClient[i] && k.notes[i] == l.notes[i];
      }
    }
  }

  lemma HandledKnown(gw: Table, s: State, l: Log, e: Event)
    requires TopicsTold(s, l) && Known(s, l)
    requires TopicsTold(Handled(gw, s, e), LogAfter(gw, s, e, l))
    ensures Known(Handled(gw, s, e), LogAfter(gw, s, e, l))
  {
    match e
    case Foreign =>
    case BrokerRecv(b) =>
      if b.BrokerPublish? && Listening(s) { ForwardKnown(s, l, b.m); } else { PlainKnown(gw, s, l, e); }
    case ClientRecv(c) =>
      match c
      case Register(msgId, name) => RegisterKnown(s, l, msgId, name);
      case Publish(p) => PublishKnown(gw, s, l, p);
      case Connect(clean, will) => if !clean || Dozing(s) { ConnectKnown(gw, s, l, clean, will); }
      case Regack(msgId) => RegackKnown(gw, s, l, msgId);
      case Subscribe(qos, msgId, Named(name)) => SubscribeKnown(gw, s, l, qos, msgId, name);
      case Subscribe(qos, msgId, Predefined(id)) => PredefinedKnown(gw, s, l, qos, msgId, id);
      case _ => PlainKnown(gw, s, l, e);
  }

  lemma RegisterKnown(s: State, l: Log, msgId: nat, name: string)
    requires Aligned(s, l) && Known(s, l)
    ensures Known(HandleRegister(s, msgId, name), Noted(s, HandleRegister(s, msgId, name), l, name))
  {
    var t := HandleRegister(s, msgId, name);
    RegisterEntry(s.topics, name);
    if |t.toClient| > |s.toClient| {
      var e := TopicTable.Register(s.topics, NORMAL, name).1.value;
      assert e in t.topics.entries && t.toClient[|s.toClient|] == SendRegack(e.id, msgId, RC_ACCEPTED);
    }
    KnownLater(s, l, t, Noted(s, t, l, name));
  }

  lemma PublishKnown(gw: Table, s: State, l: Log, p: SnPublish)
    requires Aligned(s, l) && Known(s, l)
    ensures Known(HandleClientPublish(s, gw, p), LogAfter(gw, s, ClientRecv(Publish(p)), l))
  {
    KnownLater(s, l, HandleClientPublish(s, gw, p), LogAfter(gw, s, ClientRecv(Publish(p)), l));
  }

  lemma HoldKnown(s: State, l: Log, t: State, m: GwPublish, e: Entry)
    requires Aligned(s, l) && Known(s, l) && CStr(e.name) == CStr(m.topic) && e in t.topics.entries
    requires t.toClient == s.toClient + [SendRegister(e.id, t.snMsgId, m.topic)]
    requires |t.waiting| == |s.waiting| + 1
    requires forall x :: x in s.topics.entries ==> x in t.topics.entries
    ensures Known(t, PublishLog(s, t, l, m.topic))
  {
    KnownLater(s, l, t, PublishLog(s, t, l, m.topic));
  }

  lemma SendKnown(s: State, l: Log, t: State, m: GwPublish, p: SnPublish)
    requires Aligned(s, l) && Known(s, l) && t.topics == s.topics && t.waiting == s.waiting
    requires t.toClient == s.toClient || t.toClient == s.toClient + [SendPublish(p)]
    ensures Known(t, PublishLog(s, t, l, m.topic))
  {
    KnownLater(s, l, t, PublishLog(s, t, l, m.topic));
  }

  lemma ForwardKnown(s: State, l: Log, m: GwPublish)
    requires Aligned(s, l) && Known(s, l) && Aligned(Forward(s, m), PublishLog(s, Forward(s, m), l, m.topic))
    ensures Known(Forward(s, m), PublishLog(s, Forward(s, m), l, m.topic))
  {
    var t, r := Forward(s, m), TopicTable.Register(s.topics, NORMAL, m.topic).1;
    ForwardAfter(s, m);
    RegisterEntry(s.topics, m.topic);
    if NeedsRegister(s.topics, m) && r.Some? {
      HoldKnown(s, l, t, m, r.value);
    } else {
      SendKnown(s, l, t, m, ToSn(m, KnownRef(s, m)));
    }
  }

  lemma NotedKnown(s: State, l: Log, t: State, topic: string)
    requires Aligned(s, l) && Known(s, l) && t.topics == s.topics && t.waiting == s.waiting
    requires |s.toClient| <= |t.toClient| <= |s.toClient| + 1 && s.toClient <= t.toClient
    requires |t.toClient| > |s.toClient| ==>
               var m := t.toClient[|s.toClient|]; !m.SendRegister? && !m.SendRegack?
    ensures Aligned(t, Noted(s, t, l, topic)) && Known(t, Noted(s, t, l, topic))
  {
    KnownLater(s, l, t, Noted(s, t, l, topic));
  }

  lemma PlainKnown(gw: Table, s: State, l: Log, e: Event)
    requires Aligned(s, l) && Known(s, l) && Plain(s, e) && Aligned(Handled(gw, s, e), LogAfter(gw, s, e, l))
    ensures Known(Handled(gw, s, e), LogAfter(gw, s, e, l))
  {
    PlainAfter(gw, s, e);
    PlainLog(gw, s, e, l);
    NotedKnown(s, l, Handled(gw, s, e), if e.BrokerRecv? && e.b.BrokerPublish? then e.b.m.topic else "");
  }

  lemma ConnectKnown(gw: Table, s: State, l: Log, clean: bool, will: bool)
    requires Aligned(s, l) && Known(s, l) && (!clean || Dozing(s))
    ensures Known(HandleConnect(s, clean, will), LogAfter(gw, s, ClientRecv(Connect(clean, will)), l))
  {
    NotedKnown(s, l, HandleConnect(s, clean, will), "");
  }

  lemma RegackKnown(gw: Table, s: State, l: Log, msgId: nat)
    requires Aligned(s, l) && Known(s, l)
    requires Aligned(HandleRegAck(s, msgId), LogAfter(gw, s, ClientRecv(Regack(msgId)), l))
    ensures Known(HandleRegAck(s, msgId), LogAfter(gw, s, ClientRecv(Regack(msgId)), l))
  {
    KnownLater(s, l, HandleRegAck(s, msgId), LogAfter(gw, s, ClientRecv(Regack(msgId)), l));
  }

  lemma SubscribeKnown(gw: Table, s: State, l: Log, qos: nat, msgId: nat, name: string)
    requires Aligned(s, l) && Known(s, l)
    ensures Known(HandleClient(s, gw, Subscribe(qos, msgId, Named(name))),
                  LogAfter(gw, s, ClientRecv(Subscribe(qos, msgId, Named(name))), l))
  {
    RegisterEntry(s.topics, name);
    KnownLater(s, l, HandleClient(s, gw, Subscribe(qos, msgId, Named(name))),
               LogAfter(gw, s, ClientRecv(Subscribe(qos, msgId, Named(name))), l));
  }

  lemma PredefinedKnown(gw: Table, s: State, l: Log, qos: nat, msgId: nat, id: nat)
    requires Aligned(s, l) && Known(s, l)
    ensures Known(HandleClient(s, gw, Subscribe(qos, msgId, Predefined(id))),
                  LogAfter(gw, s, ClientRecv(Subscribe(qos, msgId, Predefined(id))), l))
  {
    KnownLater(s, l, HandleClient(s, gw, Subscribe(qos, msgId, Predefined(id))),
               LogAfter(gw, s, ClientRecv(Subscribe(qos, msgId, Predefined(id))), l));
  }

  lemma {:induction false} LoggedKnown(gw: Table, r: Session, acts: seq<Act>, l: Log)
    requires TopicsTold(r.s, l) && Known(r.s, l) && Configuration(gw) && Exec(gw, r, acts).Some?
    ensures var s, k := Exec(gw, r, acts).value.s, Logged(gw, r, acts, l); Aligned(s, k) && Known(s, k)
    decreases |acts|
  {
    if acts != [] {
      var t := Next(gw, r, acts[0]);
      if acts[0].Dispatch? {
        var s, e := Popped(r.s), r.s.events[0];
        Elsewhere(r.s, l, s);
        KnownLater(r.s, l, s, l);
        HandledKeeps(gw, s, l, e);
        HandledKnown(gw, s, l, e);
      } else {
        Elsewhere(r.s, l, t.s);
        KnownLater(r.s, l, t.s, l);
      }
      LoggedKnown(gw, t, acts[1..], if acts[0].Dispatch? then LogAfter(gw, Popped(r.s), r.s.events[0], l) else l);
    }
  }

  /** The table has a predefined topic of this name under the id. */
  predicate PredefinedCalled(t: Table, id: nat, name: string) {
    exists f :: f in t.entries && f.typ != NORMAL && f.id == id && CStr(f.name) == CStr(name)
  }

  /** In every run: what a client was told in its session about the id of one of its NORMAL topics is this
      topic, if and only if it was not about a predefined topic of its table that has the same number. So going by
      the latest announcement, or by any, the client understands a PUBLISH under the id exactly when no such
      topic has been announced to it. */
  lemma AnnouncementsAgree(gw: Table, own: Table, acts: seq<Act>, e: Entry, k: nat)
    requires Configuration(gw) && Configuration(own) && Exec(gw, Start(own), acts).Some?
    requires var s, l := Exec(gw, Start(own), acts).value.s, Logged(gw, Start(own), acts, BLANK);
             && e in s.topics.entries && e.typ == NORMAL
             && l.since <= k < |s.toClient| && Announces(s.toClient[k], e.id)
    ensures var s, l := Exec(gw, Start(own), acts).value.s, Logged(gw, Start(own), acts, BLANK);
            && k < |l.notes|
            && (CStr(l.notes[k].topic) == CStr(e.name) <==> !PredefinedCalled(s.topics, e.id, l.notes[k].topic))
  {
    StartTold(own);
    ExecInv(gw, Start(own), acts);
    ExecCNames(gw, Start(own), acts);
    LoggedKnown(gw, Start(own), acts, BLANK);
    var s, l := Exec(gw, Start(own), acts).value.s, Logged(gw, Start(own), acts, BLANK);
    assert StillKnown(s, l, k);
    AgreeIff(s.topics, e, l.notes[k].topic);
  }

  lemma AgreeIff(t: Table, e: Entry, name: string)
    requires Inv(t) && CNames(t) && e in t.entries && e.typ == NORMAL
    requires exists f :: f in t.entries && f.id == e.id && CStr(f.name) == CStr(name)
    ensures CStr(name) == CStr(e.name) <==> !PredefinedCalled(t, e.id, name)
  {
    if PredefinedCalled(t, e.id, name) {
      var f :| f in t.entries && f.typ != NORMAL && f.id == e.id && CStr(f.name) == CStr(name);
      assert CStr(f.name) == f.name && CStr(e.name) == e.name;
      InvMeaning(t, e, f);
    } else {
      var f :| f in t.entries && f.id == e.id && CStr(f.name) == CStr(name);
      InvMeaning(t, e, f);
    }
  }

  // ---- each held PUBLISH is released at most once ----

  const REGACK_PERIOD := 255

  /** The n-th message id issued for a REGISTER. */
  function RegackId(n: nat): nat
    requires n >= 1
  {
    (n - 1) % REGACK_PERIOD + 1
  }

  /** Each waiting PUBLISH has the message id of its number, and together with the released
      ones they are all that were issued. */
  ghost predicate Numbers(waiting: seq<Wait>, helds: seq<Held>, issued: nat, released: seq<nat>) {
    && |helds| == |waiting|
    && (forall i :: 0 <= i < |helds| ==>
          1 <= helds[i].serial <= issued && waiting[i].regackMsgId == RegackId(helds[i].serial))
    && (forall i, j :: 0 <= i < j < |helds| ==> helds[i].serial < helds[j].serial)
    && (forall i :: 0 <= i < |released| ==> 1 <= released[i] <= issued)
    && (forall i, j :: 0 <= i < j < |released| ==> released[i] != released[j])
    && (forall i, j :: 0 <= i < |helds| && 0 <= j < |released| ==> helds[i].serial != released[j])
    && |helds| + |released| == issued
  }

  ghost predicate Numbered(s: State, l: Log) {
    && s.snMsgId == (if l.issued == 0 then 0 else RegackId(l.issued))
    && Numbers(s.waiting, l.helds, l.issued, l.released) == true
  }

  lemma NumbersRelease(waiting: seq<Wait>, helds: seq<Held>, issued: nat, released: seq<nat>, i: nat)
    requires Numbers(waiting, helds, issued, released) && i < |waiting|
    ensures Numbers(Without(waiting, i), Without(helds, i), issued, released + [helds[i].serial])
  {
  }

  lemma NumbersHold(waiting: seq<Wait>, helds: seq<Held>, issued: nat, released: seq<nat>, w: Wait, h: Held)
    requires Numbers(waiting, helds, issued, released)
    requires h.serial == issued + 1 && w.regackMsgId == RegackId(issued + 1)
    ensures Numbers(waiting + [w], helds + [h], issued + 1, released)
  {
  }

  lemma NextRegackId(n: nat)
    ensures NextSnMsgId(if n == 0 then 0 else RegackId(n)) == RegackId(n + 1)
  {
  }

  /** Only a PUBLISH from the broker adds to the list, only a REGACK takes from it. */
  lemma WaitingAfter(gw: Table, s: State, e: Event)
    ensures var t := Handled(gw, s, e);
            match e
            case BrokerRecv(BrokerPublish(m)) => NextWaits(s, t)
            case ClientRecv(Regack(msgId)) =>
              t.snMsgId == s.snMsgId && (t.waiting == s.waiting || t.waiting == WithoutFirst(s.waiting, msgId))
            case _ => t.waiting == s.waiting && t.snMsgId == s.snMsgId
  {
    match e
    case BrokerRecv(b) =>
      if b.BrokerPublish? && Listening(s) { ForwardAfter(s, b.m); } else { PlainAfter(gw, s, e); }
    case ClientRecv(c) => if !c.Regack? { ClientWaiting(gw, s, c); }
    case Foreign =>
  }

  /** Nothing is added, or one PUBLISH that waits for the next message id. */
  predicate NextWaits(s: State, t: State) {
    || (t.waiting == s.waiting && t.snMsgId == s.snMsgId)
    || (t.snMsgId == NextSnMsgId(s.snMsgId) && |t.waiting| == |s.waiting| + 1
        && t.waiting[..|s.waiting|] == s.waiting && t.waiting[|s.waiting|].regackMsgId == t.snMsgId)
  }

  lemma ClientWaiting(gw: Table, s: State, c: FromClient)
    requires !c.Regack?
    ensures HandleClient(s, gw, c).waiting == s.waiting && HandleClient(s, gw, c).snMsgId == s.snMsgId
  {
  }

  lemma HoldNumbers(s: State, t: State, l: Log, topic: string, w: Wait)
    requires Numbers(s.waiting, l.helds, l.issued, l.released) == true
    requires t.waiting == s.waiting + [w] && w.regackMsgId == t.snMsgId == RegackId(l.issued + 1)
    ensures Numbered(t, PublishLog(s, t, l, topic))
  {
    var h := Held(topic, |s.toClient|, l.issued + 1, l.session);
    NumbersHold(s.waiting, l.helds, l.issued, l.released, w, h);
    assert PublishLog(s, t, l, topic).helds == l.helds + [h];
  }

  lemma PublishNumbers(s: State, t: State, l: Log, topic: string)
    requires Numbered(s, l) && NextWaits(s, t)
    ensures Numbered(t, PublishLog(s, t, l, topic))
  {
    if |t.waiting| > |s.waiting| {
      NextRegackId(l.issued);
      assert t.waiting == s.waiting + [t.waiting[|s.waiting|]];
      HoldNumbers(s, t, l, topic, t.waiting[|s.waiting|]);
    }
  }

  lemma RegackNumbers(gw: Table, s: State, l: Log, msgId: nat)
    requires Numbered(s, l)
    ensures Numbered(HandleRegAck(s, msgId), LogAfter(gw, s, ClientRecv(Regack(msgId)), l))
  {
    var t := HandleRegAck(s, msgId);
    WaitingAfter(gw, s, ClientRecv(Regack(msgId)));
    if |t.waiting| < |s.waiting| {
      NumbersRelease(s.waiting, l.helds, l.issued, l.released, FirstIndex(s.waiting, ByRegack(msgId)));
    }
  }

  lemma HandledNumbers(gw: Table, s: State, l: Log, e: Event)
    requires Numbered(s, l)
    ensures Numbered(Handled(gw, s, e), LogAfter(gw, s, e, l))
  {
    match e
    case BrokerRecv(BrokerPublish(m)) =>
      WaitingAfter(gw, s, e);
      PublishNumbers(s, HandlePublish(s, m), l, m.topic);
    case ClientRecv(Regack(msgId)) => RegackNumbers(gw, s, l, msgId);
    case _ => WaitingAfter(gw, s, e);
  }

  lemma {:induction false} LoggedNumbers(gw: Table, r: Session, acts: seq<Act>, l: Log)
    requires Numbered(r.s, l) && Exec(gw, r, acts).Some?
    ensures Numbered(Exec(gw, r, acts).value.s, Logged(gw, r, acts, l))
    decreases |acts|
  {
    if acts != [] {
      if acts[0].Dispatch? {
        HandledNumbers(gw, Popped(r.s), l, r.s.events[0]);
      }
      LoggedNumbers(gw, Next(gw, r, acts[0]), acts[1..],
                    if acts[0].Dispatch? then LogAfter(gw, Popped(r.s), r.s.events[0], l) else l);
    }
  }

  /** A held PUBLISH leaves the list only when a REGACK with the message id of its own REGISTER
      arrives; it is then what the client is sent next. */
  lemma ReleasedByItsRegack(gw: Table, r: Session)
    requires Enabled(r, Dispatch) && |Next(gw, r, Dispatch).s.waiting| < |r.s.waiting|
    ensures var s, t := r.s, Next(gw, r, Dispatch).s;
            && s.events[0].ClientRecv? && s.events[0].c.Regack?
            && exists i :: 0 <= i < |s.waiting|
                 && s.waiting[i].regackMsgId == s.events[0].c.msgId
                 && t.waiting == Without(s.waiting, i)
                 && t.toClient == s.toClient + [SendPublish(s.waiting[i].p)]
  {
    var e := r.s.events[0];
    WaitingAfter(gw, Popped(r.s), e);
    var i := FirstIndex(r.s.waiting, ByRegack(e.c.msgId));
    assert ByRegack(e.c.msgId)(r.s.waiting[i]);
  }

  /** In every run: the PUBLISHes held so far, numbered in order, are each either still waiting or
      released, and none was released twice. Two of those waiting are told apart by their message
      ids unless a whole number of periods of 255 lies between them. */
  lemma ReleasedAtMostOnce(gw: Table, own: Table, acts: seq<Act>, i: nat, j: nat)
    requires Exec(gw, Start(own), acts).Some?
    ensures var s, l := Exec(gw, Start(own), acts).value.s, Logged(gw, Start(own), acts, BLANK);
            && |l.helds| == |s.waiting| && |l.helds| + |l.released| == l.issued
            && (i < j < |l.released| ==> l.released[i] != l.released[j])
            && (i < |l.helds| && j < |l.released| ==> l.helds[i].serial != l.released[j])
            && (i < j < |l.helds| ==>
                  (s.waiting[i].regackMsgId == s.waiting[j].regackMsgId
                   <==> (l.helds[j].serial - l.helds[i].serial) % REGACK_PERIOD == 0))
  {
    LoggedNumbers(gw, Start(own), acts, BLANK);
    var l := Logged(gw, Start(own), acts, BLANK);
    if i < j < |l.helds| {
      Periods(REGACK_PERIOD, l.helds[i].serial - 1, l.helds[j].serial - 1);
    }
  }

  /** In every run: a REGACK finds exactly the PUBLISH whose REGISTER it answers if and only if none
      that has waited longer was held a whole number of periods of 255 earlier. */
  lemma RegackFindsItsOwn(gw: Table, own: Table, acts: seq<Act>, i: nat)
    requires Exec(gw, Start(own), acts).Some?
    requires i < |Exec(gw, Start(own), acts).value.s.waiting|
    ensures var s, l := Exec(gw, Start(own), acts).value.s, Logged(gw, Start(own), acts, BLANK);
            && |l.helds| == |s.waiting|
            && (FirstIndex(s.waiting, ByRegack(s.waiting[i].regackMsgId)) == i
                <==> forall j :: 0 <= j < i ==> (l.helds[i].serial - l.helds[j].serial) % REGACK_PERIOD != 0)
  {
    LoggedNumbers(gw, Start(own), acts, BLANK);
    var s, l := Exec(gw, Start(own), acts).value.s, Logged(gw, Start(own), acts, BLANK);
    var same := ByRegack(s.waiting[i].regackMsgId);
    assert same(s.waiting[i]);
    forall j | 0 <= j < i
      ensures same(s.waiting[j]) <==> (l.helds[i].serial - l.helds[j].serial) % REGACK_PERIOD == 0
    {
      Periods(REGACK_PERIOD, l.helds[j].serial - 1, l.helds[i].serial - 1);
    }
  }
}
