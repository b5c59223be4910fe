/** What the consumer's calls of `wait` and `timedwait` come to, in every interleaving with the producers. */
module EventCalls {
  import opened SortedMap
  import opened EventQueue

  /** A call under way: which of the two it is, and how often it has looked at the size so far. */
  datatype Open = Open(timed: bool, rounds: nat)

  /** A call that is over: which one it was, how often it looked at the size, and what it gave back. */
  datatype Ended<T> = Ended(timed: bool, rounds: nat, result: Outcome<T>)

  datatype Ledger<T> = Ledger(open: Option<Open>, ended: seq<Ended<T>>)

  /** Enters a step into the ledger. A call is over when the consumer is outside again. */
  function Noted<T>(s: State<T>, a: Act<T>, l: Ledger<T>): Ledger<T>
    requires Enabled(s, a)
  {
    match a
    case Call(timed) => l.(open := Some(Open(timed, 0)))
    case Consume =>
      (match l.open
       case None => l
       case Some(o) =>
         if s.consumer.ReadSize? then l.(open := Some(Open(o.timed, o.rounds + 1)))
         else if s.consumer.Done? && Apply(s, a).consumer.Outside? then
           Ledger(None, l.ended + [Ended(o.timed, o.rounds, s.consumer.result)])
         else l)
    case _ => l
  }

  function Calls<T>(s: State<T>, acts: seq<Act<T>>, l: Ledger<T>): Ledger<T>
    requires Exec(s, acts).Some?
    decreases |acts|
  {
    if acts == [] then l else Calls(Apply(s, acts[0]), acts[1..], Noted(s, acts[0], l))
  }

  /** The events among the results. */
  function Items<T>(ended: seq<Ended<T>>): seq<T> {
    if ended == [] then []
    else Items(ended[..|ended| - 1])
         + match ended[|ended| - 1].result
           case Item(ev) => [ev]
           case _ => []
  }

  /** How a call may end: `wait` with an event only; `timedwait` with an event or a timeout, having looked
      at the size once. */
  predicate Proper<T>(e: Ended<T>) {
    if e.timed then e.rounds == 1 && (e.result.Item? || e.result.Timeout?) else e.rounds >= 1 && e.result.Item?
  }

  /** The consumer is in the call that the ledger has open. */
  predicate InCall<T>(c: Consumer<T>, o: Open) {
    && (o.rounds == 0 ==> c.ReadSize?)
    && (o.timed && !c.ReadSize? ==> o.rounds == 1)
    && match c
       case Outside => false
       case ReadSize(timed) => timed == o.timed && (timed ==> o.rounds == 0)
       case SemWait(timed) => timed == o.timed
       case WantLock(timed) => timed == o.timed
       case Look(timed) => timed == o.timed
       case Unlinked(_) => true
       case Done(result) => result.Item? || (if o.timed then result.Timeout? else result.Again?)
  }

  ghost predicate CallInv<T>(s: State<T>, l: Ledger<T>) {
    && (match l.open
        case None => s.consumer.Outside?
        case Some(o) => InCall(s.consumer, o))
    && (forall e :: e in l.ended ==> Proper(e))
    && Items(l.ended) == s.returned
  }

  lemma NotedInv<T>(s: State<T>, a: Act<T>, l: Ledger<T>)
    requires CallInv(s, l) && Enabled(s, a)
    ensures CallInv(Apply(s, a), Noted(s, a, l))
  {
    var m := Noted(s, a, l);
    if m.ended != l.ended {
      assert m.ended[..|m.ended| - 1] == l.ended;
      assert forall e :: e in m.ended ==> e in l.ended || e == m.ended[|l.ended|];
    }
  }

  lemma {:induction false} CallsInv<T>(s: State<T>, acts: seq<Act<T>>, l: Ledger<T>)
    requires CallInv(s, l) && Exec(s, acts).Some?
    ensures CallInv(Exec(s, acts).value, Calls(s, acts, l))
    decreases |acts|
  {
    if acts != [] {
      NotedInv(s, acts[0], l);
      CallsInv(Apply(s, acts[0]), acts[1..], Noted(s, acts[0], l));
    }
  }

  /** In every interleaving: a call of `wait` ends with an event and nothing else, a call of `timedwait` with an
      event or a timeout and without looking at the size again; `wait` alone starts over; and the events
      that the calls gave back are, in the order of the calls, those that left the queue. */
  lemma CallsEnd<T>(maxSize: nat, acts: seq<Act<T>>, i: nat)
    requires Exec(Init(maxSize), acts).Some?
    ensures var s, l := Exec(Init<T>(maxSize), acts).value, Calls(Init(maxSize), acts, Ledger(None, []));
            && (i < |l.ended| && !l.ended[i].timed ==> l.ended[i].result.Item?)
            && (i < |l.ended| && l.ended[i].timed ==>
                  l.ended[i].rounds == 1 && (l.ended[i].result.Item? || l.ended[i].result.Timeout?))
            && (s.consumer.Outside? <==> l.open.None?)
            && (s.consumer == Done(Again) ==> !l.open.value.timed)
            && (l.open.Some? && l.open.value.timed ==> l.open.value.rounds <= 1)
            && s.returned == Items(l.ended)
  {
    CallsInv(Init<T>(maxSize), acts, Ledger(None, []));
    var l := Calls(Init<T>(maxSize), acts, Ledger(None, []));
    assert i < |l.ended| ==> Proper(l.ended[i]);
  }

  // ---- a call that nobody interrupts ----

  /** One step of a run and of its ledger. */
  lemma OneStep<T>(s: State<T>, t: State<T>, acts: seq<Act<T>>, l: Ledger<T>)
    requires acts != [] && Enabled(s, acts[0]) && Apply(s, acts[0]) == t
    ensures Exec(s, acts) == Exec(t, acts[1..])
    ensures Exec(s, acts).Some? ==> Calls(s, acts, l) == Calls(t, acts[1..], Noted(s, acts[0], l))
  {
  }

  lemma {:induction false} ExecConcat<T>(s: State<T>, a: seq<Act<T>>, b: seq<Act<T>>, l: Ledger<T>)
    requires Exec(s, a).Some?
    ensures Exec(s, a + b) == Exec(Exec(s, a).value, b)
    ensures Exec(s, a + b).Some? ==> Calls(s, a + b, l) == Calls(Exec(s, a).value, b, Calls(s, a, l))
    decreases |a|
  {
    if a == [] {
      assert a + b == b;
    } else {
      assert (a + b)[1..] == a[1..] + b;
      ExecConcat(Apply(s, a[0]), a[1..], b, Noted(s, a[0], l));
    }
  }

  /** Nothing but the consumer's call has moved. */
  ghost predicate Elsewhere<T>(s: State<T>, t: State<T>) {
    && t.lock.Free? && t.producers == s.producers && t.maxSize == s.maxSize && t.accepted == s.accepted
    && t.cnt == |t.queue|
  }

  /** A consumer that is about to lock, and takes the oldest event. */
  lemma TakesOne<T>(s: State<T>, timed: bool, l: Ledger<T>) returns (acts: seq<Act<T>>)
    requires s.lock.Free? && s.cnt == |s.queue| > 0 && s.consumer == WantLock(timed) && l.open.Some?
    ensures acts == [Consume, Consume, Consume, Consume] && Exec(s, acts).Some?
    ensures var t := Exec(s, acts).value;
            && Elsewhere(s, t) && t.consumer.Outside? && t.queue == s.queue[1..] && t.sem == s.sem
    ensures Calls(s, acts, l)
            == Ledger(None, l.ended + [Ended(l.open.value.timed, l.open.value.rounds, Item(s.queue[0]))])
  {
    acts := [Consume, Consume, Consume, Consume];
    var s1 := ConsumerStep(s);
    var s2 := ConsumerStep(s1);
    var s3 := ConsumerStep(s2);
    var s4 := ConsumerStep(s3);
    OneStep(s, s1, acts, l);
    OneStep(s1, s2, acts[1..], l);
    OneStep(s2, s3, acts[2..], l);
    OneStep(s3, s4, acts[3..], l);
  }

  /** A consumer that is about to lock, and finds the queue empty. */
  lemma FindsNone<T>(s: State<T>, timed: bool, l: Ledger<T>) returns (acts: seq<Act<T>>)
    requires s.lock.Free? && s.cnt == 0 && s.queue == [] && s.consumer == WantLock(timed) && l.open.Some?
    ensures acts == [Consume, Consume, Consume]
    ensures Exec(s, acts) == Some(s.(consumer := if timed then Outside else ReadSize(false)))
    ensures Calls(s, acts, l)
            == if timed then Ledger(None, l.ended + [Ended(l.open.value.timed, l.open.value.rounds, Timeout)]) else l
  {
    acts := [Consume, Consume, Consume];
    var s1 := ConsumerStep(s);
    var s2 := ConsumerStep(s1);
    var s3 := ConsumerStep(s2);
    OneStep(s, s1, acts, l);
    OneStep(s1, s2, acts[1..], l);
    OneStep(s2, s3, acts[2..], l);
  }

  /** The consumer looks at the size: with events in the queue it goes for the lock, else for the semaphore. */
  lemma LooksOnce<T>(s: State<T>, timed: bool, rounds: nat, ended: seq<Ended<T>>)
    requires s.consumer == ReadSize(timed) && s.cnt == |s.queue|
    ensures var t := s.(consumer := if s.queue == [] then SemWait(timed) else WantLock(timed));
            && Exec(s, [Consume]) == Some(t)
            && Calls(s, [Consume], Ledger(Some(Open(timed, rounds)), ended))
               == Ledger(Some(Open(timed, rounds + 1)), ended)
  {
    OneStep(s, ConsumerStep(s), [Consume], Ledger(Some(Open(timed, rounds)), ended));
  }

  /** `wait` or `timedwait` on a queue with events: the oldest is given back, the semaphore is not touched. */
  lemma CallWithEvents<T>(s: State<T>, timed: bool) returns (acts: seq<Act<T>>)
    requires Inv(s) && s.lock.Free? && s.consumer.Outside? && s.queue != []
    ensures Exec(s, acts).Some? && forall a :: a in acts ==> a == Call(timed) || a == Consume
    ensures var t := Exec(s, acts).value;
            Elsewhere(s, t) && t.consumer.Outside? && t.queue == s.queue[1..] && t.sem == s.sem
    ensures Calls(s, acts, Ledger(None, [])) == Ledger(None, [Ended(timed, 1, Item(s.queue[0]))])
  {
    var none := Ledger(None, []);
    var s1 := Apply(s, Call(timed));
    OneStep(s, s1, [Call(timed)], none);
    LooksOnce(s1, timed, 0, []);
    var s2 := s1.(consumer := WantLock(timed));
    ExecConcat(s, [Call(timed)], [Consume], none);
    var rest := TakesOne(s2, timed, Ledger(Some(Open(timed, 1)), []));
    acts := [Call(timed)] + [Consume] + rest;
    ExecConcat(s, [Call(timed)] + [Consume], rest, none);
  }

  /** Up to the semaphore, on an empty queue. */
  lemma CallToSemaphore<T>(s: State<T>, timed: bool)
    requires s.consumer.Outside? && s.cnt == 0 && s.queue == []
    ensures Exec(s, [Call(timed), Consume]) == Some(s.(consumer := SemWait(timed)))
    ensures Calls(s, [Call(timed), Consume], Ledger(None, [])) == Ledger(Some(Open(timed, 1)), [])
  {
    var none := Ledger(None, []);
    var s1 := Apply(s, Call(timed));
    OneStep(s, s1, [Call(timed)], none);
    LooksOnce(s1, timed, 0, []);
    ExecConcat(s, [Call(timed)], [Consume], none);
    var acts: seq<Act<T>> := [Call(timed), Consume];
    assert [Call(timed)] + [Consume] == acts;
  }

  /** A `timedwait` that nobody interrupts does what the method does alone: the oldest event; or on an empty queue a
      timeout, with one token less if there was one. */
  lemma TimedWaitAlone<T>(s: State<T>) returns (acts: seq<Act<T>>)
    requires Inv(s) && s.lock.Free? && s.consumer.Outside?
    ensures Exec(s, acts).Some? && forall a :: a in acts ==> a == Call(true) || a == Consume || a == GiveUp
    ensures GiveUp in acts ==> s.queue == [] && s.sem == 0
    ensures var t, l := Exec(s, acts).value, Calls(s, acts, Ledger(None, []));
            && Elsewhere(s, t) && t.consumer.Outside?
            && if s.queue == [] then
                 l == Ledger(None, [Ended(true, 1, Timeout)]) && t.queue == []
                 && t.sem == if s.sem == 0 then 0 else s.sem - 1
               else
                 l == Ledger(None, [Ended(true, 1, Item(s.queue[0]))]) && t.queue == s.queue[1..] && t.sem == s.sem
  {
    if s.queue != [] {
      acts := CallWithEvents(s, true);
    } else {
      var none, open := Ledger(None, []), Ledger(Some(Open(true, 1)), []);
      var first, a := [Call(true), Consume], if s.sem == 0 then GiveUp else Consume;
      CallToSemaphore(s, true);
      var s2 := s.(consumer := SemWait(true));
      var s3 := Apply(s2, a);
      OneStep(s2, s3, [a], open);
      ExecConcat(s, first, [a], none);
      var rest := FindsNone(s3, true, open);
      acts := first + [a] + rest;
      ExecConcat(s, first + [a], rest, none);
    }
  }

  /** A `wait` that nobody interrupts does what the method does alone: the oldest event, without touching the
      semaphore; or on an empty queue it uses up the tokens and sleeps. */
  lemma WaitAlone<T>(s: State<T>) returns (acts: seq<Act<T>>)
    requires Inv(s) && s.lock.Free? && s.consumer.Outside?
    ensures Exec(s, acts).Some? && forall a :: a in acts ==> a == Call(false) || a == Consume
    ensures var t, l := Exec(s, acts).value, Calls(s, acts, Ledger(None, []));
            && Elsewhere(s, t)
            && if s.queue == [] then
                 && l.open.Some? && l.ended == [] && t.queue == [] && t.sem == 0
                 && t.consumer == SemWait(false) && !Enabled(t, Consume)
               else
                 && l == Ledger(None, [Ended(false, 1, Item(s.queue[0]))])
                 && t.queue == s.queue[1..] && t.sem == s.sem && t.consumer.Outside?
  {
    if s.queue != [] {
      acts := CallWithEvents(s, false);
    } else {
      acts := [Call(false), Consume];
      CallToSemaphore(s, false);
      if s.sem > 0 {
        var none, open := Ledger(None, []), Ledger(Some(Open(false, 1)), []);
        var s2 := s.(consumer := SemWait(false));
        var again := LooksAgain(s2, open);
        ExecConcat(s, acts, again, none);
        acts := acts + again;
      }
    }
  }

  /** The last token is taken, the queue found empty, and the semaphore once more. */
  lemma LooksAgain<T>(s: State<T>, l: Ledger<T>) returns (acts: seq<Act<T>>)
    requires s.lock.Free? && s.cnt == 0 && s.queue == [] && s.consumer == SemWait(false) && s.sem == 1
    requires l.open.Some? && !l.open.value.timed
    ensures (forall a :: a in acts ==> a == Consume) && Exec(s, acts) == Some(s.(sem := 0))
    ensures Calls(s, acts, l) == l.(open := Some(Open(false, l.open.value.rounds + 1)))
  {
    var s1 := Apply(s, Consume);
    OneStep(s, s1, [Consume], l);
    var rest := FindsNone(s1, false, l);
    ExecConcat(s, [Consume], rest, l);
    var s4 := Exec(s1, rest).value;
    LooksOnce(s4, false, l.open.value.rounds, l.ended);
    ExecConcat(s, [Consume] + rest, [Consume], l);
    acts := [Consume] + rest + [Consume];
  }
}
