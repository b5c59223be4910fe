/** EventQue as the threads see it: any number of producers and the one consumer thread,
    interleaved at every access to shared state. The consumer looks at the element count
    without the lock and may then sleep on a semaphore that is not a count of the queue:
    a producer posts it only when it reads its value as 0.
    To link and to unlink an element are single steps here, although each takes several assignments:
    they are done with the lock held, and `Mutex`, which every run keeps, says that then no other
    thread is past its lock. The only access to the list or its count without the lock is the consumer's first look
    at the count. */
module EventQueue {
  import opened SortedMap
  import opened LinkedQueue

  /** Where the consumer is in `wait` (timed == false) or `timedwait`. */
  datatype Consumer<T> =
    | Outside
    | ReadSize(timed: bool)        // about to read the size, unlocked
    | SemWait(timed: bool)         // saw 0, committed to the semaphore
    | WantLock(timed: bool)
    | Look(timed: bool)            // holds the lock
    | Unlinked(ev: T)              // took the head, count not yet decremented
    | Done(result: Outcome<T>)     // about to unlock

  datatype Outcome<T> = Item(ev: T) | Timeout | Again

  /** Where a producer is in `post`. */
  datatype Producer<T> =
    | Blocked(ev: T)               // wants the lock
    | Entered(ev: T)               // holds the lock, about to test the limit
    | Linked                       // appended, count not yet incremented
    | Counted                      // about to read the semaphore's value
    | HasRead(val: nat)            // about to post the semaphore if val is 0
    | Leaving(accepted: bool)      // about to unlock

  datatype Lock = Free | ByConsumer | ByProducer(p: nat)

  datatype State<T> = State(
    queue: seq<T>, cnt: int, maxSize: nat, sem: nat, lock: Lock,
    consumer: Consumer<T>, producers: map<nat, Producer<T>>,
    accepted: seq<T>,  // history: events that `post` appended, in that order
    returned: seq<T>)  // history: events that `wait` and `timedwait` returned

  datatype Act<T> =
    | Call(timed: bool)            // the consumer enters wait or timedwait
    | Consume                      // the consumer's next step
    | GiveUp                       // the semaphore wait ends without a token: timeout or signal
    | CallPost(p: nat, ev: T)      // a producer enters post
    | Produce(p: nat)              // that producer's next step

  function Init<T>(maxSize: nat): State<T> {
    State([], 0, maxSize, 0, Free, Outside, map[], [], [])
  }

  predicate Enabled<T>(s: State<T>, a: Act<T>) {
    match a
    case Call(_) => s.consumer.Outside?
    case Consume =>
      (match s.consumer
       case Outside => false
       case SemWait(_) => s.sem > 0
       case WantLock(_) => s.lock.Free?
       case _ => true)
    case GiveUp => s.consumer.SemWait?
    case CallPost(p, _) => p !in s.producers
    case Produce(p) => p in s.producers && (s.producers[p].Blocked? ==> s.lock.Free?)
  }

  function Apply<T>(s: State<T>, a: Act<T>): State<T>
    requires Enabled(s, a)
  {
    match a
    case Call(timed) => s.(consumer := ReadSize(timed))
    case Consume => ConsumerStep(s)
    case GiveUp => s.(consumer := WantLock(s.consumer.timed))
    case CallPost(p, ev) => s.(producers := s.producers[p := Blocked(ev)])
    case Produce(p) => ProducerStep(s, p)
  }

  function ConsumerStep<T>(s: State<T>): State<T>
    requires Enabled(s, Consume)
  {
    match s.consumer
    case ReadSize(timed) =>
      s.(consumer := if s.cnt == 0 then SemWait(timed) else WantLock(timed))
    case SemWait(timed) =>
      s.(sem := s.sem - 1, consumer := WantLock(timed))
    case WantLock(timed) =>
      s.(lock := ByConsumer, consumer := Look(timed))
    case Look(timed) =>
      if (timed && s.cnt == 0) || s.queue == [] then
        s.(consumer := Done(if timed then Timeout else Again))
      else
        s.(queue := s.queue[1..], consumer := Unlinked(s.queue[0]))
    case Unlinked(ev) =>
      s.(cnt := s.cnt - 1, consumer := Done(Item(ev)))
    case Done(result) =>
      var t := s.(lock := Free);
      (match result
       case Item(ev) => t.(returned := s.returned + [ev], consumer := Outside)
       case Timeout => t.(consumer := Outside)
       case Again => t.(consumer := ReadSize(false)))
    case Outside => s
  }

  function ProducerStep<T>(s: State<T>, p: nat): State<T>
    requires Enabled(s, Produce(p))
  {
    match s.producers[p]
    case Blocked(ev) =>
      s.(lock := ByProducer(p), producers := s.producers[p := Entered(ev)])
    case Entered(ev) =>
      if HasRoom(s.cnt, s.maxSize) then
        s.(queue := s.queue + [ev], accepted := s.accepted + [ev], producers := s.producers[p := Linked])
      else
        s.(producers := s.producers[p := Leaving(false)])
    case Linked =>
      s.(cnt := s.cnt + 1, producers := s.producers[p := Counted])
    case Counted =>
      s.(producers := s.producers[p := HasRead(s.sem)])
    case HasRead(val) =>
      s.(sem := if val <= 0 then s.sem + 1 else s.sem, producers := s.producers[p := Leaving(true)])
    case Leaving(_) =>
      s.(lock := Free, producers := s.producers - {p})
  }

  /** Runs a schedule; a schedule with a step that is not enabled is no run. */
  function Exec<T>(s: State<T>, acts: seq<Act<T>>): Option<State<T>>
    decreases |acts|
  {
    if acts == [] then Some(s)
    else if Enabled(s, acts[0]) then Exec(Apply(s, acts[0]), acts[1..])
    else None
  }

  // ---- the invariant ----

  /** The event the consumer holds between unlinking it and returning it. */
  function InHand<T>(s: State<T>): seq<T> {
    match s.consumer
    case Unlinked(ev) => [ev]
    case Done(Item(ev)) => [ev]
    case _ => []
  }

  predicate Inside<T>(c: Consumer<T>) { c.Look? || c.Unlinked? || c.Done? }

  predicate Holding<T>(s: State<T>, p: nat) {
    p in s.producers && !s.producers[p].Blocked?
  }

  ghost predicate Mutex<T>(s: State<T>) {
    && (s.lock.ByConsumer? <==> Inside(s.consumer))
    && (forall p :: Holding(s, p) ==> s.lock == ByProducer(p))
    && (s.lock.ByProducer? ==> Holding(s, s.lock.p))
  }

  /** The count and the list agree except between the two assignments that change them. */
  ghost predicate Counting<T>(s: State<T>) {
    && s.cnt == |s.queue| + (if s.consumer.Unlinked? then 1 else 0)
                - (if s.lock.ByProducer? && Holding(s, s.lock.p) && s.producers[s.lock.p].Linked? then 1 else 0)
    && (s.maxSize == 0 || |s.queue| <= s.maxSize)
  }

  /** A producer that has appended an event and is still going to post the semaphore. */
  predicate Pending<T>(s: State<T>, p: nat) {
    && p in s.producers
    && (s.producers[p].Linked? || s.producers[p].Counted? || s.producers[p] == HasRead(0))
  }

  /** The sleeping consumer of a non-empty queue has a token or one on its way. */
  ghost predicate WakeUp<T>(s: State<T>) {
    && s.sem <= 1
    && (s.lock.ByProducer? && Holding(s, s.lock.p) && s.producers[s.lock.p] == HasRead(0) ==> s.sem == 0)
    && (s.consumer.SemWait? && s.queue != [] ==>
          s.sem > 0 || (s.lock.ByProducer? && Pending(s, s.lock.p)))
  }

  ghost predicate Inv<T>(s: State<T>) {
    && Mutex(s)
    && Counting(s)
    && WakeUp(s)
    && s.accepted == s.returned + InHand(s) + s.queue
    && (s.consumer == Done(Timeout) ==> s.queue == [])
    && (forall p :: Holding(s, p) && s.producers[p] == Leaving(false) ==> s.maxSize != 0 && |s.queue| == s.maxSize)
  }

  lemma InitInv<T>(maxSize: nat)
    ensures Inv(Init<T>(maxSize))
  {
  }

  lemma ConsumerInv<T>(s: State<T>)
    requires Inv(s) && Enabled(s, Consume)
    ensures Inv(ConsumerStep(s))
  {
    var t := ConsumerStep(s);
    assert t.producers == s.producers;
    assert forall p :: Holding(t, p) <==> Holding(s, p);
    if s.consumer.Look? && s.queue != [] {
      assert s.queue == [s.queue[0]] + s.queue[1..];
    }
    if s.consumer.Done? && s.consumer.result.Item? {
      assert s.returned + [s.consumer.result.ev] + [] == s.returned + [s.consumer.result.ev];
    }
  }

  lemma ProducerInv<T>(s: State<T>, p: nat)
    requires Inv(s) && Enabled(s, Produce(p))
    ensures Inv(ProducerStep(s, p))
  {
    var t := ProducerStep(s, p);
    assert forall q :: q != p ==> (Holding(t, q) <==> Holding(s, q));
    assert s.producers[p].Blocked? || Holding(s, p);
    if s.producers[p].Entered? {
      assert s.returned + InHand(s) + (s.queue + [s.producers[p].ev])
          == s.returned + InHand(s) + s.queue + [s.producers[p].ev];
    }
  }

  lemma StepInv<T>(s: State<T>, a: Act<T>)
    requires Inv(s) && Enabled(s, a)
    ensures Inv(Apply(s, a))
  {
    match a
    case Call(_) =>
      assert forall p :: Holding(Apply(s, a), p) <==> Holding(s, p);
    case Consume => ConsumerInv(s);
    case GiveUp =>
      assert forall p :: Holding(Apply(s, a), p) <==> Holding(s, p);
    case CallPost(_, _) =>
      assert forall p :: Holding(Apply(s, a), p) <==> Holding(s, p);
    case Produce(p) => ProducerInv(s, p);
  }

  /** Every state of every run of every number of producers keeps the invariant. */
  lemma {:induction false} RunInv<T>(s: State<T>, acts: seq<Act<T>>)
    requires Inv(s) && Exec(s, acts).Some?
    ensures Inv(Exec(s, acts).value)
    decreases |acts|
  {
    if acts != [] {
      StepInv(s, acts[0]);
      RunInv(Apply(s, acts[0]), acts[1..]);
    }
  }

  // ---- what it means for the callers ----

  /** No lost wake-up: a consumer asleep on a non-empty queue always has a token, or a
      producer that has appended an event and will still post one. The semaphore stays binary. */
  lemma NoLostWakeUp<T>(maxSize: nat, acts: seq<Act<T>>)
    requires Exec(Init(maxSize), acts).Some?
    ensures var s := Exec(Init<T>(maxSize), acts).value;
            && s.sem <= 1
            && !(s.consumer.SemWait? && s.sem == 0 && s.queue != [] && forall p :: !Pending(s, p))
  {
    InitInv<T>(maxSize);
    RunInv(Init(maxSize), acts);
  }

  /** First in, first out, nothing lost and nothing twice: what the consumer got, what it is
      about to return and what is queued are together exactly the accepted events in order. */
  lemma FirstInFirstOut<T>(maxSize: nat, acts: seq<Act<T>>)
    requires Exec(Init(maxSize), acts).Some?
    ensures var s := Exec(Init<T>(maxSize), acts).value;
            s.accepted == s.returned + InHand(s) + s.queue
  {
    InitInv<T>(maxSize);
    RunInv(Init(maxSize), acts);
  }

  /** An event is refused only by a full queue, and a timeout is reported only while
      the queue is empty and locked. */
  lemma RefusalAndTimeout<T>(maxSize: nat, acts: seq<Act<T>>, p: nat)
    requires Exec(Init(maxSize), acts).Some?
    ensures var s := Exec(Init<T>(maxSize), acts).value;
            && (p in s.producers && s.producers[p] == Leaving(false) ==>
                  s.maxSize != 0 && |s.queue| == s.maxSize && s.lock == ByProducer(p))
            && (s.consumer == Done(Timeout) ==> s.queue == [] && s.lock == ByConsumer)
  {
    InitInv<T>(maxSize);
    RunInv(Init(maxSize), acts);
    var s := Exec(Init<T>(maxSize), acts).value;
    if p in s.producers && s.producers[p] == Leaving(false) {
      assert Holding(s, p);
    }
  }

  // ---- progress ----

  /** The thread in the critical section goes first, then the consumer. No event is posted anew. */
  function Next<T>(s: State<T>): Act<T> {
    if s.lock.ByProducer? then Produce(s.lock.p)
    else if s.consumer.Outside? then Call(false)
    else Consume
  }

  function Rank<T>(s: State<T>): nat {
    (if s.lock.ByProducer? && s.lock.p in s.producers then
       match s.producers[s.lock.p]
       case Blocked(_) => 6
       case Entered(_) => 5
       case Linked => 4
       case Counted => 3
       case HasRead(_) => 2
       case Leaving(_) => 1
     else 0)
    + (match s.consumer
       case Unlinked(_) => 7
       case Done(_) => 6
       case Outside => 5
       case ReadSize(_) => 4
       case SemWait(_) => 3
       case WantLock(_) => 2
       case Look(_) => 1)
  }

  function Taken<T>(s: State<T>): seq<T> { s.returned + InHand(s) }

  lemma NextStep<T>(s: State<T>)
    requires Inv(s) && s.queue != []
    ensures Enabled(s, Next(s))
    ensures var t := Apply(s, Next(s));
            || Taken(t) == Taken(s) + [s.queue[0]]
            || (Taken(t) == Taken(s) && t.queue != [] && t.queue[0] == s.queue[0] && Rank(t) < Rank(s))
  {
    if s.lock.ByProducer? {
      assert Holding(s, s.lock.p);
    } else if s.consumer.Done? && s.consumer.result.Item? {
      assert s.returned + [s.consumer.result.ev] + [] == s.returned + [s.consumer.result.ev];
    }
  }

  /** From every reachable state with a waiting event, at most twelve steps of the thread in
      the critical section and of the consumer, without a further `post`, deliver the oldest event. */
  lemma {:induction false} Delivery<T>(s: State<T>) returns (acts: seq<Act<T>>)
    requires Inv(s) && s.queue != []
    ensures |acts| <= Rank(s) <= 12 && (forall a :: a in acts ==> a.Consume? || a.Produce? || a == Call(false))
    ensures Exec(s, acts).Some? && Taken(Exec(s, acts).value) == Taken(s) + [s.queue[0]]
    decreases Rank(s)
  {
    NextStep(s);
    assert s.lock.ByProducer? ==> Holding(s, s.lock.p);
    var a := Next(s);
    var t := Apply(s, a);
    StepInv(s, a);
    if Taken(t) == Taken(s) + [s.queue[0]] {
      acts := [a];
      assert Exec(t, acts[1..]) == Some(t);
    } else {
      var rest := Delivery(t);
      acts := [a] + rest;
      assert acts[1..] == rest;
    }
  }

  // ---- one call at a time ----

  /** What a whole `post` makes of queue and semaphore. */
  function Posted<T>(queue: seq<T>, maxSize: nat, sem: nat, ev: T): (seq<T>, nat) {
    if HasRoom(|queue|, maxSize) then (queue + [ev], if sem == 0 then 1 else sem) else (queue, sem)
  }

  class Semaphore {
    var val: nat

    constructor ()
      ensures val == 0
    {
      val := 0;
    }

    /** Raises the value only from 0. */
    method Post()
      modifies this
      ensures val == if old(val) == 0 then 1 else old(val)
    {
      if val <= 0 {
        val := val + 1;
      }
    }

    /** Takes a token; without one the thread sleeps, and the result is false. */
    method Wait() returns (taken: bool)
      modifies this
      ensures taken == (old(val) > 0) && val == if old(val) == 0 then 0 else old(val) - 1
    {
      taken := val > 0;
      if taken {
        val := val - 1;
      }
    }

    /** Ends without a token on a timeout, of which the caller is not told. */
    method TimedWait()
      modifies this
      ensures val == if old(val) == 0 then 0 else old(val) - 1
    {
      if val > 0 {
        val := val - 1;
      }
    }
  }

  /** The object behind the state machine, called by one thread at a time. */
  class EventQue<T> {
    const que: Que<T>
    const sem: Semaphore

    ghost predicate Valid()
      reads this, que, que.spine
    {
      que.Valid()
    }

    constructor ()
      ensures Valid() && que.Contents() == [] && que.maxSize == 0 && sem.val == 0 && fresh(que) && fresh(sem)
    {
      que := new Que();
      sem := new Semaphore();
    }

    method Post(ev: Option<T>)
      requires Valid()
      modifies que, que.spine, sem
      ensures Valid() && que.maxSize == old(que.maxSize)
      ensures (que.Contents(), sem.val) == if ev == None then old((que.Contents(), sem.val))
                                           else Posted(old(que.Contents()), que.maxSize, old(sem.val), ev.value)
    {
      if ev != None {
        var n := que.Post(ev);
        if n != 0 {
          sem.Post();
        }
      }
    }

    /** The oldest event, or a timeout event when there is none. */
    method TimedWait() returns (r: Outcome<T>)
      requires Valid()
      modifies que, que.spine, sem
      ensures Valid() && que.maxSize == old(que.maxSize)
      ensures if old(que.Contents()) == []
              then && r == Timeout && que.Contents() == []
                   && sem.val == (if old(sem.val) == 0 then 0 else old(sem.val) - 1)
              else && r == Item(old(que.Contents())[0]) && que.Contents() == old(que.Contents())[1..]
                   && sem.val == old(sem.val)
    {
      var n := que.Size();
      if n == 0 {
        sem.TimedWait();
      }
      n := que.Size();
      if n == 0 {
        return Timeout;
      }
      var ev := que.Front();
      que.Pop();
      return Item(ev.value);
    }

    /** The oldest event. On an empty queue the thread uses up what tokens there are, looking again
        after each, and then sleeps until another thread posts: that is the result None. */
    method Wait() returns (r: Option<T>)
      requires Valid()
      modifies que, que.spine, sem
      ensures Valid() && que.maxSize == old(que.maxSize)
      ensures if old(que.Contents()) == []
              then r == None && que.Contents() == [] && sem.val == 0
              else && r == Some(old(que.Contents())[0]) && que.Contents() == old(que.Contents())[1..]
                   && sem.val == old(sem.val)
    {
      r := None;
      while r == None
        invariant Valid() && que.maxSize == old(que.maxSize)
        invariant r == None ==> que.spine == old(que.spine) && que.Contents() == old(que.Contents())
        invariant r == None && que.Contents() != [] ==> sem.val == old(sem.val)
        invariant r.Some? ==>
                    && old(que.Contents()) != [] && r.value == old(que.Contents())[0]
                    && que.Contents() == old(que.Contents())[1..] && sem.val == old(sem.val)
        decreases r == None, sem.val
      {
        var n := que.Size();
        if n == 0 {
          var taken := sem.Wait();
          if !taken {
            return None;
          }
        }
        r := que.Front();
        que.Pop();
      }
    }
  }

  ghost predicate AloneAfter<T>(s: State<T>, t: State<T>, ev: T) {
    && (t.queue, t.sem) == Posted(s.queue, s.maxSize, s.sem, ev)
    && t.lock.Free? && t.producers == s.producers && t.consumer == s.consumer && t.returned == s.returned
    && t.accepted == s.accepted + (if HasRoom(|s.queue|, s.maxSize) then [ev] else [])
  }

  lemma AppendAlone<T>(s: State<T>, p: nat, ev: T)
    requires p in s.producers && s.producers[p] == Entered(ev) && s.cnt == |s.queue| && HasRoom(s.cnt, s.maxSize)
    ensures var acts := [Produce(p), Produce(p), Produce(p), Produce(p), Produce(p)];
            && Exec(s, acts).Some?
            && var t := Exec(s, acts).value;
               && (t.queue, t.sem) == Posted(s.queue, s.maxSize, s.sem, ev)
               && t.lock.Free? && t.producers == s.producers - {p} && t.consumer == s.consumer
               && t.returned == s.returned && t.accepted == s.accepted + [ev]
  {
    var acts: seq<Act<T>> := [Produce(p), Produce(p), Produce(p), Produce(p), Produce(p)];
    var s4 := ProducerStep(s, p);
    var s5 := ProducerStep(s4, p);
    var s6 := ProducerStep(s5, p);
    var s7 := ProducerStep(s6, p);
    var s8 := ProducerStep(s7, p);
    ExecSteps(s, s4, acts);
    ExecSteps(s4, s5, acts[1..]);
    ExecSteps(s5, s6, acts[2..]);
    ExecSteps(s6, s7, acts[3..]);
    ExecSteps(s7, s8, acts[4..]);
  }

  /** A producer that runs from its call to its return while nobody else moves does what `Posted`
      says, and accepts the event exactly when there is room. */
  lemma PostAlone<T>(s: State<T>, p: nat, ev: T) returns (acts: seq<Act<T>>)
    requires Inv(s) && s.lock.Free? && p !in s.producers
    ensures Exec(s, acts).Some? && forall a :: a in acts ==> a == CallPost(p, ev) || a == Produce(p)
    ensures AloneAfter(s, Exec(s, acts).value, ev)
  {
    var s1 := Apply(s, CallPost(p, ev));
    var s2 := ProducerStep(s1, p);
    assert s.cnt == |s.queue|;
    if HasRoom(s.cnt, s.maxSize) {
      acts := [CallPost(p, ev), Produce(p), Produce(p), Produce(p), Produce(p), Produce(p), Produce(p)];
      ExecSteps(s, s1, acts);
      ExecSteps(s1, s2, acts[1..]);
      AppendAlone(s2, p, ev);
      assert acts[2..] == [Produce(p), Produce(p), Produce(p), Produce(p), Produce(p)];
      assert s2.producers - {p} == s.producers;
    } else {
      var s3 := ProducerStep(s2, p);
      var s4 := ProducerStep(s3, p);
      acts := [CallPost(p, ev), Produce(p), Produce(p), Produce(p)];
      ExecSteps(s, s1, acts);
      ExecSteps(s1, s2, acts[1..]);
      ExecSteps(s2, s3, acts[2..]);
      ExecSteps(s3, s4, acts[3..]);
      assert Exec(s, acts) == Some(s4);
      assert s4.producers == s.producers;
    }
  }

  lemma ExecSteps<T>(s: State<T>, t: State<T>, acts: seq<Act<T>>)
    requires acts != [] && Enabled(s, acts[0]) && Apply(s, acts[0]) == t
    ensures Exec(s, acts) == Exec(t, acts[1..])
  {
  }
}
