/**
 A channel source: one stream of events broadcast to a growing list of bounded
 destination channels. The loop sends to one destination after the other while it
 holds the lock, so every single send, close and receive is an action of its own.
 */
module ChannelSource {
  import opened Common

  datatype Event = Event(id: nat, body: string)

  type Predicate = Event -> bool

  /** A destination channel with the goroutine that reads it. */
  datatype Dest = Dest(
    buffer: seq<Event>,
    capacity: nat,
    closed: bool,
    predicates: seq<Predicate>,
    received: seq<Event>,         // read so far
    handled: seq<Event>,          // passed on to the handler
    joined: nat)                  // history: how many events the loop had taken before it registered

  predicate Accepts(ps: seq<Predicate>, e: Event) {
    forall i :: 0 <= i < |ps| ==> ps[i](e)
  }

  function Accepted(ps: seq<Predicate>): Event -> bool {
    (e: Event) => Accepts(ps, e)
  }

  /** The consumer's loop over the predicates. */
  method ShouldHandle(ps: seq<Predicate>, e: Event) returns (should: bool)
    ensures should <==> Accepts(ps, e)
  {
    should := true;
    for i := 0 to |ps|
      invariant should <==> Accepts(ps[..i], e)
    {
      if !ps[i](e) {
        assert !Accepts(ps, e);
        should := false;
        return;
      }
    }
    assert ps[..|ps|] == ps;
  }

  const DEFAULT_BUFFER_SIZE: nat := 1024

  function NewDest(size: nat, ps: seq<Predicate>, joined: nat): Dest {
    Dest([], if size == 0 then DEFAULT_BUFFER_SIZE else size, false, ps, [], [], joined)
  }

  datatype Loop =
    | NotStarted
    | Idle
    | Sending(next: nat)      // holds the lock; the event is the last one taken
    | Closing(next: nat)      // holds the lock
    | Stopped

  datatype State = State(
    dest: seq<Dest>,
    loop: Loop,
    events: seq<Event>,       // what the loop took from the source, in order
    panicked: bool)           // a send on a closed channel, or a second close

  datatype Action =
    | Register(size: nat, predicates: seq<Predicate>)
    | LaunchLoop
    | Take(e: Event)
    | Send
    | EndSend
    | BeginStop
    | Close
    | EndStop
    | Receive(j: nat)

  predicate LockFree(l: Loop) {
    !l.Sending? && !l.Closing?
  }

  ghost predicate Enabled(s: State, a: Action) {
    match a
    case Register(_, _) => LockFree(s.loop)
    case LaunchLoop => s.loop.NotStarted? && s.dest != []
    case Take(_) => s.loop.Idle?
    case Send => s.loop.Sending? && s.loop.next < |s.dest| && s.events != []
                 && (s.dest[s.loop.next].closed || |s.dest[s.loop.next].buffer| < s.dest[s.loop.next].capacity)
    case EndSend => s.loop == Sending(|s.dest|)
    case BeginStop => s.loop.Idle?
    case Close => s.loop.Closing? && s.loop.next < |s.dest|
    case EndStop => s.loop == Closing(|s.dest|)
    case Receive(j) => j < |s.dest| && s.dest[j].buffer != []
  }

  function Deliver(d: Dest, e: Event): Dest {
    d.(buffer := d.buffer + [e])
  }

  function Consume(d: Dest): Dest
    requires d.buffer != []
  {
    var e := d.buffer[0];
    d.(buffer := d.buffer[1..], received := d.received + [e],
       handled := if Accepted(d.predicates)(e) then d.handled + [e] else d.handled)
  }

  ghost function After(s: State, a: Action): State
    requires Enabled(s, a)
  {
    match a
    case Register(size, ps) => s.(dest := s.dest + [NewDest(size, ps, |s.events|)])
    case LaunchLoop => s.(loop := Idle)
    case Take(e) => s.(loop := Sending(0), events := s.events + [e])
    case Send =>
      var i := s.loop.next;
      if s.dest[i].closed then s.(panicked := true)
      else s.(loop := Sending(i + 1), dest := s.dest[i := Deliver(s.dest[i], s.events[|s.events| - 1])])
    case EndSend => s.(loop := Idle)
    case BeginStop => s.(loop := Closing(0))
    case Close =>
      var i := s.loop.next;
      if s.dest[i].closed then s.(panicked := true)
      else s.(loop := Closing(i + 1), dest := s.dest[i := s.dest[i].(closed := true)])
    case EndStop => s.(loop := Stopped)
    case Receive(j) => s.(dest := s.dest[j := Consume(s.dest[j])])
  }

  ghost function Exec(s: State, actions: seq<Action>): Option<State> {
    if actions == [] then Some(s)
    else
      match Exec(s, actions[..|actions| - 1])
      case None => None
      case Some(t) =>
        var a := actions[|actions| - 1];
        if Enabled(t, a) then Some(After(t, a)) else None
  }

  const INITIAL := State([], NotStarted, [], false)

  // ----- What every action keeps -----

  /** How many of the events taken have been offered to destination j: all, or all but the one in progress. */
  function Offered(s: State, j: nat): int {
    if s.loop.Sending? && s.loop.next <= j then |s.events| - 1 else |s.events|
  }

  /** Only the loop closes, one after the other. */
  predicate ClosedInTurn(l: Loop, j: nat, closed: bool) {
    match l
    case Closing(next) => closed <==> j < next
    case Stopped => true
    case _ => !closed
  }

  ghost predicate GoodDest(s: State, j: nat)
    requires j < |s.dest|
  {
    var d := s.dest[j];
    && d.joined <= Offered(s, j) <= |s.events|
    && d.received + d.buffer == s.events[d.joined..Offered(s, j)]
    && |d.buffer| <= d.capacity && 0 < d.capacity
    && d.handled == Filter(Accepted(d.predicates), d.received)
    && ClosedInTurn(s.loop, j, d.closed)
  }

  ghost predicate Invariant(s: State) {
    && !s.panicked
    && (s.loop.Sending? ==> s.events != [])
    && (!LockFree(s.loop) ==> s.loop.next <= |s.dest|)
    && (s.loop.NotStarted? ==> s.events == [])
    && (!s.loop.NotStarted? ==> s.dest != [])
    && forall j :: 0 <= j < |s.dest| ==> GoodDest(s, j)
  }

  lemma ConsumeKeeps(d: Dest)
    requires d.buffer != [] && d.handled == Filter(Accepted(d.predicates), d.received)
    ensures var c := Consume(d);
            && c.received + c.buffer == d.received + d.buffer
            && c.handled == Filter(Accepted(c.predicates), c.received)
            && c.joined == d.joined && c.capacity == d.capacity && c.closed == d.closed && |c.buffer| < |d.buffer|
  {
    assert (d.received + [d.buffer[0]])[..|d.received|] == d.received;
  }

  lemma DestTaken(s: State, e: Event, j: nat)
    requires Invariant(s) && Enabled(s, Take(e)) && j < |s.dest|
    ensures GoodDest(After(s, Take(e)), j)
  {
    assert GoodDest(s, j);
    var joined := s.dest[j].joined;
    assert (s.events + [e])[joined..|s.events|] == s.events[joined..|s.events|];
  }

  lemma DestSent(s: State, j: nat)
    requires Invariant(s) && Enabled(s, Send) && j < |s.dest|
    ensures GoodDest(After(s, Send), j)
  {
    assert GoodDest(s, j);
    if s.loop.next == j {
      var d, n := s.dest[j], |s.events|;
      assert s.events[d.joined..n] == s.events[d.joined..n - 1] + [s.events[n - 1]];
      assert d.received + (d.buffer + [s.events[n - 1]]) == d.received + d.buffer + [s.events[n - 1]];
    }
  }

  lemma DestReceived(s: State, i: nat, j: nat)
    requires Invariant(s) && Enabled(s, Receive(i)) && j < |s.dest|
    ensures GoodDest(After(s, Receive(i)), j)
  {
    assert GoodDest(s, j);
    if i == j {
      ConsumeKeeps(s.dest[j]);
      DestConsumed(s, After(s, Receive(i)), j);
    } else {
      assert After(s, Receive(i)).dest[j] == s.dest[j];
    }
  }

  lemma DestConsumed(s: State, t: State, j: nat)
    requires j < |s.dest| == |t.dest| && GoodDest(s, j) && t.loop == s.loop && t.events == s.events
    requires s.dest[j].buffer != [] && t.dest[j] == Consume(s.dest[j])
    requires t.dest[j].received + t.dest[j].buffer == s.dest[j].received + s.dest[j].buffer
    requires t.dest[j].handled == Filter(Accepted(t.dest[j].predicates), t.dest[j].received)
    ensures GoodDest(t, j)
  {
  }

  lemma DestRegistered(s: State, a: Action, j: nat)
    requires Invariant(s) && Enabled(s, a) && a.Register? && j <= |s.dest|
    ensures GoodDest(After(s, a), j)
  {
    if j < |s.dest| {
      assert GoodDest(s, j);
    }
  }

  /** Steps that deliver nothing: they only move the loop, or close. */
  lemma DestAside(s: State, a: Action, j: nat)
    requires Invariant(s) && Enabled(s, a) && j < |s.dest|
    requires a.LaunchLoop? || a.EndSend? || a.BeginStop? || a.Close? || a.EndStop?
    ensures GoodDest(After(s, a), j)
  {
    assert GoodDest(s, j);
  }

  lemma DestKept(s: State, a: Action, j: nat)
    requires Invariant(s) && Enabled(s, a) && j < |After(s, a).dest|
    ensures GoodDest(After(s, a), j)
  {
    if a.Take? {
      DestTaken(s, a.e, j);
    } else if a.Send? {
      DestSent(s, j);
    } else if a.Receive? {
      DestReceived(s, a.j, j);
    } else if a.Register? {
      DestRegistered(s, a, j);
    } else {
      DestAside(s, a, j);
    }
  }

  lemma InvariantKept(s: State, a: Action)
    requires Invariant(s) && Enabled(s, a)
    ensures Invariant(After(s, a))
  {
    forall j | 0 <= j < |After(s, a).dest| ensures GoodDest(After(s, a), j) { DestKept(s, a, j); }
    if a.Send? || a.Close? {
      assert GoodDest(s, s.loop.next);
    }
  }

  lemma InvariantOfRun(actions: seq<Action>)
    requires Exec(INITIAL, actions).Some?
    ensures Invariant(Exec(INITIAL, actions).value)
  {
    InvariantOfRunFrom(INITIAL, actions);
  }

  lemma {:induction false} InvariantOfRunFrom(s: State, actions: seq<Action>)
    requires Invariant(s) && Exec(s, actions).Some?
    ensures Invariant(Exec(s, actions).value)
  {
    if actions != [] {
      InvariantOfRunFrom(s, actions[..|actions| - 1]);
      InvariantKept(Exec(s, actions[..|actions| - 1]).value, actions[|actions| - 1]);
    }
  }

  /**
   What destination j has read and still has buffered is, in order and once each, the run of
   events taken since it registered; only an event being sent right now may be missing. What the
   handler saw is what the predicates accept of it.
   */
  lemma ReceivesItsRun(actions: seq<Action>, s: State, j: nat)
    requires Exec(INITIAL, actions) == Some(s) && j < |s.dest|
    ensures var d := s.dest[j];
            && d.joined <= Offered(s, j) <= |s.events| <= Offered(s, j) + 1
            && (LockFree(s.loop) ==> Offered(s, j) == |s.events|)
            && d.received + d.buffer == s.events[d.joined..Offered(s, j)]
            && |d.buffer| <= d.capacity
            && d.handled == Filter(Accepted(d.predicates), d.received)
  {
    InvariantOfRun(actions);
    assert GoodDest(s, j);
  }

  /** The handler saw an event that was read exactly if every predicate accepts it. */
  lemma HandledIff(actions: seq<Action>, s: State, j: nat, e: Event)
    requires Exec(INITIAL, actions) == Some(s) && j < |s.dest| && e in s.dest[j].received
    ensures e in s.dest[j].handled <==> forall p :: p in s.dest[j].predicates ==> p(e)
  {
    ReceivesItsRun(actions, s, j);
    var ps := s.dest[j].predicates;
    FilterMember(Accepted(ps), s.dest[j].received, e);
    assert Accepts(ps, e) <==> forall p :: p in ps ==> p(e) by {
      assert forall i :: 0 <= i < |ps| ==> ps[i] in ps;
    }
  }

  /**
   No run sends on a closed destination or closes one twice; before the stop none is closed. The loop only runs,
   and takes events, once somebody has registered.
   */
  lemma NeverPanics(actions: seq<Action>, s: State)
    requires Exec(INITIAL, actions) == Some(s)
    ensures !s.panicked
    ensures s.loop.Sending? ==> forall j :: 0 <= j < |s.dest| ==> !s.dest[j].closed
    ensures s.events != [] || !s.loop.NotStarted? ==> s.dest != []
  {
    InvariantOfRun(actions);
    forall j | 0 <= j < |s.dest| && s.loop.Sending? ensures !s.dest[j].closed { assert GoodDest(s, j); }
  }

  /** Where a destination joined never changes, so its run keeps growing at the same place. */
  lemma JoinedStays(s: State, a: Action, j: nat)
    requires Enabled(s, a) && j < |s.dest|
    ensures j < |After(s, a).dest| && After(s, a).dest[j].joined == s.dest[j].joined
    ensures s.events <= After(s, a).events && s.dest[j].received <= After(s, a).dest[j].received
  {
  }

  /** Registration takes effect at once: the run starts with the next event taken, into a buffer of the size asked for. */
  lemma JoinsAtTheEnd(s: State, size: nat, ps: seq<Predicate>)
    requires Enabled(s, Register(size, ps))
    ensures var t := After(s, Register(size, ps));
            && t.dest[..|s.dest|] == s.dest
            && t.dest[|s.dest|].joined == |s.events|
            && t.dest[|s.dest|].capacity == (if size == 0 then 1024 else size)
            && t.dest[|s.dest|].buffer == [] && t.dest[|s.dest|].received == [] && t.dest[|s.dest|].handled == []
            && !t.dest[|s.dest|].closed && t.dest[|s.dest|].predicates == ps
  {
  }

  // ----- The source as an object -----

  datatype StartError = NoSource | NoStop

  /** Injecting a stop channel counts only as long as there is none; None is the nil channel. */
  function Inject(stop: Option<nat>, c: Option<nat>): Option<nat> {
    if stop.None? then c else stop
  }

  function InjectAll(cs: seq<Option<nat>>): Option<nat> {
    if cs == [] then None else Inject(InjectAll(cs[..|cs| - 1]), cs[|cs| - 1])
  }

  /** After any injections the stop channel is the first one that was not nil, or there is none. */
  lemma {:induction false} FirstStopIsKept(cs: seq<Option<nat>>)
    ensures InjectAll(cs).None? ==> forall i :: 0 <= i < |cs| ==> cs[i].None?
    ensures InjectAll(cs).Some? ==>
              exists i :: 0 <= i < |cs| && InjectAll(cs) == cs[i] && forall k :: 0 <= k < i ==> cs[k].None?
  {
    if cs != [] {
      var init := cs[..|cs| - 1];
      FirstStopIsKept(init);
      if InjectAll(init).Some? {
        var i :| 0 <= i < |init| && InjectAll(init) == init[i] && forall k :: 0 <= k < i ==> init[k].None?;
        assert InjectAll(cs) == cs[i] && forall k :: 0 <= k < i ==> cs[k] == init[k];
      } else if InjectAll(cs).Some? {
        assert InjectAll(cs) == cs[|cs| - 1] && forall k :: 0 <= k < |cs| - 1 ==> cs[k] == init[k];
      }
    }
  }

  /** The loop sends the event in progress on, until all have it, a full buffer blocks it, or it panics. */
  ghost function Drive(s: State): State
    requires s.loop.Sending? && s.loop.next <= |s.dest| && s.events != []
    decreases |s.dest| - s.loop.next
  {
    if s.loop.next == |s.dest| then After(s, EndSend)
    else if !Enabled(s, Send) then s
    else if s.dest[s.loop.next].closed then After(s, Send)
    else Drive(After(s, Send))
  }

  /** The loop closes one destination after the other, until all are closed or it panics. */
  ghost function Shut(s: State): State
    requires s.loop.Closing? && s.loop.next <= |s.dest|
    decreases |s.dest| - s.loop.next
  {
    if s.loop.next == |s.dest| then After(s, EndStop)
    else if s.dest[s.loop.next].closed then After(s, Close)
    else Shut(After(s, Close))
  }

  class Channel {
    const hasSource: bool
    var stop: Option<nat>
    var destBufferSize: nat
    var dest: seq<Dest>
    var loop: Loop
    var events: seq<Event>   // history: what the loop took
    var panicked: bool

    ghost function View(): State
      reads this
    {
      State(dest, loop, events, panicked)
    }

    constructor (source: bool, size: nat)
      ensures hasSource == source && stop.None? && destBufferSize == size && View() == INITIAL
    {
      hasSource, stop, destBufferSize := source, None, size;
      dest, loop, events, panicked := [], NotStarted, [], false;
    }

    method InjectStopChannel(c: Option<nat>)
      modifies this`stop
      ensures stop == Inject(old(stop), c)
    {
      if stop.None? {
        stop := c;
      }
    }

    /**
     A registration as the machine makes it, once the lock is free. The first one also launches the loop;
     on a stopped source it does not come back.
     */
    method Start(ps: seq<Predicate>) returns (error: Option<StartError>)
      requires LockFree(loop)
      modifies this`dest, this`destBufferSize, this`loop
      ensures error == if !hasSource then Some(NoSource) else if stop.None? then Some(NoStop) else None
      ensures error.Some? ==> View() == old(View()) && destBufferSize == old(destBufferSize)
      ensures error.None? ==>
                var registered := After(old(View()), Register(old(destBufferSize), ps));
                && View() == (if old(loop).NotStarted? then After(registered, LaunchLoop) else registered)
                && destBufferSize == if old(destBufferSize) > 0 then old(destBufferSize) else DEFAULT_BUFFER_SIZE
      ensures error.None? ==> dest[|dest| - 1].joined == |events| && dest[|dest| - 1].capacity == destBufferSize > 0
    {
      if !hasSource {
        return Some(NoSource);
      }
      if stop.None? {
        return Some(NoStop);
      }
      if destBufferSize == 0 {
        destBufferSize := DEFAULT_BUFFER_SIZE;
      }
      dest := dest + [NewDest(destBufferSize, ps, |events|)];
      if loop.NotStarted? {
        loop := Idle;
      }
      return None;
    }

    /** distribute: takes the event and the lock, and sends. */
    method Distribute(e: Event)
      requires loop.Idle?
      modifies this`dest, this`loop, this`events, this`panicked
      ensures View() == Drive(After(old(View()), Take(e)))
    {
      events := events + [e];
      loop := Sending(0);
      Resume();
    }

    /** The loop of distribute from where it stands: at its start, or where a full buffer blocked it. */
    method Resume()
      requires loop.Sending? && loop.next <= |dest| && events != []
      modifies this`dest, this`loop, this`panicked
      ensures View() == Drive(old(View()))
    {
      ghost var was := View();
      var e := events[|events| - 1];
      var i: nat := loop.next;
      while i < |dest|
        invariant loop == Sending(i) && i <= |dest| && events == was.events && View().panicked == was.panicked
        invariant Drive(View()) == Drive(was)
      {
        if dest[i].closed {
          panicked := true;
          return;
        }
        if |dest[i].buffer| >= dest[i].capacity {
          return;
        }
        dest := dest[i := Deliver(dest[i], e)];
        i := i + 1;
        loop := Sending(i);
      }
      loop := Idle;
    }

    /** doStop: closes every destination there is and ends the loop. */
    method DoStop()
      requires loop.Idle?
      modifies this`dest, this`loop, this`panicked
      ensures View() == Shut(After(old(View()), BeginStop))
    {
      loop := Closing(0);
      ghost var was := View();
      var i: nat := 0;
      while i < |dest|
        invariant loop == Closing(i) && i <= |dest| && events == was.events && View().panicked == was.panicked
        invariant Shut(View()) == Shut(was)
      {
        if dest[i].closed {
          panicked := true;
          return;
        }
        dest := dest[i := dest[i].(closed := true)];
        i := i + 1;
        loop := Closing(i);
      }
      loop := Stopped;
    }

    /** One turn of the goroutine that reads destination j. */
    method Receive(j: nat)
      requires j < |dest| && dest[j].buffer != []
      modifies this`dest
      ensures View() == After(old(View()), Action.Receive(j))
    {
      var d := dest[j];
      var e := d.buffer[0];
      var should := ShouldHandle(d.predicates, e);
      var handled := d.handled;
      if should {
        handled := handled + [e];
      }
      dest := dest[j := d.(buffer := d.buffer[1..], received := d.received + [e], handled := handled)];
    }
  }

  // ----- What the methods do are runs of the machine -----

  ghost predicate Reaches(s: State, t: State) {
    exists actions :: Exec(s, actions) == Some(t)
  }

  lemma Step(o: State, s: State, a: Action) returns (t: State)
    requires Reaches(o, s) && Enabled(s, a)
    ensures t == After(s, a) && Reaches(o, t)
  {
    t := After(s, a);
    var actions :| Exec(o, actions) == Some(s);
    assert (actions + [a])[..|actions|] == actions;
    assert Exec(o, actions + [a]) == Some(t);
  }

  lemma {:induction false} DriveIsARun(o: State, s: State)
    requires Reaches(o, s) && s.loop.Sending? && s.loop.next <= |s.dest| && s.events != []
    ensures Reaches(o, Drive(s))
    decreases |s.dest| - s.loop.next
  {
    if s.loop.next == |s.dest| {
      var t := Step(o, s, EndSend);
    } else if Enabled(s, Send) {
      var t := Step(o, s, Send);
      if !s.dest[s.loop.next].closed {
        DriveIsARun(o, t);
      }
    }
  }

  lemma {:induction false} ShutIsARun(o: State, s: State)
    requires Reaches(o, s) && s.loop.Closing? && s.loop.next <= |s.dest|
    ensures Reaches(o, Shut(s))
    decreases |s.dest| - s.loop.next
  {
    if s.loop.next == |s.dest| {
      var t := Step(o, s, EndStop);
    } else {
      var t := Step(o, s, Close);
      if !s.dest[s.loop.next].closed {
        ShutIsARun(o, t);
      }
    }
  }

  lemma InvariantFurther(s: State, t: State)
    requires Invariant(s) && Reaches(s, t)
    ensures Invariant(t)
  {
    var actions :| Exec(s, actions) == Some(t);
    InvariantOfRunFrom(s, actions);
  }

  /**
   Distributing an event is a run of the machine that keeps the invariant. It ends with every destination
   served, or with the loop at a destination that is open and full.
   */
  lemma DistributeIsARun(s: State, e: Event)
    requires Invariant(s) && Enabled(s, Take(e))
    ensures var t := Drive(After(s, Take(e)));
            && Reaches(s, t) && Invariant(t) && t.events == s.events + [e]
            && (t.loop.Idle? || (t.loop.Sending? && t.loop.next < |t.dest| && !t.dest[t.loop.next].closed
                                 && |t.dest[t.loop.next].buffer| == t.dest[t.loop.next].capacity))
  {
    assert Exec(s, []) == Some(s);
    var u := Step(s, s, Take(e));
    InvariantFurther(s, u);
    DriveIsARun(s, u);
    InvariantFurther(s, Drive(u));
    DriveEnds(u);
  }

  lemma {:induction false} DriveEnds(s: State)
    requires Invariant(s) && s.loop.Sending? && s.loop.next <= |s.dest|
    ensures var t := Drive(s);
            && t.events == s.events
            && (t.loop.Idle? || (t.loop.Sending? && t.loop.next < |t.dest| && !t.dest[t.loop.next].closed
                                 && |t.dest[t.loop.next].buffer| == t.dest[t.loop.next].capacity))
    decreases |s.dest| - s.loop.next
  {
    if s.loop.next < |s.dest| {
      assert GoodDest(s, s.loop.next);
      if Enabled(s, Send) {
        InvariantKept(s, Send);
        DriveEnds(After(s, Send));
      }
    }
  }

  /** Stopping is a run of the machine that keeps the invariant; it closes every destination and changes nothing else. */
  lemma StopIsARun(s: State)
    requires Invariant(s) && Enabled(s, BeginStop)
    ensures var t := Shut(After(s, BeginStop));
            && Reaches(s, t) && Invariant(t) && t.loop.Stopped? && t.events == s.events && |t.dest| == |s.dest|
            && forall j :: 0 <= j < |s.dest| ==> t.dest[j] == s.dest[j].(closed := true)
  {
    assert Exec(s, []) == Some(s);
    var u := Step(s, s, BeginStop);
    InvariantFurther(s, u);
    ShutIsARun(s, u);
    InvariantFurther(s, Shut(u));
    ShutCloses(u);
  }

  lemma {:induction false} ShutCloses(s: State)
    requires Invariant(s) && s.loop.Closing? && s.loop.next <= |s.dest|
    ensures var t := Shut(s);
            && t.loop.Stopped? && t.events == s.events && |t.dest| == |s.dest|
            && forall j :: 0 <= j < |s.dest| ==> t.dest[j] == s.dest[j].(closed := true)
    decreases |s.dest| - s.loop.next
  {
    forall j | 0 <= j < |s.dest| ensures s.dest[j].closed <==> j < s.loop.next { assert GoodDest(s, j); }
    if s.loop.next < |s.dest| {
      InvariantKept(s, Close);
      ShutCloses(After(s, Close));
    }
  }

  // ----- Every event can arrive -----

  /** Destination j is read until its buffer is empty. */
  lemma {:induction false} OneIsRead(o: State, s: State, j: nat) returns (t: State)
    requires Reaches(o, s) && j < |s.dest|
    ensures Reaches(o, t) && t.loop == s.loop && t.events == s.events && |t.dest| == |s.dest|
    ensures t.dest[j].buffer == [] && forall i :: 0 <= i < |s.dest| && i != j ==> t.dest[i] == s.dest[i]
    decreases |s.dest[j].buffer|
  {
    if s.dest[j].buffer == [] {
      t := s;
    } else {
      var u := Step(o, s, Receive(j));
      t := OneIsRead(o, u, j);
    }
  }

  /** The first n destinations are read empty. */
  lemma {:induction false} SomeAreRead(o: State, s: State, n: nat) returns (t: State)
    requires Reaches(o, s) && n <= |s.dest|
    ensures Reaches(o, t) && t.loop == s.loop && t.events == s.events && |t.dest| == |s.dest|
    ensures forall i :: 0 <= i < n ==> t.dest[i].buffer == []
  {
    if n == 0 {
      t := s;
    } else {
      var u := SomeAreRead(o, s, n - 1);
      t := OneIsRead(o, u, n - 1);
    }
  }

  /** The loop goes on until it gives the lock back: a full buffer is read, whatever comes next is sent or closed. */
  lemma {:induction false} LoopGoesOn(o: State, s: State) returns (t: State)
    requires Invariant(o) && Reaches(o, s) && (!LockFree(s.loop) ==> s.loop.next <= |s.dest|)
    ensures Reaches(o, t) && LockFree(t.loop) && t.events == s.events && |t.dest| == |s.dest|
    decreases if LockFree(s.loop) then 0 else |s.dest| - s.loop.next
  {
    if LockFree(s.loop) {
      t := s;
    } else if s.loop.next == |s.dest| {
      t := Step(o, s, if s.loop.Sending? then EndSend else EndStop);
    } else {
      var u := OneIsRead(o, s, s.loop.next);
      InvariantFurther(o, u);
      assert GoodDest(u, u.loop.next);
      var v := Step(o, u, if u.loop.Sending? then Send else Close);
      t := LoopGoesOn(o, v);
    }
  }

  /** From every state of every run, all that was taken can reach all destinations that were there, and be handled. */
  lemma EveryEventCanArrive(actions: seq<Action>, s: State) returns (t: State)
    requires Exec(INITIAL, actions) == Some(s)
    ensures Reaches(s, t) && LockFree(t.loop) && t.events == s.events && |t.dest| == |s.dest|
    ensures forall j :: 0 <= j < |t.dest| ==>
              && t.dest[j].joined <= |s.events|
              && t.dest[j].received == s.events[t.dest[j].joined..]
              && t.dest[j].handled == Filter(Accepted(t.dest[j].predicates), t.dest[j].received)
  {
    InvariantOfRun(actions);
    assert Exec(s, []) == Some(s);
    var u := LoopGoesOn(s, s);
    t := SomeAreRead(s, u, |u.dest|);
    InvariantFurther(s, t);
    forall j | 0 <= j < |t.dest|
      ensures t.dest[j].joined <= |s.events| && t.dest[j].received == s.events[t.dest[j].joined..]
      ensures t.dest[j].handled == Filter(Accepted(t.dest[j].predicates), t.dest[j].received)
    {
      assert GoodDest(t, j) && t.dest[j].received + [] == t.dest[j].received;
    }
  }

  /** As long as the source is not stopping and somebody is registered, the loop can go on to take any next event. */
  lemma CanTakeMore(actions: seq<Action>, s: State, e: Event) returns (t: State)
    requires Exec(INITIAL, actions) == Some(s) && s.dest != [] && !s.loop.Closing? && !s.loop.Stopped?
    ensures Reaches(s, t) && t.events == s.events + [e]
  {
    InvariantOfRun(actions);
    assert Exec(s, []) == Some(s);
    t := s;
    if t.loop.NotStarted? {
      t := Step(s, t, LaunchLoop);
    }
    t := SendingEnds(s, t);
    t := Step(s, t, Take(e));
  }

  lemma {:induction false} SendingEnds(o: State, s: State) returns (t: State)
    requires Invariant(o) && Reaches(o, s) && (s.loop.Idle? || (s.loop.Sending? && s.loop.next <= |s.dest|))
    ensures Reaches(o, t) && t.loop.Idle? && t.events == s.events
    decreases if s.loop.Idle? then 0 else |s.dest| - s.loop.next
  {
    if s.loop.Idle? {
      t := s;
    } else if s.loop.next == |s.dest| {
      t := Step(o, s, EndSend);
    } else {
      var u := OneIsRead(o, s, s.loop.next);
      InvariantFurther(o, u);
      assert GoodDest(u, u.loop.next);
      var v := Step(o, u, Send);
      t := SendingEnds(o, v);
    }
  }
}
