/**
 One simulated call: the thread that starts it, the audio pump thread, and any number of
 threads in `terminate`, the destructor's call among them.  One step is one access to an
 atomic flag or one action on the handler, the thread object or the outside.  The WebSocket
 may disconnect at any moment and the 60 s timeout may fire on any turn of the pump.

 The starting thread gives the call to others only after `start` has returned, and counts it
 in the same locked section; the pump knows it as soon as its thread exists.
 */
module SimulatedCall {
  /** How far `start` has come: connected, `running` set, pump thread created, "ringing" sent. */
  datatype Phase = New | StartFailed | Connected | Flagged | Spawned | Started

  datatype Pointer = Null | Live | Dangling

  datatype Winner = Nobody | Pump | Caller(index: nat)

  /** What a thread that won the race still has to do, in order. */
  datatype Cleanup = Delete | Nullify | Send | Decrement

  datatype PumpPc = NoThread | Test | Turn | Swap | Cleaning(todo: Cleanup) | Ended

  datatype CallerPc = Entering | Stopping | Joining | Clearing(todo: Cleanup) | Returned

  datatype Fate = Alive | Destroyed | Aborted

  /** The status a webhook reports. */
  datatype Notice = Fail | Ringing | Completed

  datatype State = State(
    phase: Phase,
    handler: Pointer,
    running: bool,
    terminated: bool,
    pump: PumpPc,
    joined: bool,
    callers: seq<CallerPc>,
    fate: Fate,
    // what has happened
    winner: Winner,
    deletions: nat,
    badTouch: bool,
    outbox: seq<Notice>,
    countedUp: nat,
    countedDown: nat)

  datatype Action =
    | StartStep(connects: bool)
    | CountUp
    | Disconnect
    | Terminate
    | PumpStep(timeout: bool)
    | CallerStep(index: nat)
    | Destroy

  function Init(): State {
    State(New, Null, false, false, NoThread, false, [], Alive, Nobody, 0, false, [], 0, 0)
  }

  function Touch(s: State): State {
    if s.handler.Dangling? then s.(badTouch := true) else s
  }

  function Next(todo: Cleanup): Cleanup
    requires !todo.Decrement?
  {
    match todo case Delete => Nullify case Nullify => Send case Send => Decrement
  }

  /** The effect of one clean-up action. */
  function Clean(s: State, todo: Cleanup): State {
    match todo
    case Delete =>
      if s.handler.Null? then s else Touch(s).(handler := Dangling, deletions := s.deletions + 1)
    case Nullify => s.(handler := Null)
    case Send => s.(outbox := s.outbox + [Completed])
    case Decrement => s.(countedDown := s.countedDown + 1)
  }

  function PumpNext(s: State, timeout: bool): State {
    match s.pump
    case NoThread => s
    case Test => s.(pump := if s.running then Turn else Swap)
    case Turn =>
      if timeout then s.(running := false, pump := Swap)
      else (if s.handler.Null? then s else Touch(s)).(pump := Test)
    case Swap =>
      if s.terminated then s.(pump := Ended)
      else s.(terminated := true, winner := Pump, pump := Cleaning(Delete))
    case Cleaning(todo) =>
      Clean(s, todo).(pump := if todo.Decrement? then Ended else Cleaning(Next(todo)))
    case Ended => s
  }

  function CallerNext(s: State, i: nat): State
    requires i < |s.callers|
  {
    match s.callers[i]
    case Entering =>
      if s.terminated then s.(callers := s.callers[i := Returned])
      else s.(terminated := true, winner := Caller(i), callers := s.callers[i := Stopping])
    case Stopping => s.(running := false, callers := s.callers[i := Joining])
    case Joining =>
      if s.pump.NoThread? then s.(callers := s.callers[i := Clearing(Delete)])
      else if s.pump.Ended? then s.(joined := true, callers := s.callers[i := Clearing(Delete)])
      else s
    case Clearing(todo) =>
      Clean(s, todo).(callers := s.callers[i := if todo.Decrement? then Returned else Clearing(Next(todo))])
    case Returned => s
  }

  /** The next part of `start`; a failed connection deletes the handler and ends it. */
  function StartNext(s: State, connects: bool): State {
    match s.phase
    case New =>
      if connects then s.(phase := Connected, handler := Live)
      else s.(phase := StartFailed, deletions := 1, outbox := s.outbox + [Fail])
    case Connected => s.(phase := Flagged, running := true)
    case Flagged => s.(phase := Spawned, pump := Test)
    case Spawned => s.(phase := Started, outbox := s.outbox + [Ringing])
    case _ => s
  }

  /** The connection is open, so its disconnect callback may run. */
  predicate Opened(s: State) {
    !s.phase.New? && !s.phase.StartFailed?
  }

  /** Threads other than the starting one and the pump may have the object. */
  predicate Shared(s: State) {
    s.phase.StartFailed? || (s.phase.Started? && s.countedUp == 1)
  }

  predicate AllReturned(s: State) {
    s.callers != [] && forall i :: 0 <= i < |s.callers| ==> s.callers[i].Returned?
  }

  /** One step; an action that is not enabled changes nothing. */
  function Step(s: State, a: Action): State {
    if !s.fate.Alive? then s else
      match a
      case StartStep(connects) => StartNext(s, connects)
      case CountUp => if s.phase.Started? && s.countedUp == 0 then s.(countedUp := 1) else s
      case Disconnect => if Opened(s) then s.(running := false) else s
      case Terminate => if Shared(s) then s.(callers := s.callers + [Entering]) else s
      case PumpStep(timeout) => PumpNext(s, timeout)
      case CallerStep(i) => if i < |s.callers| then CallerNext(s, i) else s
      case Destroy =>
        // The destructor's own `terminate` has returned and no other thread is in the object's methods.
        if AllReturned(s) then s.(fate := if s.pump.NoThread? || s.joined then Destroyed else Aborted)
        else s
  }

  function Run(s: State, actions: seq<Action>): State
    decreases |actions|
  {
    if actions == [] then s else Run(Step(s, actions[0]), actions[1..])
  }

  // ---- the invariant ----

  predicate Told(s: State) {
    Completed in s.outbox
  }

  /** How far the clean-up has come: nothing done, then each of its effects once. */
  predicate Progress(s: State, todo: Cleanup) {
    match todo
    case Delete =>
      && !Told(s) && s.countedDown == 0 && s.deletions == (if s.phase.StartFailed? then 1 else 0)
      && s.handler == (if Opened(s) then Live else Null)
    case Nullify =>
      !Told(s) && s.countedDown == 0 && s.deletions == 1 && !s.handler.Live?
    case Send =>
      !Told(s) && s.countedDown == 0 && s.deletions == 1 && s.handler.Null?
    case Decrement =>
      Told(s) && s.countedDown == 0 && s.deletions == 1 && s.handler.Null?
  }

  predicate Finished(s: State) {
    Told(s) && s.countedDown == 1 && s.deletions == 1 && s.handler.Null?
  }

  /** The webhooks sent so far, in order: "completed" is before "ringing" only when the pump was faster. */
  predicate Outbox(s: State) {
    match s.phase
    case StartFailed => s.outbox == [Fail] || s.outbox == [Fail, Completed]
    case Spawned => s.outbox == [] || s.outbox == [Completed]
    case Started =>
      || s.outbox == [Ringing] || s.outbox == [Ringing, Completed]
      || (s.outbox == [Completed, Ringing] && s.winner.Pump?)
    case _ => s.outbox == []
  }

  /** Only the winner is past the exchange. */
  predicate Losers(s: State) {
    && (s.pump.Cleaning? ==> s.winner.Pump?)
    && forall i :: 0 <= i < |s.callers| && s.winner != Caller(i) ==> s.callers[i].Entering? || s.callers[i].Returned?
  }

  predicate WinnerOk(s: State) {
    match s.winner
    case Nobody =>
      && !s.terminated && !s.joined && Progress(s, Delete) && !s.pump.Ended?
      && (forall i :: 0 <= i < |s.callers| ==> s.callers[i].Entering?)
    case Pump =>
      && s.terminated && !s.joined
      && (s.pump.Cleaning? || s.pump.Ended?)
      && (if s.pump.Cleaning? then Progress(s, s.pump.todo) else Finished(s))
    case Caller(w) =>
      && s.terminated && w < |s.callers| && !s.callers[w].Entering?
      && (s.joined ==> s.pump.Ended?)
      && (s.callers[w].Clearing? || s.callers[w].Returned? ==> s.pump.NoThread? || s.joined)
      && (s.callers[w].Stopping? || s.callers[w].Joining? ==> !s.joined && Progress(s, Delete))
      && (s.callers[w].Clearing? ==> Progress(s, s.callers[w].todo))
      && (s.callers[w].Returned? ==> Finished(s))
      && (!s.callers[w].Stopping? ==> !s.running)
  }

  predicate Shape(s: State) {
    && !s.badTouch
    && (s.pump.NoThread? <==> !s.phase.Spawned? && !s.phase.Started?)
    && (s.phase.New? ==> s == Init())
    && s.countedUp <= 1 && (s.countedUp == 1 ==> s.phase.Started?)
    && (s.callers != [] ==> Shared(s))
    && (s.pump.Swap? || s.pump.Cleaning? || s.pump.Ended? ==> !s.running)
    && (!s.phase.Flagged? && !s.phase.Spawned? && !s.phase.Started? ==> !s.running)
  }

  predicate Inv(s: State) {
    && Shape(s) && Outbox(s) && Losers(s) && WinnerOk(s)
    && (!s.fate.Alive? ==> AllReturned(s) && !s.winner.Nobody?)
    && (s.fate.Aborted? <==> !s.fate.Alive? && !s.pump.NoThread? && !s.joined)
  }

  lemma StartKeeps(s: State, connects: bool)
    requires Inv(s) && s.fate.Alive?
    ensures Inv(StartNext(s, connects))
  {
    assert s.phase.Spawned? ==> s.callers == [];
  }

  /** While the pump is in its loop the handler is there. */
  lemma TurnIsSafe(s: State)
    requires Inv(s) && (s.pump.Test? || s.pump.Turn?)
    ensures s.handler.Live? && !s.winner.Pump? && !s.joined
  {
    if s.winner.Caller? {
      assert s.callers[s.winner.index].Stopping? || s.callers[s.winner.index].Joining?;
    }
  }

  lemma PumpTests(s: State, timeout: bool)
    requires Inv(s) && s.fate.Alive? && s.pump.Test?
    ensures Inv(PumpNext(s, timeout))
  {
    TurnIsSafe(s);
  }

  lemma PumpTurns(s: State, timeout: bool)
    requires Inv(s) && s.fate.Alive? && s.pump.Turn?
    ensures Inv(PumpNext(s, timeout))
  {
    TurnIsSafe(s);
  }

  lemma PumpSwaps(s: State, timeout: bool)
    requires Inv(s) && s.fate.Alive? && s.pump.Swap?
    ensures Inv(PumpNext(s, timeout))
  {
  }

  lemma PumpCleans(s: State, timeout: bool)
    requires Inv(s) && s.fate.Alive? && s.pump.Cleaning?
    ensures Inv(PumpNext(s, timeout))
  {
    assert s.winner.Pump? && Progress(s, s.pump.todo);
  }

  lemma CallerEnters(s: State, i: nat)
    requires Inv(s) && s.fate.Alive? && i < |s.callers| && s.callers[i].Entering?
    ensures Inv(CallerNext(s, i))
  {
  }

  lemma CallerJoins(s: State, i: nat)
    requires Inv(s) && s.fate.Alive? && i < |s.callers| && (s.callers[i].Stopping? || s.callers[i].Joining?)
    ensures Inv(CallerNext(s, i))
  {
    assert s.winner == Caller(i);
  }

  lemma CallerClears(s: State, i: nat)
    requires Inv(s) && s.fate.Alive? && i < |s.callers| && s.callers[i].Clearing?
    ensures Inv(CallerNext(s, i))
  {
    assert s.winner == Caller(i) && Progress(s, s.callers[i].todo);
  }

  lemma CallerKeeps(s: State, i: nat)
    requires Inv(s) && s.fate.Alive? && i < |s.callers|
    ensures Inv(CallerNext(s, i))
  {
    match s.callers[i]
    case Entering => CallerEnters(s, i);
    case Clearing(_) => CallerClears(s, i);
    case Returned =>
    case _ => CallerJoins(s, i);
  }

  lemma PumpKeeps(s: State, timeout: bool)
    requires Inv(s) && s.fate.Alive?
    ensures Inv(PumpNext(s, timeout))
  {
    if s.pump.Cleaning? {
      PumpCleans(s, timeout);
    } else if s.pump.Swap? {
      PumpSwaps(s, timeout);
    } else if s.pump.Test? {
      PumpTests(s, timeout);
    } else if s.pump.Turn? {
      PumpTurns(s, timeout);
    }
  }

  lemma TerminateKeeps(s: State)
    requires Inv(s) && s.fate.Alive? && Shared(s)
    ensures Inv(s.(callers := s.callers + [Entering]))
  {
    var t := s.(callers := s.callers + [Entering]);
    assert forall j :: 0 <= j < |s.callers| ==> t.callers[j] == s.callers[j];
  }

  lemma DestroyKeeps(s: State)
    requires Inv(s) && s.fate.Alive?
    ensures Inv(Step(s, Destroy))
  {
    assert AllReturned(s) ==> s.callers[0].Returned?;
  }

  lemma StepKeeps(s: State, a: Action)
    requires Inv(s)
    ensures Inv(Step(s, a))
  {
    if s.fate.Alive? {
      match a
      case StartStep(connects) => StartKeeps(s, connects);
      case PumpStep(timeout) => PumpKeeps(s, timeout);
      case CallerStep(i) =>
        if i < |s.callers| {
          CallerKeeps(s, i);
        }
      case Terminate =>
        if Shared(s) {
          TerminateKeeps(s);
        }
      case Destroy => DestroyKeeps(s);
      case _ =>
    }
  }

  lemma {:induction false} RunKeeps(s: State, actions: seq<Action>)
    requires Inv(s)
    ensures Inv(Run(s, actions))
    decreases |actions|
  {
    if actions != [] {
      StepKeeps(s, actions[0]);
      RunKeeps(Step(s, actions[0]), actions[1..]);
    }
  }

  // ---- the promises ----

  /** How often a status was reported. */
  function Times(s: State, n: Notice): nat {
    multiset(s.outbox)[n]
  }

  lemma ToldOnce(s: State)
    requires Outbox(s)
    ensures Times(s, Completed) == if Told(s) then 1 else 0
  {
  }

  /**
   Under every interleaving: one "completed" and one count down at most, one deletion of the
   handler at most, and nobody uses the handler after its deletion.
   */
  lemma SingleFinalisation(actions: seq<Action>)
    ensures var s := Run(Init(), actions);
      && Times(s, Completed) <= 1 && s.countedDown <= Times(s, Completed) && s.deletions <= 1 && !s.badTouch
      && (Times(s, Completed) == 1 ==> s.deletions == 1 && s.handler.Null?)
  {
    RunKeeps(Init(), actions);
    ToldOnce(Run(Init(), actions));
  }

  /** Everything that ends a call has happened, once. */
  predicate Tallied(s: State) {
    Times(s, Completed) == 1 && s.countedDown == 1 && s.deletions == 1 && s.handler.Null?
  }

  /**
   When the object is destroyed everything has happened once; a failed start is reported, and
   counted down without having been counted up.  When destroying it ends the process, the same
   holds exactly if the pump thread had finished.
   */
  lemma FinalTally(actions: seq<Action>)
    ensures var s := Run(Init(), actions);
      && (s.fate.Destroyed? ==> Tallied(s))
      && (s.fate.Aborted? ==> (Tallied(s) <==> s.pump.Ended?))
      && (!s.fate.Alive? ==>
            if s.phase.StartFailed? then Times(s, Fail) == 1 && s.countedUp == 0
            else s.phase.Started? && Times(s, Fail) == 0 && s.countedUp == 1)
  {
    RunKeeps(Init(), actions);
  }

  /**
   Destroying the object ends the process (its thread object still stands for an unjoined
   thread) exactly when the pump thread, not a `terminate`, finalised the call.
   */
  lemma AbortsIffPumpFinalised(actions: seq<Action>)
    ensures var s := Run(Init(), actions);
      !s.fate.Alive? ==> (s.fate.Aborted? <==> s.winner.Pump?)
  {
    RunKeeps(Init(), actions);
  }

  /** The pump thread won the race and has reported the end. */
  predicate PumpReported(s: State) {
    s.pump.Ended? || s.pump == Cleaning(Decrement)
  }

  /** "ringing" is the first report of a started call exactly when the pump has not reported the end before. */
  lemma RingingFirstIff(actions: seq<Action>, connects: bool)
    requires Run(Init(), actions).phase.Spawned?
    ensures var s := Run(Init(), actions);
      var t := Step(s, StartStep(connects));
      && t.phase.Started?
      && t.outbox == if PumpReported(s) then [Completed, Ringing] else [Ringing]
  {
    RunKeeps(Init(), actions);
  }

  // ---- the call does end, and not before it is stopped ----

  lemma PumpStops(s: State, timeout: bool)
    requires s.running && !PumpNext(s, timeout).running
    ensures timeout && s.pump.Turn?
  {
  }

  lemma CallerStops(s: State, i: nat)
    requires i < |s.callers| && s.running && !CallerNext(s, i).running
    ensures s.callers[i].Stopping?
  {
  }

  /**
   The running flag, once set, falls only through a disconnect, the timeout of a pump turn, or a
   `terminate` that came first.
   */
  lemma StoppedBy(s: State, a: Action)
    requires s.running && !Step(s, a).running
    ensures a.Disconnect? || (a == PumpStep(true) && s.pump.Turn?)
      || (a.CallerStep? && a.index < |s.callers| && s.callers[a.index].Stopping?)
  {
    match a
    case PumpStep(timeout) => PumpStops(s, timeout);
    case CallerStep(i) => CallerStops(s, i);
    case _ =>
  }

  /** While the flag is set nothing of the clean-up of a started call happens, and the pump keeps turning. */
  lemma RunningGoesOn(actions: seq<Action>)
    requires Run(Init(), actions).running
    ensures var s := Run(Init(), actions);
      && !Told(s) && s.countedDown == 0 && s.deletions == 0 && s.fate.Alive?
      && (s.pump.NoThread? || s.pump.Test? || s.pump.Turn?)
      && (s.pump.Test? ==> Step(s, PumpStep(false)).pump.Turn?)
      && (s.pump.Turn? ==> Step(s, PumpStep(false)).pump.Test? && Step(s, PumpStep(false)).running)
  {
    RunKeeps(Init(), actions);
  }


  /** Turns of the pump, each with or without the timeout. */
  function PumpTurnsOf(timeouts: seq<bool>): seq<Action> {
    seq(|timeouts|, i requires 0 <= i < |timeouts| => PumpStep(timeouts[i]))
  }

  /** How many turns the pump still needs once `running` is false. */
  function TurnsLeft(pc: PumpPc): nat {
    match pc
    case NoThread => 0
    case Turn => 7
    case Test => 6
    case Swap => 5
    case Cleaning(Delete) => 4
    case Cleaning(Nullify) => 3
    case Cleaning(Send) => 2
    case Cleaning(Decrement) => 1
    case Ended => 0
  }

  /** Once `running` is false the pump thread ends within seven turns, so a join of it returns. */
  lemma {:induction false} PumpEnds(s: State, timeouts: seq<bool>)
    requires s.fate.Alive? && !s.running && !s.pump.NoThread? && |timeouts| >= TurnsLeft(s.pump)
    ensures Run(s, PumpTurnsOf(timeouts)).pump.Ended?
    decreases |timeouts|
  {
    if timeouts != [] {
      var t := Step(s, PumpStep(timeouts[0]));
      assert PumpTurnsOf(timeouts)[1..] == PumpTurnsOf(timeouts[1..]);
      PumpEnds(t, timeouts[1..]);
    }
  }

  /** The timeout stops the call in the very turn it fires, and so does a hang-up or a `terminate`. */
  lemma EachEndStops(s: State, i: nat)
    requires s.fate.Alive?
    ensures s.pump.Turn? ==> !Step(s, PumpStep(true)).running && Step(s, PumpStep(true)).pump.Swap?
    ensures Opened(s) ==> !Step(s, Disconnect).running
    ensures i < |s.callers| && s.callers[i].Stopping? ==> !Step(s, CallerStep(i)).running
    ensures i < |s.callers| && s.callers[i].Entering? && !s.terminated ==>
      Step(s, CallerStep(i)).callers[i].Stopping? && Step(s, CallerStep(i)).terminated
  {
  }

  /** The turn in which the timeout fires, and five more. */
  function AfterTimeout(): seq<bool> {
    [true, false, false, false, false, false]
  }

  lemma TimeoutTurn(s: State)
    requires s.fate.Alive? && s.pump.Turn?
    ensures var s1 := Step(s, PumpStep(true));
      && s1 == s.(running := false, pump := Swap)
      && Run(s, PumpTurnsOf(AfterTimeout())) == Run(s1, PumpTurnsOf([false, false, false, false, false]))
  {
    assert PumpTurnsOf(AfterTimeout())[1..] == PumpTurnsOf([false, false, false, false, false]);
  }

  lemma TimeoutWins(s: State)
    requires Inv(s) && s.fate.Alive? && s.pump.Turn? && !s.terminated
    ensures var t := Run(s, PumpTurnsOf(AfterTimeout()));
      t.pump.Ended? && !t.running && t.winner.Pump? && Tallied(t)
  {
    TimeoutTurn(s);
    var s1 := s.(running := false, pump := Swap);
    RunKeeps(s, PumpTurnsOf(AfterTimeout()));
    var rest := [false, false, false, false, false];
    PumpEnds(s1, rest);
    WinnerStays(s1, rest);
    PumpTallied(Run(s1, PumpTurnsOf(rest)));
  }

  lemma PumpTallied(t: State)
    requires Inv(t) && t.winner.Pump? && t.pump.Ended?
    ensures Tallied(t)
  {
    assert Finished(t);
  }

  lemma TimeoutLoses(s: State)
    requires s.fate.Alive? && s.pump.Turn? && s.terminated
    ensures var t := Run(s, PumpTurnsOf(AfterTimeout()));
      t.pump.Ended? && !t.running && t.outbox == s.outbox && t.countedDown == s.countedDown
  {
    TimeoutTurn(s);
    var s1 := s.(running := false, pump := Swap);
    PumpEnds(s1, [false, false, false, false, false]);
    LoserEnds(s1, [false, false, false, false, false]);
  }

  /**
   A call that reached its timeout is finalised by the pump in five more turns unless a `terminate`
   got there first, and then it ends without finalising.
   */
  lemma TimeoutFinalises(actions: seq<Action>)
    requires Run(Init(), actions).pump.Turn? && Run(Init(), actions).fate.Alive?
    ensures var s := Run(Init(), actions);
      var t := Run(s, PumpTurnsOf(AfterTimeout()));
      && t.pump.Ended? && !t.running
      && (!s.terminated ==> t.winner.Pump? && Tallied(t))
      && (s.terminated ==> t.outbox == s.outbox && t.countedDown == s.countedDown)
  {
    RunKeeps(Init(), actions);
    var s := Run(Init(), actions);
    if s.terminated {
      TimeoutLoses(s);
    } else {
      TimeoutWins(s);
    }
  }

  /** A pump that comes second only ends. */
  lemma {:induction false} LoserEnds(s: State, timeouts: seq<bool>)
    requires s.terminated && (s.pump.Swap? || s.pump.Ended?) && !s.running
    ensures var t := Run(s, PumpTurnsOf(timeouts));
      t.outbox == s.outbox && t.countedDown == s.countedDown && !t.running
    decreases |timeouts|
  {
    if timeouts != [] {
      assert PumpTurnsOf(timeouts)[1..] == PumpTurnsOf(timeouts[1..]);
      LoserEnds(Step(s, PumpStep(timeouts[0])), timeouts[1..]);
    }
  }

  /** A pump that comes first is the one that finalises. */
  lemma {:induction false} WinnerStays(s: State, timeouts: seq<bool>)
    requires s.fate.Alive? && !s.running && (if s.pump.Swap? then !s.terminated else s.winner.Pump?)
    requires s.pump.Swap? || s.pump.Cleaning? || s.pump.Ended?
    requires |timeouts| >= 1
    ensures var t := Run(s, PumpTurnsOf(timeouts));
      t.winner.Pump? && !t.running
    decreases |timeouts|
  {
    var t := Step(s, PumpStep(timeouts[0]));
    assert PumpTurnsOf(timeouts)[1..] == PumpTurnsOf(timeouts[1..]);
    if |timeouts| > 1 {
      WinnerStays(t, timeouts[1..]);
    } else {
      assert PumpTurnsOf(timeouts[1..]) == [] && Run(t, []) == t;
    }
  }

  /** Steps of one `terminate`. */
  function CallerSteps(i: nat, n: nat): seq<Action> {
    seq(n, _ => CallerStep(i))
  }

  /** How many steps it still needs once the pump has ended. */
  function StepsLeft(pc: CallerPc): nat {
    match pc
    case Entering => 7
    case Stopping => 6
    case Joining => 5
    case Clearing(Delete) => 4
    case Clearing(Nullify) => 3
    case Clearing(Send) => 2
    case Clearing(Decrement) => 1
    case Returned => 0
  }

  /** A `terminate` that came first finalises the call: after the pump has ended it joins it and does it all. */
  lemma TerminateFinalises(actions: seq<Action>, i: nat)
    requires i < |Run(Init(), actions).callers| && Run(Init(), actions).callers[i].Joining?
    requires Run(Init(), actions).pump.Ended? || Run(Init(), actions).pump.NoThread?
    requires Run(Init(), actions).fate.Alive?
    ensures var t := Run(Run(Init(), actions), CallerSteps(i, 5));
      i < |t.callers| && t.callers[i].Returned? && t.winner == Caller(i) && Tallied(t)
  {
    RunKeeps(Init(), actions);
    var s := Run(Init(), actions);
    RunKeeps(s, CallerSteps(i, 5));
    CallerFinishes(s, i, 5);
  }

  lemma {:induction false} CallerFinishes(s: State, i: nat, n: nat)
    requires s.fate.Alive? && i < |s.callers| && (s.pump.Ended? || s.pump.NoThread?)
    requires s.callers[i].Joining? || s.callers[i].Clearing? || s.callers[i].Returned?
    requires n >= StepsLeft(s.callers[i])
    ensures var t := Run(s, CallerSteps(i, n));
      |t.callers| == |s.callers| && t.callers[i].Returned? && t.winner == s.winner
    decreases n
  {
    if n > 0 {
      assert CallerSteps(i, n)[1..] == CallerSteps(i, n - 1);
      CallerFinishes(Step(s, CallerStep(i)), i, n - 1);
    }
  }

  // ---- runs that reach the bad ends ----

  /** A run, state by state. */
  lemma {:induction false} RunIs(states: seq<State>, actions: seq<Action>)
    requires |states| == |actions| + 1
    requires forall i :: 0 <= i < |actions| ==> Step(states[i], actions[i]) == states[i + 1]
    ensures Run(states[0], actions) == states[|actions|]
    decreases |actions|
  {
    if actions != [] {
      RunIs(states[1..], actions[1..]);
    }
  }

  /** The connection fails, and destroying the object calls `terminate`. */
  function FailedStart(): seq<Action> {
    [StartStep(false), Terminate, CallerStep(0), CallerStep(0), CallerStep(0)]
  }

  function OneCleanUp(): seq<Action> {
    [CallerStep(0), CallerStep(0), CallerStep(0), CallerStep(0), Destroy]
  }

  /** The failed call with its one `terminate` at the given place. */
  function Failed(caller: CallerPc): State {
    State(StartFailed, Null, false, true, NoThread, false, [caller], Alive, Caller(0), 1, false, [Fail], 0, 0)
  }

  lemma FailedStartBegins()
    ensures Run(Init(), FailedStart()) == Failed(Clearing(Delete))
  {
    var a := FailedStart();
    var s1 := Step(Init(), a[0]);
    var s2 := Step(s1, a[1]);
    assert Step(s2, a[2]) == Failed(Stopping);
    assert Step(Failed(Stopping), a[3]) == Failed(Joining);
    assert Step(Failed(Joining), a[4]) == Failed(Clearing(Delete));
    RunIs([Init(), s1, s2, Failed(Stopping), Failed(Joining), Failed(Clearing(Delete))], a);
  }

  lemma FailedStartEnds()
    ensures Run(Failed(Clearing(Delete)), OneCleanUp())
         == Failed(Returned).(outbox := [Fail, Completed], countedDown := 1, fate := Destroyed)
  {
    var a := OneCleanUp();
    var sent := Failed(Clearing(Decrement)).(outbox := [Fail, Completed]);
    var down := Failed(Returned).(outbox := [Fail, Completed], countedDown := 1);
    assert Step(Failed(Clearing(Delete)), a[0]) == Failed(Clearing(Nullify));
    assert Step(Failed(Clearing(Nullify)), a[1]) == Failed(Clearing(Send));
    assert Step(Failed(Clearing(Send)), a[2]) == sent;
    assert Step(sent, a[3]) == down;
    RunIs([Failed(Clearing(Delete)), Failed(Clearing(Nullify)), Failed(Clearing(Send)), sent, down,
           Step(down, a[4])], a);
  }

  /** A call whose start fails is reported twice and counted down without having been counted up. */
  lemma FailedStartCountsDown()
    ensures var s := Run(Init(), FailedStart() + OneCleanUp());
      && s.fate.Destroyed? && s.outbox == [Fail, Completed] && s.countedDown == 1 && s.countedUp == 0
  {
    RunAppend(Init(), FailedStart(), OneCleanUp());
    FailedStartBegins();
    FailedStartEnds();
  }

  /** The call connects and runs, and the far end hangs up at once. */
  function HungUpAtOnce(): seq<Action> {
    [StartStep(true), StartStep(true), StartStep(true), Disconnect]
  }

  /** The pump leaves its loop and finalises the call. */
  function PumpFinalises(): seq<Action> {
    [PumpStep(false), PumpStep(false), PumpStep(false), PumpStep(false), PumpStep(false), PumpStep(false)]
  }

  function HungUp(): State {
    Init().(phase := Spawned, handler := Live, pump := Test)
  }

  function Finalised(): State {
    State(Spawned, Null, false, true, Ended, false, [], Alive, Pump, 1, false, [Completed], 0, 1)
  }

  lemma HungUpBegins()
    ensures Run(Init(), HungUpAtOnce()) == HungUp()
  {
    var a := HungUpAtOnce();
    var s1 := Step(Init(), a[0]);
    var s2 := Step(s1, a[1]);
    var s3 := Step(s2, a[2]);
    RunIs([Init(), s1, s2, s3, Step(s3, a[3])], a);
  }

  lemma HungUpEnds()
    ensures Run(HungUp(), PumpFinalises()) == Finalised()
  {
    var a := PumpFinalises();
    var s1 := HungUp().(pump := Swap);
    var s2 := s1.(terminated := true, winner := Pump, pump := Cleaning(Delete));
    var s3 := s2.(handler := Dangling, deletions := 1, pump := Cleaning(Nullify));
    var s4 := s3.(handler := Null, pump := Cleaning(Send));
    var s5 := s4.(outbox := [Completed], pump := Cleaning(Decrement));
    assert Step(HungUp(), a[0]) == s1 && Step(s1, a[1]) == s2 && Step(s2, a[2]) == s3;
    assert Step(s3, a[3]) == s4 && Step(s4, a[4]) == s5;
    RunIs([HungUp(), s1, s2, s3, s4, s5, Step(s5, a[5])], a);
  }

  /** The starting thread goes on, counts the call, and it is erased from the map. */
  function GivenAway(): seq<Action> {
    [StartStep(true), CountUp, Terminate, CallerStep(0), Destroy]
  }

  lemma {:induction false} RunAppend(s: State, first: seq<Action>, second: seq<Action>)
    ensures Run(s, first + second) == Run(Run(s, first), second)
    decreases |first|
  {
    if first == [] {
      assert first + second == second;
    } else {
      assert (first + second)[1..] == first[1..] + second;
      RunAppend(Step(s, first[0]), first[1..], second);
    }
  }

  /** What the starting thread then leaves behind, with one `terminate` at the given place. */
  function Left(caller: CallerPc): State {
    Finalised().(phase := Started, outbox := [Completed, Ringing], countedUp := 1, callers := [caller])
  }

  lemma GivenAwayAborts()
    ensures Run(Finalised(), GivenAway()) == Left(Returned).(fate := Aborted)
  {
    var a := GivenAway();
    var s1 := Step(Finalised(), a[0]);
    var s2 := Step(s1, a[1]);
    assert Step(s2, a[2]) == Left(Entering);
    assert Step(Left(Entering), a[3]) == Left(Returned);
    var end := Left(Returned).(fate := Aborted);
    assert Step(Left(Returned), a[4]) == end;
    RunIs([Finalised(), s1, s2, Left(Entering), Left(Returned), end], a);
  }

  /** A call that ends by itself, here before "ringing" is reported, ends the process when it is destroyed. */
  lemma EndedCallAborts()
    ensures var s := Run(Init(), HungUpAtOnce() + PumpFinalises() + GivenAway());
      s.fate.Aborted? && s.outbox == [Completed, Ringing] && s.countedUp == 1 && s.countedDown == 1
  {
    RunAppend(Init(), HungUpAtOnce() + PumpFinalises(), GivenAway());
    RunAppend(Init(), HungUpAtOnce(), PumpFinalises());
    HungUpBegins();
    HungUpEnds();
    GivenAwayAborts();
  }
}
