/** The bus-driven game loop: the input loop and the spawner publish events,
    the event handler is the one place that changes the queue and the flags,
    and the buttons loop keeps the menu cache in step with the player's level.
    Each loop is modelled by one pass; the threads, locks and the channel are
    not. */
module Gameplay {
  import opened Text
  import opened Customers
  import opened Players
  import opened Configuration
  import opened Frames
  import opened Terminal

  /** The bus events; `Unrecognized` stands for the handler's catch-all arm. */
  datatype Event = Quit | StopCustomerSpawning | SpawnCustomer | Unrecognized

  /** What the event handler reads and writes: the queue length and the
      `running`, spawning-enabled and sleep flags. */
  datatype Control = Control(queueLen: nat, running: bool, spawning: bool, sleepFlag: bool)

  /** The shared state as it is set up: an empty queue, running, spawning. */
  const InitialControl: Control := Control(0, true, true, false)

  // ---------------------------------------------------------- event handler

  /** The handler's effect for one received event. A spawn is admitted only
      below capacity; at capacity the game ends. The queue never grows past
      `maxLineSize` and grows by at most one. */
  function Dispatch(s: Control, e: Event, maxLineSize: nat): (t: Control)
    ensures s.queueLen <= maxLineSize ==> t.queueLen <= maxLineSize
    ensures s.queueLen <= t.queueLen <= s.queueLen + 1
  {
    match e
    case Quit => s.(running := false, sleepFlag := true)
    case StopCustomerSpawning => s.(spawning := false)
    case SpawnCustomer =>
      if s.queueLen < maxLineSize then s.(queueLen := s.queueLen + 1)
      else s.(running := false)
    case Unrecognized => s
  }

  /** `Quit` stops the game and raises the sleep flag; `StopCustomerSpawning`
      clears only the spawning flag; neither touches the queue. */
  lemma DispatchControlEvents(s: Control, maxLineSize: nat)
    ensures var t := Dispatch(s, Quit, maxLineSize);
      !t.running && t.sleepFlag && t.queueLen == s.queueLen && t.spawning == s.spawning
    ensures var t := Dispatch(s, StopCustomerSpawning, maxLineSize);
      !t.spawning && t.queueLen == s.queueLen && t.running == s.running && t.sleepFlag == s.sleepFlag
    ensures Dispatch(s, Unrecognized, maxLineSize) == s
  {
  }

  /** Admission control: below capacity a spawn adds exactly one customer and
      leaves the flags alone; at capacity it leaves the queue and ends the game. */
  lemma DispatchSpawnAdmission(s: Control, maxLineSize: nat)
    ensures var t := Dispatch(s, SpawnCustomer, maxLineSize);
      s.queueLen < maxLineSize ==>
        t.queueLen == s.queueLen + 1 && t.running == s.running
        && t.spawning == s.spawning && t.sleepFlag == s.sleepFlag
    ensures var t := Dispatch(s, SpawnCustomer, maxLineSize);
      s.queueLen >= maxLineSize ==>
        t.queueLen == s.queueLen && !t.running && t.spawning == s.spawning && t.sleepFlag == s.sleepFlag
  {
  }

  /** The handler loop over the events it receives: it handles them in
      order and stops receiving once `running` is false. */
  function DispatchAll(s: Control, events: seq<Event>, maxLineSize: nat): Control
    decreases |events|
  {
    if events == [] || !s.running then s
    else DispatchAll(Dispatch(s, events[0], maxLineSize), events[1..], maxLineSize)
  }

  /** Whatever events arrive, the queue never exceeds `maxLineSize`, never
      shrinks, and grows by at most one customer per event. */
  lemma {:induction false} DispatchAllKeepsCapacity(s: Control, events: seq<Event>, maxLineSize: nat)
    requires s.queueLen <= maxLineSize
    ensures s.queueLen <= DispatchAll(s, events, maxLineSize).queueLen <= maxLineSize
    ensures DispatchAll(s, events, maxLineSize).queueLen <= s.queueLen + |events|
    decreases |events|
  {
    if events != [] && s.running {
      DispatchAllKeepsCapacity(Dispatch(s, events[0], maxLineSize), events[1..], maxLineSize);
    }
  }

  /** No event turns spawning back on. */
  lemma {:induction false} SpawningStaysOff(s: Control, events: seq<Event>, maxLineSize: nat)
    requires !s.spawning
    ensures !DispatchAll(s, events, maxLineSize).spawning
    decreases |events|
  {
    if events != [] && s.running {
      SpawningStaysOff(Dispatch(s, events[0], maxLineSize), events[1..], maxLineSize);
    }
  }

  /** Once the game has stopped, later events change nothing. */
  lemma {:induction false} StoppedIgnoresEvents(s: Control, events: seq<Event>, maxLineSize: nat)
    requires !s.running
    ensures DispatchAll(s, events, maxLineSize) == s
  {
  }

  /** With room for two customers, two spawns fill the queue, the third ends
      the game, and a fourth is never handled. */
  lemma GameOverWithRoomForTwo()
    ensures DispatchAll(InitialControl, [SpawnCustomer], 2).queueLen == 1
    ensures DispatchAll(InitialControl, [SpawnCustomer, SpawnCustomer], 2) == Control(2, true, true, false)
    ensures DispatchAll(InitialControl, [SpawnCustomer, SpawnCustomer, SpawnCustomer], 2) == Control(2, false, true, false)
    ensures DispatchAll(InitialControl, [SpawnCustomer, SpawnCustomer, SpawnCustomer, SpawnCustomer], 2)
         == DispatchAll(InitialControl, [SpawnCustomer, SpawnCustomer, SpawnCustomer], 2)
  {
    var spawn := [SpawnCustomer];
    assert [SpawnCustomer, SpawnCustomer][1..] == spawn;
    assert [SpawnCustomer, SpawnCustomer, SpawnCustomer][1..] == [SpawnCustomer, SpawnCustomer];
    assert [SpawnCustomer, SpawnCustomer, SpawnCustomer, SpawnCustomer][1..] == [SpawnCustomer, SpawnCustomer, SpawnCustomer];
    StoppedIgnoresEvents(Control(2, false, true, false), spawn, 2);
  }

  // ------------------------------------------------------------- spawner

  datatype SpawnerAction = Retry | Exit | Publish

  /** One pass of the spawner loop: it exits when `running` is false at the
      top of the loop; while spawning is disabled it waits a second and
      retries; otherwise it waits out the arrival interval and, if the game is
      still running (`runningAfterWait`, read again after the wait), publishes
      a spawn, else exits. */
  function SpawnerPass(running: bool, spawning: bool, runningAfterWait: bool): (a: SpawnerAction)
    ensures a == Publish <==> running && spawning && runningAfterWait
    ensures a == Retry <==> running && !spawning
  {
    if !running then Exit
    else if !spawning then Retry
    else if !runningAfterWait then Exit
    else Publish
  }

  /** After `StopCustomerSpawning` is handled, whatever events follow, no
      spawner pass that reads the spawning flag from then on publishes a
      spawn. */
  lemma StopSpawningSilencesSpawner(s: Control, events: seq<Event>, maxLineSize: nat, running: bool, runningAfterWait: bool)
    ensures var t := DispatchAll(Dispatch(s, StopCustomerSpawning, maxLineSize), events, maxLineSize);
      SpawnerPass(running, t.spawning, runningAfterWait) != Publish
  {
    SpawningStaysOff(Dispatch(s, StopCustomerSpawning, maxLineSize), events, maxLineSize);
  }

  /** A pass that read the spawning flag before the stop was handled is
      already in its arrival wait: the stop leaves the game running, so that
      pass still publishes one spawn. */
  lemma StopDuringArrivalWaitStillPublishes(s: Control, maxLineSize: nat)
    requires s.running && s.spawning
    ensures var t := Dispatch(s, StopCustomerSpawning, maxLineSize);
      !t.spawning && t.running && SpawnerPass(s.running, s.spawning, t.running) == Publish
  {
  }

  // --------------------------------------------------------------- input

  /** What one pass of the input loop does: the events it publishes and
      whether it leaves the loop. */
  datatype InputStep = InputStep(published: seq<Event>, stop: bool)

  /** One pass of the input loop after its poll: Esc publishes `Quit` and
      ends the loop; anything else is ignored. */
  function InputPass(polled: Polled): (r: InputStep)
    ensures r.stop <==> IsEsc(polled)
    ensures IsEsc(polled) ==> r.published == [Quit]
    ensures !IsEsc(polled) ==> r.published == []
  {
    if IsEsc(polled) then InputStep([Quit], true) else InputStep([], false)
  }

  /** Esc, once its `Quit` reaches the handler, stops the game. */
  lemma EscStopsTheGame(s: Control, maxLineSize: nat)
    requires s.running
    ensures !DispatchAll(s, InputPass(Got(Key(Esc))).published, maxLineSize).running
    ensures DispatchAll(s, InputPass(Got(Key(Esc))).published, maxLineSize).sleepFlag
  {
    assert InputPass(Got(Key(Esc))).published[1..] == [];
  }

  // ------------------------------------------------------------- buttons

  /** `drinks.get(key).cloned().unwrap_or_default()`. */
  function LevelMenu(drinks: map<string, seq<string>>, levelKey: string): (menu: seq<string>)
    ensures levelKey !in drinks ==> menu == []
    ensures levelKey in drinks ==> menu == drinks[levelKey]
  {
    if levelKey in drinks then drinks[levelKey] else []
  }

  /** The menu the buttons hold is the one the drinks panel lists, line for
      line, whenever the level has one. When it has none the two differ: the
      buttons hold no item while the panel shows the fallback line. */
  lemma ButtonsMatchDrinksPanel(drinks: map<string, seq<string>>, levelKey: string)
    requires levelKey in drinks ==> forall i :: 0 <= i < |drinks[levelKey]| ==> PlainLine(drinks[levelKey][i])
    ensures levelKey in drinks ==> Lines(DrinksPanel(drinks, levelKey)) == MenuLines(LevelMenu(drinks, levelKey))
    ensures levelKey !in drinks ==>
      && LevelMenu(drinks, levelKey) == []
      && Lines(DrinksPanel(drinks, levelKey)) == [DrinksHeader, NoDrinksLine]
      && Lines(DrinksPanel(drinks, levelKey)) != MenuLines(LevelMenu(drinks, levelKey))
  {
    if levelKey in drinks {
      DrinksPanelLines(drinks, levelKey);
    } else {
      DrinksPanelFallbackLines(drinks, levelKey);
      assert MenuLines([]) == [DrinksHeader];
    }
  }

  // -------------------------------------------------------- shared state

  class SharedState {
    const cfg: Config
    var customers: seq<Customer>
    var player: Player
    var running: bool
    var doingCustomerSpawner: bool
    var sleepFlag: bool
    var buttons: seq<seq<string>>

    /** The queue is never longer than the line may be. */
    ghost predicate Valid()
      reads this
    {
      |customers| <= cfg.maxLineSize
    }

    function ControlState(): Control
      reads this
    {
      Control(|customers|, running, doingCustomerSpawner, sleepFlag)
    }

    constructor (cfg: Config)
      ensures Valid()
      ensures this.cfg == cfg
      ensures ControlState() == InitialControl
      ensures customers == [] && player == NewPlayer() && buttons == [[]]
    {
      this.cfg := cfg;
      customers := [];
      player := NewPlayer();
      running := true;
      doingCustomerSpawner := true;
      sleepFlag := false;
      buttons := [[]];
    }

    /** The event handler's body for one received event. A spawn below
        capacity appends one fresh customer; nothing else touches the queue. */
    method HandleEvent(e: Event)
      requires Valid()
      modifies this
      ensures Valid()
      ensures ControlState() == Dispatch(old(ControlState()), e, cfg.maxLineSize)
      ensures player == old(player) && buttons == old(buttons)
      ensures |customers| == |old(customers)| ==> customers == old(customers)
      ensures |customers| != |old(customers)| ==>
        && customers[..|old(customers)|] == old(customers)
        && fresh(customers[|old(customers)|])
        && customers[|old(customers)|].bits == 0
    {
      match e {
        case Quit =>
          running := false;
          sleepFlag := true;
        case StopCustomerSpawning =>
          doingCustomerSpawner := false;
        case SpawnCustomer =>
          if |customers| < cfg.maxLineSize {
            var c := new Customer();
            customers := customers + [c];
          } else {
            running := false;
          }
        case Unrecognized =>
      }
    }

    /** One pass of the buttons loop: the cache becomes the single menu of
        the player's level, or one empty menu when the level has none. */
    method RefreshButtons()
      modifies this`buttons
      ensures buttons == [LevelMenu(cfg.drinks, LevelKey(player))]
    {
      var levelKey := LevelKey(player);
      var drinks := if levelKey in cfg.drinks then cfg.drinks[levelKey] else [];
      var newButtons := [drinks];
      if newButtons != buttons {
        buttons := newButtons;
      }
    }
  }
}
