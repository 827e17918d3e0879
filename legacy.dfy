/** The older, task-based game loop: the same frame and redraw, a player
    that is never changed (so always level 0), an input loop that clears
    `running` itself on Esc, and a spawner that enforces the queue's capacity
    on its own instead of publishing events. */
module Legacy {
  import opened Text
  import opened Customers
  import opened Players
  import opened Configuration
  import opened Frames
  import opened Terminal

  // --------------------------------------------------------------- frame

  /** The frame the older render loop draws: the player is the one created
      at start-up and never changed. */
  function LegacyFrame(cfg: Config, queueLen: nat): seq<string> {
    Frame(cfg, NewPlayer(), queueLen)
  }

  /** The older loop always shows the level-"0" menu, or the fallback when
      there is none, next to the queue bar. */
  lemma LegacyFrameShowsLevelZero(cfg: Config, queueLen: nat)
    ensures |LegacyFrame(cfg, queueLen)| == 2
    ensures LegacyFrame(cfg, queueLen)[0] == DrinksPanel(cfg.drinks, "0")
    ensures "0" !in cfg.drinks ==> LegacyFrame(cfg, queueLen)[0] == "Drinks:\n  No drinks available."
    ensures LegacyFrame(cfg, queueLen)[1] == QueueBar(queueLen, cfg.maxLineSize)
  {
    if "0" !in cfg.drinks {
      DrinksPanelFallback(cfg.drinks, "0");
    }
  }

  lemma MenuLineWidths()
    ensures ByteLen(DrinksHeader) == 7
    ensures ByteLen(Indent + "Coffee") == 8
  {
    assert IsAscii(DrinksHeader);
    assert IsAscii(Indent + "Coffee");
  }

  /** With every setting left at its default (a 10-second arrival wait, room
      for 10 customers, a padding of 1 and a coffee-only level-"0" menu) the
      first frame is that menu next to an empty bar of ten places. */
  lemma DefaultConfigFirstFrame()
    ensures DefaultConfig().customerArrivalWait == 10
    ensures DefaultConfig().maxLineSize == 10
    ensures DefaultConfig().rightSideMenuPadding == 1
    ensures DefaultConfig().drinks == map["0" := ["Coffee"]]
    ensures LegacyFrame(DefaultConfig(), 0) == ["Drinks:\n  Coffee", "----------"]
  {
    var drinks := DefaultConfig().drinks;
    assert LevelKey(NewPlayer()) == "0";
    assert Indented(drinks["0"]) == [Indent + "Coffee"];
    assert DrinksPanel(drinks, "0") == DrinksHeader + "\n" + Indent + "Coffee";
    assert DrinksHeader + "\n" + Indent + "Coffee" == "Drinks:\n  Coffee";
    assert QueueBar(0, 10) == "----------";
  }

  /** With the default menu the drinks column is 9 wide: "  Coffee" is the
      widest line, 8 bytes, and the padding adds 1. */
  lemma DefaultConfigColumns()
    ensures MaxDrinksWidth(DefaultConfig().drinks) == 8
    ensures RenderWidths(DefaultConfig()) == [9]
  {
    DefaultMenuWidth();
    OneMenuWidth("0", ["Coffee"]);
    assert DefaultConfig().drinks == map["0" := ["Coffee"]];
  }

  /** The coffee-only menu is 8 wide: "  Coffee" is wider than "Drinks:". */
  lemma DefaultMenuWidth()
    ensures MenuWidth(["Coffee"]) == 8
  {
    MenuLineWidths();
    assert MenuLines(["Coffee"]) == [DrinksHeader, Indent + "Coffee"];
    MaxByteLenOfTwo(DrinksHeader, Indent + "Coffee");
  }

  /** With a single menu the drinks column is that menu's width. */
  lemma OneMenuWidth(key: string, items: seq<string>)
    ensures MaxDrinksWidth(map[key := items]) == MenuWidth(items)
  {
    var drinks := map[key := items];
    assert key in drinks;
    assert forall k :: k in drinks ==> k == key;
  }

  // ------------------------------------------------------------- spawner

  /** What the older spawner reads and writes. */
  datatype SpawnerState = SpawnerState(queueLen: nat, running: bool, spawning: bool)

  /** The state after one pass, and whether the loop goes on. */
  datatype SpawnerStep = SpawnerStep(state: SpawnerState, goesOn: bool)

  /** One pass of the older spawner loop: it exits when the game has stopped;
      while spawning is disabled it waits and retries; otherwise, after the
      arrival wait, it pushes a customer if there is room, and if there is
      not it ends the game and exits. The queue never passes the capacity
      and grows only when there was room. */
  function SpawnerPass(s: SpawnerState, maxLineSize: nat): (r: SpawnerStep)
    ensures s.queueLen <= maxLineSize ==> r.state.queueLen <= maxLineSize
    ensures r.state.queueLen != s.queueLen ==> s.queueLen < maxLineSize && r.state.queueLen == s.queueLen + 1
    ensures !r.goesOn ==> !r.state.running
    ensures !s.running ==> r == SpawnerStep(s, false)
    ensures s.running && !s.spawning ==> r == SpawnerStep(s, true)
    ensures s.running && s.spawning && s.queueLen < maxLineSize ==> r == SpawnerStep(s.(queueLen := s.queueLen + 1), true)
    ensures s.running && s.spawning && s.queueLen >= maxLineSize ==> r == SpawnerStep(s.(running := false), false)
  {
    if !s.running then SpawnerStep(s, false)
    else if !s.spawning then SpawnerStep(s, true)
    else if maxLineSize > s.queueLen then SpawnerStep(s.(queueLen := s.queueLen + 1), true)
    else SpawnerStep(s.(running := false), false)
  }

  /** Up to `passes` passes of the spawner loop, stopping when it exits. */
  function SpawnerRun(s: SpawnerState, passes: nat, maxLineSize: nat): SpawnerStep
    decreases passes
  {
    if passes == 0 then SpawnerStep(s, true)
    else
      var r := SpawnerPass(s, maxLineSize);
      if !r.goesOn then r else SpawnerRun(r.state, passes - 1, maxLineSize)
  }

  /** However long the spawner runs, the queue stays within capacity. */
  lemma {:induction false} SpawnerRunKeepsCapacity(s: SpawnerState, passes: nat, maxLineSize: nat)
    requires s.queueLen <= maxLineSize
    ensures s.queueLen <= SpawnerRun(s, passes, maxLineSize).state.queueLen <= maxLineSize
    decreases passes
  {
    if passes > 0 {
      var r := SpawnerPass(s, maxLineSize);
      if r.goesOn {
        SpawnerRunKeepsCapacity(r.state, passes - 1, maxLineSize);
      }
    }
  }

  /** Left alone, a spawner with `k` customers in line fills the rest of the
      line, one pass per customer, and the pass after that ends the game. */
  lemma {:induction false} SpawnerFillsLine(k: nat, maxLineSize: nat)
    requires k <= maxLineSize
    ensures SpawnerRun(SpawnerState(k, true, true), maxLineSize - k + 1, maxLineSize)
         == SpawnerStep(SpawnerState(maxLineSize, false, true), false)
    decreases maxLineSize - k
  {
    if k < maxLineSize {
      SpawnerFillsLine(k + 1, maxLineSize);
    }
  }

  /** From an empty line, the game ends after exactly `maxLineSize + 1`
      passes with a full line. */
  lemma GameEndsWhenLineOverflows(maxLineSize: nat)
    ensures SpawnerRun(SpawnerState(0, true, true), maxLineSize + 1, maxLineSize)
         == SpawnerStep(SpawnerState(maxLineSize, false, true), false)
    ensures forall passes :: 0 <= passes <= maxLineSize ==>
      SpawnerRun(SpawnerState(0, true, true), passes, maxLineSize) == SpawnerStep(SpawnerState(passes, true, true), true)
  {
    SpawnerFillsLine(0, maxLineSize);
    forall passes | 0 <= passes <= maxLineSize
      ensures SpawnerRun(SpawnerState(0, true, true), passes, maxLineSize) == SpawnerStep(SpawnerState(passes, true, true), true)
    {
      SpawnerPartialRun(0, passes, maxLineSize);
    }
  }

  lemma {:induction false} SpawnerPartialRun(k: nat, passes: nat, maxLineSize: nat)
    requires k + passes <= maxLineSize
    ensures SpawnerRun(SpawnerState(k, true, true), passes, maxLineSize) == SpawnerStep(SpawnerState(k + passes, true, true), true)
    decreases passes
  {
    if passes > 0 {
      SpawnerPartialRun(k + 1, passes - 1, maxLineSize);
    }
  }

  // -------------------------------------------------------- shared state

  class LegacyState {
    const cfg: Config
    var customers: seq<Customer>
    var running: bool
    var doingCustomerSpawner: bool

    /** The queue is never longer than the line may be. */
    ghost predicate Valid()
      reads this
    {
      |customers| <= cfg.maxLineSize
    }

    function SpawnerView(): SpawnerState
      reads this
    {
      SpawnerState(|customers|, running, doingCustomerSpawner)
    }

    constructor (cfg: Config)
      ensures Valid()
      ensures this.cfg == cfg
      ensures customers == [] && running && doingCustomerSpawner
    {
      this.cfg := cfg;
      customers := [];
      running := true;
      doingCustomerSpawner := true;
    }

    /** One pass of the older spawner, with the queue and the flags it
        shares with the other tasks. */
    method SpawnerIteration() returns (goesOn: bool)
      requires Valid()
      modifies this
      ensures Valid()
      ensures SpawnerStep(SpawnerView(), goesOn) == SpawnerPass(old(SpawnerView()), cfg.maxLineSize)
      ensures |customers| == |old(customers)| ==> customers == old(customers)
      ensures |customers| != |old(customers)| ==>
        && customers[..|old(customers)|] == old(customers)
        && fresh(customers[|old(customers)|])
        && customers[|old(customers)|].bits == 0
    {
      if !running {
        return false;
      }
      if !doingCustomerSpawner {
        return true;
      }
      if cfg.maxLineSize > |customers| {
        var c := new Customer();
        customers := customers + [c];
        goesOn := true;
      } else {
        running := false;
        goesOn := false;
      }
    }

    /** One pass of the older input loop: it exits when the game has
        stopped; Esc stops the game and exits; anything else is ignored. */
    method InputIteration(polled: Polled) returns (stop: bool)
      modifies this`running
      ensures stop <==> !old(running) || IsEsc(polled)
      ensures running == (old(running) && !IsEsc(polled))
    {
      if !running {
        return true;
      }
      if IsEsc(polled) {
        running := false;
        return true;
      }
      return false;
    }
  }
}
