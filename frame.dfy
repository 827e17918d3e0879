/** What the render loop draws: a frame of two panels, the drinks menu for
    the player's level and the bar that shows how full the customer queue is,
    and the differential redraw that turns the last frame and the new one
    into the cursor-positioned writes that bring the screen up to date. */
module Frames {
  import opened Text
  import opened Players
  import opened Configuration

  const DrinksHeader: string := "Drinks:"
  const NoDrinksLine: string := "  No drinks available."
  const Indent: string := "  "
  /** Glyph of a taken place in the queue bar. */
  const Occupied: char := '|'
  /** Glyph of a free place in the queue bar. */
  const Free: char := '-'

  function Min(a: nat, b: nat): nat { if a < b then a else b }

  // ---------------------------------------------------------------- panels

  /** `player.level().to_string()`: the decimal digit of the level. */
  function LevelKey(p: Player): (key: string)
    ensures |key| == 1 && '0' <= key[0] <= '3'
    ensures p.Level() == 0 <==> key == "0"
  {
    [('0' as int + p.Level() as int) as char]
  }

  function Indented(items: seq<string>): seq<string> {
    seq(|items|, i requires 0 <= i < |items| => Indent + items[i])
  }

  /** The lines of a menu as the drinks panel shows them. */
  function MenuLines(items: seq<string>): seq<string> {
    [DrinksHeader] + Indented(items)
  }

  /** The drinks panel: the header, then either every item of the menu for
      `levelKey`, indented, one per line, or the fallback line. */
  function DrinksPanel(drinks: map<string, seq<string>>, levelKey: string): string {
    DrinksHeader + "\n" +
      (if levelKey in drinks then Join(Indented(drinks[levelKey]), "\n") else NoDrinksLine)
  }

  lemma IndentedArePlain(items: seq<string>)
    requires forall i :: 0 <= i < |items| ==> PlainLine(items[i])
    ensures forall k :: 0 <= k < |Indented(items)| ==> Indented(items)[k] != [] && PlainLine(Indented(items)[k])
  {
    forall k | 0 <= k < |items|
      ensures Indented(items)[k] != [] && PlainLine(Indented(items)[k])
    {
      var line := Indent + items[k];
      assert line[0] == ' ';
      assert forall j :: 0 <= j < |line| ==> line[j] == ' ' || line[j] in items[k];
    }
  }

  lemma PanelTextsArePlain()
    ensures DrinksHeader != [] && PlainLine(DrinksHeader)
    ensures NoDrinksLine != [] && PlainLine(NoDrinksLine)
  {
  }

  /** Without a menu for the level the panel is exactly the header and the
      fallback line. */
  lemma DrinksPanelFallback(drinks: map<string, seq<string>>, levelKey: string)
    requires levelKey !in drinks
    ensures DrinksPanel(drinks, levelKey) == "Drinks:\n  No drinks available."
  {
  }

  /** ... and it shows as those two lines. */
  lemma DrinksPanelFallbackLines(drinks: map<string, seq<string>>, levelKey: string)
    requires levelKey !in drinks
    ensures Lines(DrinksPanel(drinks, levelKey)) == [DrinksHeader, NoDrinksLine]
  {
    var panel := DrinksPanel(drinks, levelKey);
    assert panel == DrinksHeader + "\n" + NoDrinksLine;
    PanelTextsArePlain();
    LinesCons(DrinksHeader, NoDrinksLine);
    LinesOfPlain(NoDrinksLine);
    assert Lines(panel) == [DrinksHeader] + [NoDrinksLine];
  }

  /** With a menu for the level, the panel's lines are the header and the
      menu's items, indented, in the menu's order. */
  lemma DrinksPanelLines(drinks: map<string, seq<string>>, levelKey: string)
    requires levelKey in drinks
    requires forall i :: 0 <= i < |drinks[levelKey]| ==> PlainLine(drinks[levelKey][i])
    ensures Lines(DrinksPanel(drinks, levelKey)) == MenuLines(drinks[levelKey])
  {
    PanelTextsArePlain();
    var lines := Indented(drinks[levelKey]);
    IndentedArePlain(drinks[levelKey]);
    LinesCons(DrinksHeader, Join(lines, "\n"));
    LinesOfJoin(lines);
  }

  /** The queue bar: `maxLineSize` glyphs, the first `queueLen` of them
      taken. It is a run of taken glyphs followed by a run of free ones, and
      it shows as many taken glyphs as there are customers, up to the maximum. */
  function QueueBar(queueLen: nat, maxLineSize: nat): (bar: string)
    ensures |bar| == maxLineSize
    ensures bar == Repeat(Occupied, Min(queueLen, maxLineSize)) + Repeat(Free, maxLineSize - Min(queueLen, maxLineSize))
    ensures Count(Occupied, bar) == Min(queueLen, maxLineSize)
    ensures Count(Free, bar) == maxLineSize - Min(queueLen, maxLineSize)
  {
    var bar := seq(maxLineSize, i => if i < queueLen then Occupied else Free);
    var taken := Min(queueLen, maxLineSize);
    assert bar == Repeat(Occupied, taken) + Repeat(Free, maxLineSize - taken);
    CountAppend(Occupied, Repeat(Occupied, taken), Repeat(Free, maxLineSize - taken));
    CountAppend(Free, Repeat(Occupied, taken), Repeat(Free, maxLineSize - taken));
    CountRepeat(Occupied, Occupied, taken);
    CountRepeat(Occupied, Free, maxLineSize - taken);
    CountRepeat(Free, Occupied, taken);
    CountRepeat(Free, Free, maxLineSize - taken);
    bar
  }

  /** The queue bar is one line, as wide as the queue is long. */
  lemma QueueBarWidth(queueLen: nat, maxLineSize: nat)
    ensures MaxLineLen(QueueBar(queueLen, maxLineSize)) == maxLineSize
  {
    var bar := QueueBar(queueLen, maxLineSize);
    assert IsAscii(bar) && PlainLine(bar) by {
      assert forall i :: 0 <= i < |bar| ==> bar[i] == Occupied || bar[i] == Free;
    }
    if bar != [] {
      LinesOfPlain(bar);
    }
  }

  /** The frame for a player and a queue length, panel by panel. */
  function Frame(cfg: Config, player: Player, queueLen: nat): seq<string> {
    [DrinksPanel(cfg.drinks, LevelKey(player)), QueueBar(queueLen, cfg.maxLineSize)]
  }

  // -------------------------------------------------------------- widths

  /** The widest line any level's drinks panel can show. */
  function MenuWidth(items: seq<string>): (w: nat)
    ensures w >= |DrinksHeader|
  {
    assert ByteLen(MenuLines(items)[0]) == |DrinksHeader|;
    MaxByteLen(MenuLines(items))
  }

  /** The largest width over a set of levels, 0 for none. */
  ghost function MaxWidthOver(widths: map<string, nat>, keys: set<string>): (w: nat)
    requires keys <= widths.Keys
    ensures keys == {} ==> w == 0
    ensures forall k :: k in keys ==> widths[k] <= w
    ensures keys != {} ==> exists k :: k in keys && widths[k] == w
    decreases keys
  {
    if keys == {} then 0
    else
      var k :| k in keys;
      var rest := MaxWidthOver(widths, keys - {k});
      assert forall k' :: k' in keys ==> k' == k || k' in keys - {k};
      Max(widths[k], rest)
  }

  /** `max_drinks_width`: the byte length of the longest of "Drinks:" and the
      indented items, over the menus of all levels; 0 without any menu, and
      never less than the header when there is one. */
  ghost function MaxDrinksWidth(drinks: map<string, seq<string>>): (w: nat)
    ensures drinks == map[] ==> w == 0
    ensures drinks != map[] ==> w >= |DrinksHeader|
    ensures forall k :: k in drinks ==> MenuWidth(drinks[k]) <= w
    ensures drinks != map[] ==> exists k :: k in drinks && MenuWidth(drinks[k]) == w
  {
    assert drinks == map[] <==> drinks.Keys == {};
    var widths := map k | k in drinks :: MenuWidth(drinks[k]);
    MaxWidthOver(widths, drinks.Keys)
  }

  /** `render_widths`: the drinks panel's column is the padding plus the
      widest menu line; later panels have no fixed width. */
  ghost function RenderWidths(cfg: Config): seq<nat> {
    PaddedWidths(cfg.rightSideMenuPadding, MaxDrinksWidth(cfg.drinks))
  }

  /** The fixed column widths for a padding and a widest menu line. */
  function PaddedWidths(padding: nat, maxDrinksWidth: nat): (widths: seq<nat>)
    ensures |widths| == 1 && widths[0] >= maxDrinksWidth
  {
    [padding + maxDrinksWidth]
  }

  /** With a menu for the level, no line of the panel is wider than the
      menu, even when an item holds line breaks of its own: every line lies
      inside the header or inside one indented item. */
  lemma PanelNoWiderThanMenu(drinks: map<string, seq<string>>, levelKey: string)
    requires levelKey in drinks
    ensures MaxLineLen(DrinksPanel(drinks, levelKey)) <= MenuWidth(drinks[levelKey])
  {
    var items := drinks[levelKey];
    var m := MenuWidth(items);
    var segs := if items == [] then [DrinksHeader, ""] else MenuLines(items);
    assert DrinksPanel(drinks, levelKey) == Join(segs, "\n") by {
      if items != [] {
        assert segs[1..] == Indented(items);
      }
    }
    forall k | 0 <= k < |segs|
      ensures ByteLen(segs[k]) <= m
    {
      if items == [] && k == 1 {
        assert segs[k] == [];
      } else {
        assert segs[k] == MenuLines(items)[k];
      }
    }
    JoinLinesNoWiderThanSegments(segs, m);
  }

  /** Every line of a level's drinks panel fits in the drinks column before
      its padding, and the queue bar is exactly as wide as the queue. */
  lemma FramePanelsFit(cfg: Config, player: Player, queueLen: nat)
    requires LevelKey(player) in cfg.drinks
    ensures MaxLineLen(Frame(cfg, player, queueLen)[0]) <= MaxDrinksWidth(cfg.drinks)
    ensures MaxLineLen(Frame(cfg, player, queueLen)[0]) + cfg.rightSideMenuPadding <= RenderWidths(cfg)[0]
    ensures MaxLineLen(Frame(cfg, player, queueLen)[1]) == cfg.maxLineSize
  {
    PanelNoWiderThanMenu(cfg.drinks, LevelKey(player));
    QueueBarWidth(queueLen, cfg.maxLineSize);
  }

  /** "Drinks:" is 7 bytes wide and `"  No drinks available."` 22. */
  lemma PanelTextWidths()
    ensures ByteLen(DrinksHeader) == 7
    ensures ByteLen(NoDrinksLine) == 22
  {
    assert IsAscii(DrinksHeader);
    assert IsAscii(NoDrinksLine);
  }

  /** The widest line of the fallback panel is the fallback line, 22 bytes. */
  lemma FallbackPanelWidth(drinks: map<string, seq<string>>, levelKey: string)
    requires levelKey !in drinks
    ensures MaxLineLen(DrinksPanel(drinks, levelKey)) == 22
  {
    var panel := DrinksPanel(drinks, levelKey);
    DrinksPanelFallbackLines(drinks, levelKey);
    MaxByteLenOfTwo(DrinksHeader, NoDrinksLine);
    PanelTextWidths();
  }

  /** As written, `max_drinks_width` is measured over the configured menus
      only. When the player's level has no menu and every menu is narrower
      than the fallback line, the fallback panel is wider than its column,
      and with no menus at all the queue bar starts right after the padding,
      inside the "Drinks:" header it shares the first row with. */
  lemma FallbackPanelOverflowsColumn(cfg: Config, player: Player, queueLen: nat)
    requires LevelKey(player) !in cfg.drinks
    requires forall k :: k in cfg.drinks ==> MenuWidth(cfg.drinks[k]) < 22
    ensures MaxLineLen(Frame(cfg, player, queueLen)[0]) == 22
    ensures MaxDrinksWidth(cfg.drinks) < MaxLineLen(Frame(cfg, player, queueLen)[0])
    ensures cfg.drinks == map[] ==> Column(RenderWidths(cfg), Frame(cfg, player, queueLen), 1) == 1 + cfg.rightSideMenuPadding
  {
    FallbackPanelWidth(cfg.drinks, LevelKey(player));
    if cfg.drinks != map[] {
      var k :| k in cfg.drinks && MenuWidth(cfg.drinks[k]) == MaxDrinksWidth(cfg.drinks);
    }
  }

  /** The drinks column width that also makes room for the fallback line. */
  ghost function FittedDrinksWidth(drinks: map<string, seq<string>>): (w: nat)
    ensures w >= MaxDrinksWidth(drinks) && w >= 22
    ensures w == MaxDrinksWidth(drinks) || w == 22
  {
    Max(MaxDrinksWidth(drinks), 22)
  }

  /** With the fitted width, the drinks panel of every level fits its column,
      whether the level has a menu or shows the fallback line. */
  lemma FittedWidthHoldsEveryPanel(drinks: map<string, seq<string>>, levelKey: string)
    ensures MaxLineLen(DrinksPanel(drinks, levelKey)) <= FittedDrinksWidth(drinks)
  {
    if levelKey in drinks {
      PanelNoWiderThanMenu(drinks, levelKey);
    } else {
      FallbackPanelWidth(drinks, levelKey);
    }
  }

  // -------------------------------------------------------------- redraw

  /** Move the cursor to `column` of the first row and print `text`. */
  datatype Write = Write(column: nat, text: string)

  /** The outcome of one redraw: what is written, and the new last frame. */
  datatype Redraw = Redraw(writes: seq<Write>, lastRender: seq<string>)

  /** The width of panel `i`: its entry in `widths`, or else its longest line. */
  function PanelWidth(widths: seq<nat>, current: seq<string>, i: nat): nat
    requires i < |current|
  {
    if i < |widths| then widths[i] else MaxLineLen(current[i])
  }

  /** The column panel `i` starts at: 1 plus the widths of the panels before it. */
  function Column(widths: seq<nat>, current: seq<string>, i: nat): (c: nat)
    requires i <= |current|
    ensures c >= 1
  {
    if i == 0 then 1 else Column(widths, current, i - 1) + PanelWidth(widths, current, i - 1)
  }

  /** Panel columns do not overlap: a panel ends at or before the column of
      every later panel. */
  lemma {:induction false} ColumnsIncrease(widths: seq<nat>, current: seq<string>, i: nat, j: nat)
    requires i < j <= |current|
    ensures Column(widths, current, i) + PanelWidth(widths, current, i) <= Column(widths, current, j)
    decreases j
  {
    if i + 1 < j {
      ColumnsIncrease(widths, current, i, j - 1);
    }
  }

  /** A single-line panel no wider than its column is written padded to
      exactly that width, so its write ends at or before the column of every
      later panel. */
  lemma WritesDoNotOverlap(widths: seq<nat>, current: seq<string>, i: nat, j: nat)
    requires i < j < |current|
    requires PlainLine(current[i]) && |current[i]| <= PanelWidth(widths, current, i)
    ensures |PanelWrite(widths, current, i).text| == PanelWidth(widths, current, i)
    ensures PanelWrite(widths, current, i).column + |PanelWrite(widths, current, i).text| <= PanelWrite(widths, current, j).column
  {
    ColumnsIncrease(widths, current, i, j);
  }

  /** The indices below `n` of the panels that differ from the last frame, in
      increasing order. */
  function ChangedPanels(last: seq<string>, current: seq<string>, n: nat): (idx: seq<nat>)
    requires n <= |current| <= |last|
    ensures forall k :: 0 <= k < |idx| ==> idx[k] < n && current[idx[k]] != last[idx[k]]
    ensures forall i :: 0 <= i < n && current[i] != last[i] ==> i in idx
    ensures forall k, l :: 0 <= k < l < |idx| ==> idx[k] < idx[l]
  {
    if n == 0 then []
    else ChangedPanels(last, current, n - 1) + (if current[n - 1] != last[n - 1] then [n - 1] else [])
  }

  /** The write that redraws panel `i` at its column, padded to its width. */
  function PanelWrite(widths: seq<nat>, current: seq<string>, i: nat): Write
    requires i < |current|
  {
    Write(Column(widths, current, i), PadRight(current[i], PanelWidth(widths, current, i)))
  }

  function WritesAt(widths: seq<nat>, current: seq<string>, idx: seq<nat>): seq<Write>
    requires forall k :: 0 <= k < |idx| ==> idx[k] < |current|
  {
    seq(|idx|, k requires 0 <= k < |idx| => PanelWrite(widths, current, idx[k]))
  }

  /** One redraw: nothing when the frame is unchanged; otherwise a write for
      every changed panel, and the new frame becomes the last one. */
  function Diff(last: seq<string>, current: seq<string>, widths: seq<nat>): (r: Redraw)
    requires |current| <= |last|
    ensures r.lastRender == current
  {
    if current == last then Redraw([], last)
    else Redraw(WritesAt(widths, current, ChangedPanels(last, current, |current|)), current)
  }

  lemma {:induction false} NothingChangedInSameFrame(frame: seq<string>, n: nat)
    requires n <= |frame|
    ensures ChangedPanels(frame, frame, n) == []
  {
    if n > 0 {
      NothingChangedInSameFrame(frame, n - 1);
    }
  }

  /** A redraw writes exactly the panels that changed, each once, in panel
      order, each at its column and padded to its width; it writes nothing
      when the frame is unchanged, and something when a panel changed. */
  lemma DiffWritesChangedPanels(last: seq<string>, current: seq<string>, widths: seq<nat>)
    requires |current| <= |last|
    ensures var ws := Diff(last, current, widths).writes;
      var idx := ChangedPanels(last, current, |current|);
      && |ws| == |idx|
      && (forall k :: 0 <= k < |ws| ==> ws[k] == PanelWrite(widths, current, idx[k]))
      && (forall i :: 0 <= i < |current| ==> (i in idx <==> current[i] != last[i]))
      && (forall k, l :: 0 <= k < l < |idx| ==> idx[k] < idx[l])
    ensures current == last ==> Diff(last, current, widths).writes == []
    ensures |current| == |last| && current != last ==> Diff(last, current, widths).writes != []
  {
    if current == last {
      NothingChangedInSameFrame(current, |current|);
    } else if |current| == |last| {
      var i :| 0 <= i < |current| && current[i] != last[i];
      assert i in ChangedPanels(last, current, |current|);
    }
  }
}
