/** The render loop's state: the last frame it drew and the fixed column
    widths. Each tick computes the frame and redraws the panels that changed. */
module Render {
  import opened Text
  import opened Players
  import opened Configuration
  import opened Frames

  /** The drinks menu and the queue bar. */
  const PanelCount: nat := 2

  /** A width that bounds every level's menu and is attained by one of them
      (or is 0 when there are none) is the widest menu line. */
  lemma MaxDrinksWidthIsUnique(drinks: map<string, seq<string>>, w: nat)
    requires forall k :: k in drinks ==> MenuWidth(drinks[k]) <= w
    requires (drinks == map[] && w == 0) || exists k :: k in drinks && MenuWidth(drinks[k]) == w
    ensures w == MaxDrinksWidth(drinks)
  {
    if drinks != map[] {
      var k :| k in drinks && MenuWidth(drinks[k]) == MaxDrinksWidth(drinks);
      assert MaxDrinksWidth(drinks) <= w;
    }
  }

  /** `max_drinks_width`, computed as the render thread does before its
      loop: the longest "Drinks:" or indented-item line over every level's
      menu, 0 when there is none. The levels are visited in no set order. */
  method ComputeMaxDrinksWidth(drinks: map<string, seq<string>>) returns (w: nat)
    ensures w == MaxDrinksWidth(drinks)
  {
    w := 0;
    var todo := drinks.Keys;
    while todo != {}
      invariant todo <= drinks.Keys
      invariant forall k :: k in drinks.Keys - todo ==> MenuWidth(drinks[k]) <= w
      invariant (todo == drinks.Keys && w == 0) || exists k :: k in drinks.Keys - todo && MenuWidth(drinks[k]) == w
      decreases todo
    {
      var k :| k in todo;
      var width := MenuWidth(drinks[k]);
      if width > w {
        w := width;
      }
      todo := todo - {k};
    }
    assert drinks == map[] <==> drinks.Keys == {};
    MaxDrinksWidthIsUnique(drinks, w);
  }

  /** `render_widths`: one fixed width, the drinks column's. */
  method ComputeRenderWidths(cfg: Config) returns (widths: seq<nat>)
    ensures widths == RenderWidths(cfg)
  {
    var maxDrinksWidth := ComputeMaxDrinksWidth(cfg.drinks);
    widths := PaddedWidths(cfg.rightSideMenuPadding, maxDrinksWidth);
  }

  class Renderer {
    const cfg: Config
    var lastRender: seq<string>
    const renderWidths: seq<nat>

    ghost predicate Valid()
      reads this
    {
      && |lastRender| == PanelCount
      && renderWidths == RenderWidths(cfg)
    }

    /** The render thread's set-up: the drinks column is the padding plus
        the widest menu line, later panels have no fixed width, and before
        the first tick every panel counts as drawn empty. */
    constructor (cfg: Config)
      ensures Valid()
      ensures this.cfg == cfg
      ensures renderWidths == RenderWidths(cfg)
      ensures lastRender == ["", ""]
    {
      this.cfg := cfg;
      var widths := ComputeRenderWidths(cfg);
      renderWidths := widths;
      lastRender := ["", ""];
    }

    /** The diff-and-write loop: when the frame differs from the last one,
        walk the panels left to right, keeping the running column, write each
        changed panel there padded to its width, then keep the new frame. */
    method Redraw(current: seq<string>) returns (writes: seq<Write>)
      requires |current| <= |lastRender|
      modifies this`lastRender
      ensures writes == Diff(old(lastRender), current, renderWidths).writes
      ensures lastRender == current
    {
      writes := [];
      if current != lastRender {
        var leftGap: nat := 1;
        for i := 0 to |current|
          invariant leftGap == Column(renderWidths, current, i)
          invariant writes == WritesAt(renderWidths, current, ChangedPanels(lastRender, current, i))
        {
          var width := if i < |renderWidths| then renderWidths[i] else MaxLineLen(current[i]);
          ghost var before := ChangedPanels(lastRender, current, i);
          if current[i] != lastRender[i] {
            writes := writes + [Write(leftGap, PadRight(current[i], width))];
            assert WritesAt(renderWidths, current, before + [i])
              == WritesAt(renderWidths, current, before) + [PanelWrite(renderWidths, current, i)];
          } else {
            assert before + [] == before;
          }
          leftGap := leftGap + width;
        }
        lastRender := current;
      }
    }

    /** One tick of the render loop: draw the frame for the player and the
        queue length, and redraw what changed. */
    method Tick(player: Player, queueLen: nat) returns (writes: seq<Write>)
      requires Valid()
      modifies this`lastRender
      ensures Valid()
      ensures writes == Diff(old(lastRender), Frame(cfg, player, queueLen), RenderWidths(cfg)).writes
      ensures lastRender == Frame(cfg, player, queueLen)
    {
      var current := [DrinksPanel(cfg.drinks, LevelKey(player)), QueueBar(queueLen, cfg.maxLineSize)];
      writes := Redraw(current);
    }
  }
}
