/** A menu item: its text, the escape sequence that sets its font, and
    whether it is hovered, in which case it is drawn in reverse video. */
module Hoverables {

  /** ANSI "reverse video on". */
  const Reverse: string := "\U{1B}[7m"
  /** ANSI "reset all attributes". */
  const Reset: string := "\U{1B}[0m"

  datatype Hoverable = Hoverable(text: string, font: string, hovered: bool)

  /** The item as a deserialised configuration entry with every field left
      out: empty text, the reset sequence as font, not hovered. */
  function DefaultHoverable(): (h: Hoverable)
    ensures !h.hovered
    ensures Render(h) == Reset + Reset
  {
    Hoverable("", Reset, false)
  }

  /** What is drawn before the text: reverse video when hovered, nothing otherwise. */
  function Emphasis(h: Hoverable): string {
    if h.hovered then Reverse else ""
  }

  /** `From<Hoverable> for String`. The result takes apart into the font,
      the emphasis, the text and the closing reset, in that order. */
  function Render(h: Hoverable): (s: string)
    ensures |s| == |h.font| + |Emphasis(h)| + |h.text| + |Reset|
    ensures s[..|h.font|] == h.font
    ensures s[|h.font|..|h.font| + |Emphasis(h)|] == Emphasis(h)
    ensures s[|h.font| + |Emphasis(h)|..|s| - |Reset|] == h.text
    ensures s[|s| - |Reset|..] == Reset
  {
    if h.hovered then h.font + Reverse + h.text + Reset
    else h.font + h.text + Reset
  }

  /** Hovering an item only inserts the reverse-video sequence after the font. */
  lemma HoveredAddsReverse(h: Hoverable)
    ensures Render(h.(hovered := true)) == h.font + Reverse + h.text + Reset
    ensures Render(h.(hovered := false)) == h.font + h.text + Reset
    ensures |Render(h.(hovered := true))| == |Render(h.(hovered := false))| + |Reverse| == |Render(h.(hovered := false))| + 4
  {
  }

  /** Two items with the same font and hover state draw the same string only
      if they have the same text. */
  lemma RenderDeterminesText(a: Hoverable, b: Hoverable)
    requires a.font == b.font && a.hovered == b.hovered
    requires Render(a) == Render(b)
    ensures a.text == b.text
  {
  }
}
