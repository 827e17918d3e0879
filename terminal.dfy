/** What one poll of the terminal can yield. Only the Esc key matters to the
    game; every other key and every non-key event is ignored. */
module Terminal {

  datatype KeyCode = Esc | OtherKey

  datatype TerminalEvent = Key(code: KeyCode) | NonKey

  /** A poll either times out or yields one event. */
  datatype Polled = TimedOut | Got(event: TerminalEvent)

  predicate IsEsc(p: Polled) {
    p == Got(Key(Esc))
  }
}
