# coffeeCoffee: a verified model of the game's core rules

coffeeCoffee is a small terminal game. Customers join a line at a fixed
interval, up to `max_line_size` of them, and the game ends when one more
arrives at a full line. The screen shows two panels side by side:

- the drinks menu for the player's level;
- a queue bar with one bar glyph per waiting customer and `-` for each free place.

The renderer redraws only the panels that changed.

Two versions of the loop exist:

- `src/gameplay.rs` is the thread-and-event-bus version. An input thread and a spawner thread publish events. One handler thread applies them to the shared queue and flags. A buttons thread keeps a cache of the current menu.
- `src/main.rs` is the older task-based version. Its spawner pushes customers itself and its input task stops the game on Esc.

Under the threads, locks and channels is a set of small sequential rules. This project models those rules:

- `customer.dfy`, module `Customers`: the one-byte customer record. The wait-time tolerance sits in the low nibble and the desired drink id in the high nibble. `Customer` is a class because its setters update the byte in place.
- `player.dfy`, module `Players`: the one-byte player record. The level sits in bits 0-1 and the customers-served count in bits 2-7. The source never changes a player, so it is a value.
- `hoverable.dfy`, module `Hoverables`: a menu item and its rendering to a string with an ANSI font prefix, optional reverse video and a reset suffix.
- `config.dfy`, module `Configuration`: the settings record and its defaults.
- `text.dfy`, module `Text`: the parts of Rust's string library the renderer uses:
  - `str::len` in UTF-8 bytes;
  - `str::lines`, including its handling of `"\r\n"` and of a final line feed;
  - `join`;
  - `{:<width$}` padding, which counts characters.
- `frame.dfy`, module `Frames`:
  - the frame, which is the drinks panel with its fallback next to the queue bar;
  - `max_drinks_width` and `render_widths`;
  - the differential redraw as a function from the last frame, the new frame and the widths to the list of `(column, padded text)` writes and the new last frame.
- `render.dfy`, module `Render`: the render loop's state, which is the last frame and the fixed widths. Its diff-and-write loop is a method proved equal to that function.
- `terminal.dfy`, module `Terminal`: what one poll of the terminal can yield.
- `gameplay.dfy`, module `Gameplay`: the event-bus game, with the handler's dispatch step as a function on a control record and as a method on the shared state. It also holds the spawner's decision, the input step and the buttons refresh.
- `legacy.dfy`, module `Legacy`: the older game, with its level-0-only frame, its default configuration, its self-limiting spawner and its Esc step.

The key invariant, that the queue never holds more than `max_line_size` customers, is proved in three places:

- for one handled event (`Gameplay.Dispatch`, `Gameplay.SharedState.HandleEvent`);
- for any sequence of events (`Gameplay.DispatchAllKeepsCapacity`);
- for the older spawner, one pass and any number of passes (`Legacy.SpawnerPass`, `Legacy.LegacyState.SpawnerIteration`, `Legacy.SpawnerRunKeepsCapacity`).

Where the prose description of the game and the code disagree, the model follows the code:

- Menu items are deserialised as `Hoverable` records (`src/hoverable.rs:6-16`). Every field has a default: a missing `text` is empty, a missing `font` is the reset sequence and a missing `hovered` is false. The derived deserialiser also accepts the array form `[text, font, hovered]`. Only a bare string is refused. The model starts from the record, so how it was spelled in the file is not modelled.
- `src/gameplay.rs` does not compile as shown. Its `events` module is missing. It also formats `Hoverable` with `{}` (src/gameplay.rs:74), clones it (src/gameplay.rs:147) and compares it (src/gameplay.rs:156), but `src/hoverable.rs` implements none of `Display`, `Clone` or `PartialEq`. Separately, `default_drinks` in `src/config.rs:41` relies on a `Default` for `Hoverable` that does not exist. Menu items are therefore modelled as the strings they are drawn as, and events as a datatype of the three named events plus one for the catch-all arms.

## Model

| member | source | states |
|---|---|---|
| Customers.MasksPartitionByte | src/customer.rs:6-7 | The wait-time and desired-drink masks share no bit and together cover the whole byte. |
| Customers.WaitTimeOf | src/customer.rs:14-16 | `wait_time()` is at most 15 and is the byte modulo 16, i.e. the low nibble. |
| Customers.DesiredDrinkOf | src/customer.rs:17-19 | `desired_drink()` is at most 15 and is the byte divided by 16, i.e. the high nibble. |
| Customers.WithWaitTime | src/customer.rs:22-24 | After `set_wait_time(t)`, `wait_time()` reads `t & 0xF` and `desired_drink()` is unchanged. |
| Customers.WithDesiredDrink | src/customer.rs:25-27 | After `set_desired_drink(id)`, `desired_drink()` reads `id & 0xF` and `wait_time()` is unchanged. |
| Customers.ByteIsItsFields | src/customer.rs:14-19 | The byte is the bitwise OR of `wait_time()` and `desired_drink() << 4`. |
| Customers.FieldsDetermineByte | src/customer.rs:14-19 | Two customers whose getters agree are the same byte, so the getters lose nothing. |
| Customers.SettersIdempotent | src/customer.rs:22-27 | Applying either setter twice with the same argument is the same as applying it once. |
| Customers.SettersCommute | src/customer.rs:22-27 | Setting the wait time and the drink id gives the same byte in either order. |
| Customers.Customer.constructor | src/customer.rs:9-11 | `Customer::new()` is the zero byte, with wait time 0 and drink id 0. |
| Customers.Customer.SetWaitTime | src/customer.rs:22-24 | Updates the byte in place to `WithWaitTime` of the old byte. The new wait time is `t & 0xF` and the drink id is unchanged. |
| Customers.Customer.SetDesiredDrink | src/customer.rs:25-27 | Updates the byte in place to `WithDesiredDrink` of the old byte. The new drink id is `id & 0xF` and the wait time is unchanged. |
| Players.MasksPartitionByte | src/player.rs:6-7 | `LEVEL_MASK` and `CUSTOMERS_SERVED_MASK` are disjoint and together equal `0xFF`. |
| Players.Player.Level | src/player.rs:14-16 | `level()` is at most 3 and is the byte modulo 4. |
| Players.Player.CustomersServedAsWritten | src/player.rs:17-19 | `customers_served()` as written, `(b & 0xFC) >> 6`, is at most 3 and is the byte divided by 64. It depends only on bits 6-7. |
| Players.Player.CustomersServed | src/player.rs:7 | The count the mask and its "up to 63" comment intend, `(b & 0xFC) >> 2`, is at most 63 and is the byte divided by 4. |
| Players.NewPlayer | src/player.rs:9-11 | `Player::new()` has level 0 and has served nobody, under either reading of the count. |
| Players.LevelReadsLowBitsOnly | src/player.rs:14-16 | Two bytes that agree on bits 0-1 have the same level. |
| Players.CustomersServedRoundTrip | src/player.rs:6-7 | With the intended shift, any level up to 3 and any count up to 63 packed into a byte read back unchanged. |
| Players.PlayerFieldsDetermineByte | src/player.rs:14-19 | With the intended shift, players that agree on level and count are the same byte. |
| Players.CustomersServedAsWrittenLosesCount | src/player.rs:17-19 | As written, one customer served reads as 0 and a full count of 63 reads as 3. The bytes `0` and `1 << 2` read the same, though the corrected getter tells them apart. |
| Hoverables.DefaultHoverable | src/hoverable.rs:18-20 | The all-default item (empty text, reset font, not hovered) renders as two reset sequences. |
| Hoverables.Render | src/hoverable.rs:22-30 | The rendering splits, in order, into the font, the reverse-video code exactly when hovered, the text and the reset sequence. Its length is the sum of those. |
| Hoverables.HoveredAddsReverse | src/hoverable.rs:24-28 | A hovered item is `font + REVERSE + text + RESET` and a plain one is `font + text + RESET`. The hovered one is exactly 4 characters longer. |
| Hoverables.RenderDeterminesText | src/hoverable.rs:22-30 | For the same font and hover state, equal renderings mean equal texts. |
| Text.Utf8Width | src/gameplay.rs:53 | A character takes 1 to 4 bytes, and 1 exactly when it is ASCII. |
| Text.ByteLen | src/gameplay.rs:53 | `str::len` lies between the character count and four times it, and equals the character count exactly for ASCII text. |
| Text.NewlineIndex | src/gameplay.rs:107 | Finds the first line feed. No earlier character is one. |
| Text.Lines | src/gameplay.rs:107 | `str::lines` yields at most as many lines as there are characters, and no line holds a line feed. |
| Text.LinesOfPlain | src/gameplay.rs:107 | Non-empty text without line breaks is one line. |
| Text.LinesCons | src/gameplay.rs:107 | A plain line followed by `"\n"` and more text is that line followed by the lines of the rest. |
| Text.LinesOfJoin | src/gameplay.rs:72-76 | Joining non-empty plain lines with `"\n"` and splitting the result with `lines()` gives them back. |
| Text.Join | src/gameplay.rs:72-76 | `join` with a separator. `Text.LinesOfJoin` proves that `lines()` gives the joined lines back. |
| Text.MaxByteLen | src/gameplay.rs:108-110 | The longest byte length of a list of lines bounds every line and is attained, or is 0 for no lines. |
| Text.MaxByteLenOfTwo | src/gameplay.rs:108-110 | The widest of two lines is the larger of their byte lengths. |
| Text.MaxLineLen | src/gameplay.rs:107-110 | A panel's widest line in bytes. `Frames.QueueBarWidth` and `Frames.FramePanelsFit` state it for the two panels. |
| Text.Repeat | src/gameplay.rs:86-95 | `n` copies of a character: length `n`, every element that character. |
| Text.PadRight | src/gameplay.rs:115 | `{:<width$}` keeps the text as a prefix and adds spaces up to `width` characters, never shortening. |
| Text.CountAppend | src/gameplay.rs:86-95 | Occurrences of a character in a concatenation add up. |
| Text.CountRepeat | src/gameplay.rs:86-95 | `n` copies of `c` hold `n` occurrences of `c` and none of any other character. |
| Frames.LevelKey | src/gameplay.rs:63 | `level().to_string()` is a single digit from `"0"` to `"3"`, and is `"0"` exactly for level 0. |
| Frames.DrinksPanel | src/gameplay.rs:66-79 | The drinks panel text. Its lines are stated by `Frames.DrinksPanelLines` and its fallback text by `Frames.DrinksPanelFallback`. |
| Frames.IndentedArePlain | src/gameplay.rs:74 | Two-space-indented plain items are non-empty plain lines. |
| Frames.PanelTextsArePlain | src/gameplay.rs:66-79 | `"Drinks:"` and the fallback line are non-empty single lines. |
| Frames.DrinksPanelFallback | src/gameplay.rs:78 | Without a menu for the level key the panel is exactly `"Drinks:\n  No drinks available."`. |
| Frames.DrinksPanelFallbackLines | src/gameplay.rs:66-79 | That fallback panel shows as the two lines `"Drinks:"` and `"  No drinks available."`. |
| Frames.DrinksPanelLines | src/gameplay.rs:66-79 | With a menu for the level key whose items hold no line break, the panel's lines are `"Drinks:"` then each item with two leading spaces, in config order. An item with a line break of its own would show as several lines, so this lemma requires plain items. |
| Frames.QueueBar | src/gameplay.rs:83-96 | The bar has exactly `max_line_size` characters: `min(len, max_line_size)` bar glyphs then `-` for the rest. It holds one bar glyph per customer, up to the maximum, and a `-` per free place. |
| Frames.QueueBarWidth | src/gameplay.rs:104-111 | The bar is a single line as wide as the line of customers may be long. |
| Frames.Frame | src/gameplay.rs:60-98 | The frame is the drinks panel for the player's level key, then the queue bar. `Frames.FramePanelsFit` states their widths. |
| Frames.MenuWidth | src/gameplay.rs:48-55 | A menu's widest line is never narrower than `"Drinks:"`. |
| Frames.MaxWidthOver | src/gameplay.rs:44-56 | The largest menu width over a set of levels bounds each of them and is attained, or is 0 for none. |
| Frames.MaxDrinksWidth | src/gameplay.rs:44-56 | `max_drinks_width` is the byte length of the longest `"Drinks:"` or indented item over all levels. It is 0 for an empty map and at least 7 otherwise. |
| Render.MaxDrinksWidthIsUnique | src/gameplay.rs:44-56 | A width that bounds every level's menu and is attained by one of them (or is 0 with no menus) is `max_drinks_width`. |
| Render.ComputeMaxDrinksWidth | src/gameplay.rs:44-56 | Visiting the levels in any order, the computed width is `Frames.MaxDrinksWidth`. |
| Frames.RenderWidths | src/gameplay.rs:57 | `render_widths` is the padding plus `max_drinks_width`. Its use is stated by `Frames.FramePanelsFit` and `Render.Renderer.constructor`. |
| Frames.PaddedWidths | src/gameplay.rs:57 | One fixed width, never narrower than `max_drinks_width`. |
| Render.ComputeRenderWidths | src/gameplay.rs:57 | The widths the render thread computes are `Frames.RenderWidths` of the configuration. |
| Frames.FramePanelsFit | src/gameplay.rs:57 | When the player's level has a menu, every line of the drinks panel fits in `max_drinks_width`, even when items hold line breaks of their own, so in `render_widths[0]` with the padding to spare. The queue bar's width is `max_line_size`. The fallback case is `Frames.FallbackPanelOverflowsColumn`. |
| Frames.PanelTextWidths | src/gameplay.rs:67-78 | `"Drinks:"` is 7 bytes and `"  No drinks available."` is 22. |
| Frames.FallbackPanelWidth | src/gameplay.rs:78 | Without a menu for the level key, the panel's widest line is the 22-byte fallback line. |
| Frames.FallbackPanelOverflowsColumn | src/gameplay.rs:44-57 | As written: when the level has no menu and every configured menu is narrower than 22 bytes, the fallback panel is wider than `max_drinks_width`. With no menus at all, the queue bar starts at column `1 + padding`. |
| Frames.FittedDrinksWidth | src/gameplay.rs:44-57 | The corrected drinks column width is at least `max_drinks_width` and at least 22, and it is one of the two. |
| Frames.FittedWidthHoldsEveryPanel | src/gameplay.rs:66-79 | With the corrected width, the drinks panel of every level fits its column, whether it lists a menu or shows the fallback line, and for any menu items. |
| Frames.PanelNoWiderThanMenu | src/gameplay.rs:44-51 | No line of a level's drinks panel is wider than that level's menu width, for any items: every line lies inside the header or inside one indented item. |
| Text.JoinLinesNoWiderThanSegments | src/gameplay.rs:72-76 | Joining strings with `"\n"` and splitting with `lines()` gives no line longer in bytes than the longest string joined, even when the strings hold line breaks. |
| Text.LinesBounded | src/gameplay.rs:107-110 | Every line `lines()` yields is a stretch of the text without a line feed, so it is bounded by any bound on such stretches. |
| Text.JoinWindowsBounded | src/gameplay.rs:72-76 | In strings joined with `"\n"`, a stretch without a line feed lies inside one of them, so it is no longer than the longest. |
| Frames.Column | src/gameplay.rs:102-119 | Panel `i` starts at column 1 plus the widths of the panels before it, so at column 1 or later. |
| Frames.PanelWidth | src/gameplay.rs:104-111 | A panel's width is its entry in `render_widths` if there is one, else its widest line. `Frames.ColumnsIncrease` uses it. |
| Frames.PanelWrite | src/gameplay.rs:112-118 | The write for a changed panel is at its column, with the text padded to its width. `Frames.DiffWritesChangedPanels` uses it. |
| Frames.ColumnsIncrease | src/gameplay.rs:102-119 | Each panel's column plus its width is at most the column of every later panel. |
| Frames.WritesDoNotOverlap | src/gameplay.rs:112-119 | A single-line panel no longer than its width is written padded to exactly that width, so its write ends at or before the column of every later panel's write. Longer or multi-line panels are not covered. No frame the program draws meets the premise for panel 0, since the drinks panel always holds a `"\n"`; the lemma states the layout rule the column arithmetic is built on. |
| Frames.ChangedPanels | src/gameplay.rs:103-118 | Lists exactly the panels that differ from the last frame, each once, in increasing order. |
| Frames.Diff | src/gameplay.rs:100-123 | After a redraw the last frame is the current one. |
| Frames.NothingChangedInSameFrame | src/gameplay.rs:112 | Comparing a frame with itself finds no changed panel. |
| Frames.DiffWritesChangedPanels | src/gameplay.rs:100-123 | A redraw writes exactly the changed panels, in index order, each at its column and padded to its width. It writes nothing when the frame is unchanged, and something when a panel of an equal-length frame changed. |
| Render.Renderer.constructor | src/gameplay.rs:44-58 | The render thread's set-up: `render_widths` equals `Frames.RenderWidths` of the configuration, and the last frame starts as two empty panels. |
| Render.Renderer.Redraw | src/gameplay.rs:100-123 | The diff-and-write loop, with its running column `left_gap`, produces exactly the writes of `Frames.Diff` and leaves `last_render` equal to the current frame. |
| Render.Renderer.Tick | src/gameplay.rs:60-123 | One render pass draws the frame for the renderer's own configuration, the player and the queue length. It redraws against the last frame with `render_widths` from that configuration, and the widths invariant is kept. |
| Gameplay.Dispatch | src/gameplay.rs:213-239 | Handling any event never takes the queue past `max_line_size` when it was within it. The queue never shrinks and grows by at most one. |
| Gameplay.DispatchControlEvents | src/gameplay.rs:216-226 | `Quit` clears `running` and raises the sleep flag. `StopCustomerSpawning` clears only the spawning flag. Neither touches the queue, and the catch-all arm changes nothing. |
| Gameplay.DispatchSpawnAdmission | src/gameplay.rs:227-234 | Below capacity a spawn adds exactly one customer and leaves the flags alone. At capacity it leaves the queue, clears `running`, and leaves the sleep flag and the spawning flag as they were, unlike `Quit`. |
| Gameplay.DispatchAllKeepsCapacity | src/gameplay.rs:213-239 | Over any sequence of received events the queue stays within `max_line_size`, never shrinks, and grows by at most one per event. |
| Gameplay.DispatchAll | src/gameplay.rs:213-239 | The handler loop over received events, stopping once `running` is false. `Gameplay.DispatchAllKeepsCapacity` and `Gameplay.StoppedIgnoresEvents` state its promises. |
| Gameplay.SpawningStaysOff | src/gameplay.rs:224-226 | No event turns spawning back on. |
| Gameplay.StoppedIgnoresEvents | src/gameplay.rs:213 | Once `running` is false the handler loop handles no further event. |
| Gameplay.GameOverWithRoomForTwo | src/gameplay.rs:227-234 | With room for two, two spawns fill the line, the third ends the game and a fourth is never handled. |
| Gameplay.SpawnerPass | src/gameplay.rs:251-262 | The spawner publishes `SpawnCustomer` exactly when the game is running, spawning is enabled and the game still runs after the wait. It retries exactly when running with spawning disabled. |
| Gameplay.StopSpawningSilencesSpawner | src/gameplay.rs:251-262 | Once `StopCustomerSpawning` is handled, whatever events follow, no spawner pass that reads the spawning flag from then on publishes. |
| Gameplay.StopDuringArrivalWaitStillPublishes | src/gameplay.rs:252-262 | A pass that read the spawning flag before the stop is handled is already in its arrival wait. The stop leaves the game running, so that pass still publishes one spawn. |
| Gameplay.InputPass | src/gameplay.rs:175-186 | Esc publishes `Quit` and ends the input loop. Any other poll result publishes nothing and the loop goes on. |
| Gameplay.EscStopsTheGame | src/gameplay.rs:180-183 | The `Quit` that Esc publishes, once handled, stops the game and raises the sleep flag. |
| Gameplay.LevelMenu | src/gameplay.rs:144-148 | The level's menu when the level has one, and the empty menu otherwise. |
| Gameplay.ButtonsMatchDrinksPanel | src/gameplay.rs:144-148 | When the level has a menu whose items hold no line break, the buttons' menu is line for line the one the drinks panel lists. When it has none, the buttons hold no item while the panel shows `"Drinks:"` and the fallback line, so the two differ. |
| Gameplay.SharedState.constructor | src/gameplay.rs:18-24 | The shared state starts with an empty queue, running, spawning, no sleep request, a new player and one empty menu of buttons. |
| Gameplay.SharedState.HandleEvent | src/gameplay.rs:215-236 | Handling an event keeps the queue within `max_line_size` and changes the flags and queue length as `Dispatch` says. A spawn below capacity appends one fresh `Customer::new()` and keeps the customers before it. Nothing else touches the queue, the player or the buttons. |
| Gameplay.SharedState.RefreshButtons | src/gameplay.rs:144-158 | Afterwards the buttons are the single menu of the player's level, or one empty menu when the level has none. |
| Legacy.LegacyFrameShowsLevelZero | src/main.rs:108-137 | The older loop's player never changes, so it always shows the level-"0" menu (or the fallback) next to the queue bar. |
| Legacy.LegacyFrame | src/main.rs:104-138 | The older loop's frame, for the never-changed `Player::new()`. It is stated by `Legacy.LegacyFrameShowsLevelZero`. |
| Configuration.DefaultDrinks | src/main.rs:40-44 | One menu, for level "0", offering coffee. It is stated by `Legacy.DefaultConfigFirstFrame`. |
| Configuration.DefaultConfig | src/main.rs:37-44 | Arrival wait 10, line size 10, padding 1 and the default drinks. It is stated by `Legacy.DefaultConfigFirstFrame`. |
| Legacy.MenuLineWidths | src/main.rs:89-93 | `"Drinks:"` is 7 bytes and `"  Coffee"` is 8. |
| Legacy.DefaultConfigFirstFrame | src/main.rs:37-44 | The defaults are arrival wait 10, line size 10, padding 1 and drinks `{"0": ["Coffee"]}`. The first frame under them is `"Drinks:\n  Coffee"` next to ten `-`. |
| Legacy.DefaultConfigColumns | src/main.rs:84-97 | Under the defaults `max_drinks_width` is 8 and `render_widths` is `[9]`. |
| Legacy.DefaultMenuWidth | src/main.rs:84-95 | The coffee-only default menu is 8 bytes wide, the width of `"  Coffee"`. |
| Legacy.OneMenuWidth | src/main.rs:84-95 | With a single menu, `max_drinks_width` is that menu's width. |
| Legacy.SpawnerPass | src/main.rs:203-226 | Each case is pinned. A stopped game exits unchanged. With spawning off the spawner retries unchanged. With room (`max_line_size > len`) it pushes one customer and goes on. At a full line it clears `running` and exits. Hence the queue never passes `max_line_size`, and the loop is left only with the game stopped. |
| Legacy.SpawnerRunKeepsCapacity | src/main.rs:203-226 | However many passes the spawner makes, the queue stays within `max_line_size` and never shrinks. |
| Legacy.SpawnerRun | src/main.rs:203-227 | Up to a number of passes of the older spawner loop, stopping when it exits. `Legacy.SpawnerRunKeepsCapacity` and `Legacy.GameEndsWhenLineOverflows` state its promises. |
| Legacy.SpawnerPartialRun | src/main.rs:214-217 | From `k` customers, `n` passes that fit add exactly `n` customers and the game goes on. |
| Legacy.SpawnerFillsLine | src/main.rs:214-225 | From `k` customers the spawner fills the line in `max_line_size - k` passes, and the next pass stops the game and leaves the loop. |
| Legacy.GameEndsWhenLineOverflows | src/main.rs:203-226 | From an empty line the game ends after exactly `max_line_size + 1` passes with a full line. Every earlier pass still runs. |
| Legacy.LegacyState.constructor | src/main.rs:70-72 | The older shared state starts with an empty queue, running and spawning. |
| Legacy.LegacyState.SpawnerIteration | src/main.rs:203-226 | One pass on the shared state does what `Legacy.SpawnerPass` says and keeps the queue within `max_line_size`. A push appends one fresh `Customer::new()` and keeps the rest. |
| Legacy.LegacyState.InputIteration | src/main.rs:175-191 | The input task stops when the game has stopped or on Esc. Esc clears `running`, and nothing else changes it. |

## Left out

- Threads, `Arc`/`Mutex`/`AtomicBool`, the crossbeam channel and the tokio tasks are not modelled. Each loop is modelled as one pass over the state it reads and writes, not as an interleaving. Every pass of the event handler, spawner and input loop is atomic here.
- `cancellable_sleep` (src/helpers.rs:38-53), `thread::sleep` and tokio's `sleep` are left out because they are wall-clock waits. A wait is modelled only where its outcome matters: the spawner re-reads `running` after its wait, which is the `runningAfterWait` parameter of `Gameplay.SpawnerPass`.
- The render thread's `cancellable_sleep` at src/gameplay.rs:126 sits after the render loop, not inside it. It affects only timing, so it is not modelled.
- The input thread's blocking `event_rx.recv()` (src/gameplay.rs:188-199) is left out. It competes with the handler for bus events and is purely a concurrency matter. `Gameplay.InputPass` models only the Esc decision.
- Terminal I/O is left out: the `"\x1B[1;{}H"` cursor escape, stdout locking and flushing, raw mode and the alternate screen (src/helpers.rs:7-36, src/main.rs:56-58 and 236-237). A write is the pair `(column, padded text)`.
- crossterm polling is reduced to `Terminal.Polled`: a timeout, the Esc key, another key or a non-key event.
- Configuration loading (`fs::read_to_string` and serde_json in src/config.rs and src/main.rs:46-50) is left out because it is file I/O and parsing. Only the default values are modelled.
- The `println!` messages at src/main.rs:223 and 233 are output only and are not modelled.
- Menu items are modelled as the strings they are drawn as, because `Hoverable` has no `Display`, `Clone`, `PartialEq` or `Default` in the source. `Hoverables.Render` models the `From<Hoverable> for String` that does exist.
- `usize` overflow is not modelled; integers are unbounded. A configured `right_side_menu_padding` near `usize::MAX` overflows `right_side_menu_padding + max_drinks_width` (`src/gameplay.rs:57`, `src/main.rs:97`) and `left_gap += width` (`src/gameplay.rs:119`, `src/main.rs:159`). That panics in a debug build and wraps in a release build.
- Gameplay.StopSpawningSilencesSpawner: the spawner reads `doing_customer_spawner` once, before its arrival wait (`src/gameplay.rs:252`, `257-262`), so a pass already waiting when the stop is handled still sends one `SpawnCustomer`. The lemma covers only passes that read the flag after the stop. That one in-flight spawn is `Gameplay.StopDuringArrivalWaitStillPublishes`.
- Frames.DrinksPanelLines, Gameplay.ButtonsMatchDrinksPanel: these require menu items without line breaks, because an item with its own `"\n"` shows as several panel lines and the line-for-line match no longer holds. The width lemmas `Frames.FramePanelsFit` and `Frames.FittedWidthHoldsEveryPanel` hold for any items.
- The older spawner (src/main.rs:212-217) does not re-read `running` after its arrival wait, unlike src/gameplay.rs:258-260. After Esc it can still push a customer, or end the game with the "Game Over!" message. `Legacy.SpawnerPass` runs each pass atomically, so it cannot show a pass that straddles an Esc.
- A write is modelled as a column and a padded text. How the terminal lays the text out is not modelled. This includes a `"\n"` inside the drinks panel, which in raw mode moves down without returning to the panel's column.
- src/test.rs is a separate counter demo and is not part of this model.

## Findings

| source | as written | input that shows it | evidently intended | confidence | as-written member | corrected member |
|---|---|---|---|---|---|---|
| src/player.rs:7 and src/player.rs:17-19 | `customers_served()` returns `(self.0 & 0b1111_1100) >> 6`. This keeps only bits 6-7 of the six-bit field, so the result is at most 3. | Byte `0b0000_0100` (one customer served) reads 0. Byte `0xFC` (63 served) reads 3. Bytes `0` and `0b0000_0100` read the same. | Shift by 2, the width of the level field, so that the count runs "up to 63" as the mask's comment says. The commented-out setter (src/player.rs:25-27) also shifts by 6 and masks the count to 4 bits, so the intended shift rests on the mask and its comment, not on the setter. | not executed | Players.Player.CustomersServedAsWritten, Players.CustomersServedAsWrittenLosesCount | Players.Player.CustomersServed, Players.CustomersServedRoundTrip |
| src/gameplay.rs:44-57 | `max_drinks_width` is measured over the configured menus only, never over the fallback line `"  No drinks available."` (22 bytes). | A level with no menu while every menu is narrower than 22 bytes: the fallback panel is wider than its column. With an empty drinks map and padding 1, `render_widths` is `[1]` and the queue bar is written at column 2 of the row that holds `"Drinks:"`. | The drinks column should also make room for the fallback line, so that the panel never runs into the queue bar. | not executed | Frames.FallbackPanelOverflowsColumn | Frames.FittedDrinksWidth, Frames.FittedWidthHoldsEveryPanel |
