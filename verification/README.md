# speedport_Time in Dafny

A model of the logic inside `speedport_Time.py`, a tray program that polls the
time-limit page of a Speedport router through a headless Firefox and shows the
result as the tray icon's hover text. The browser, the tray icon, the files and
the polling thread are plumbing around five pure transformations. Those five
are modelled here, with proofs of what they promise:

- **Scraping** (`RequestHandler`, `ScrapedValues`). This covers
  `RequestHandler.get_values` and `_make_sure_running`. The page is an
  abstract DOM, a map from element id to `{displayed, text}`. The browser is
  an abstract session, `{alive, currentUrl}`. A dead session is relaunched
  and navigated first. The page is refreshed only when it is already shown.
  The reading is all-or-nothing: a missing window element gives the empty
  dict `{}`. A missing leading element raises an error. Otherwise the
  reading has exactly six keys.
- **Hover text** (`HoverText`). This is the string built by
  `TimeMain._update_time`:
  - the remaining time, shown as "Unbeschränkt" when it is empty;
  - one line per displayed window, in window order;
  - whether a connection is possible today;
  - the last-update line, which always comes last.
- **Banner** (`Banner`). This is `_clean_message`, the `#`-framed log banner.
  Its inner width is `max(longest + 4, 30)`. Lines are centred the way
  Python's `^` format centres them.
- **Log clearing** (`LogTruncation`). This is the string logic of
  `_clear_log`. It keeps exactly the text after the last `[start]` marker,
  so the marker's own line, with its logging prefix, is dropped too.
- **Config update** (`Config`). This is the map logic of `_update_config`.
  Unknown options are ignored. A known option is overwritten, and nothing
  else changes.

`Text` holds the shared string vocabulary:
- Python's `s[::-1]`;
- occurrence of a marker in a text;
- `str.split("\n")`, used to state the line structure of the banner and of
  the hover text.

`Wrappers` holds `Option`.

Three points about what the code does:

- A failed poll is not absorbed. An empty reading makes `_update_time` index
  `values["Timelimit"]` on `{}` (speedport_Time.py:188), which raises
  `KeyError`. A missing leading element raises `NoSuchElementException` out
  of `get_values` (lines 46-48). Either exception ends the polling thread.
  The model keeps these as outcomes (`Returned(map[])`, `Raised(...)`). The
  hover text is defined only for populated readings.
- The texts are German, and the model uses the code's strings.
- Exactly three windows are read, and so the model reads exactly three.

## Model

| member | source | states |
|---|---|---|
| `RequestHandler.ReadWindows` | speedport_Time.py:50-58 | The window loop yields the windows in order, each `[displayed, from, to]` from its three elements. It yields nothing exactly when some window element from `i` on is missing. |
| `RequestHandler.Scrape` | speedport_Time.py:46-62 | An error is raised iff a leading element is missing, naming the first missing one in lookup order. The dict is `{}` iff some window element is missing. Otherwise it has exactly the six keys, with the flag, texts and three windows read from the page. |
| `RequestHandler.MakeSureRunning` | speedport_Time.py:28-38 | A live session is kept and makes no call. A dead one is replaced by a new browser that is launched first and loads the URL last, so exactly one browser is started. Only a dead session whose relaunch fails gives no browser. |
| `RequestHandler.Navigate` | speedport_Time.py:42-44 | The calls made before are kept as they were. No browser is launched. A refresh is added iff the URL is already shown. Loading the URL is the last call, and the session ends alive on the URL. |
| `RequestHandler.Prepare` | speedport_Time.py:33-44 | A dead session that cannot be relaunched raises, and nothing is read. Otherwise the session ends alive, on the URL. |
| `RequestHandler.PrepareActions` | speedport_Time.py:33-44 | A dead session is relaunched and loads the URL. It is then refreshed, because the URL is now shown, and loads the URL again. A live session already showing the URL is refreshed and then loads it. Any other live session just loads the URL. |
| `RequestHandler.RefreshIffShown` | speedport_Time.py:41-44 | A refresh is issued iff the URL is already shown at line 42, which is always so after a relaunch. A browser is launched once for a dead session and never for a live one. Loading the URL is the last driver call. |
| `RequestHandler.GetValues` | speedport_Time.py:40-62 | `SessionUnavailable` is raised iff the session is dead and cannot be relaunched. Then no driver call is made and the session stays as it was. Otherwise the session ends alive on the URL, the last driver call loads the URL, and the outcome is the page's scrape. |
| `RequestHandler.RecoveryLaunchesOnce` | speedport_Time.py:33-44 | After a crash, two polls start exactly one browser. The second poll only refreshes and loads. |
| `HoverText.VisibleLinesInOrder` | speedport_Time.py:194-196 | There is one window line per displayed window. A displayed window's line comes after the lines of the displayed windows before it. |
| `HoverText.WindowTextTerminated` | speedport_Time.py:194-196 | The loop's text is exactly the displayed windows' lines, each ended by a line break. |
| `HoverText.Hover` | speedport_Time.py:184-198 | The text starts with "Verbleibende Zeit: " followed by "Unbeschränkt" for an empty remaining time, or by the remaining time verbatim, and a line break. The displayed windows' lines follow, each ended by a line break. Then comes "Verbindung Heute Möglich: " with Ja iff the time-limit flag is set, else Nein. It ends with "Letztes Update: " and the timestamp. |
| `HoverText.HoverSplit` | speedport_Time.py:184-198 | The lines of the text are the remaining-time line, the displayed windows' lines, the connection line and the update line. |
| `HoverText.HoverLines` | speedport_Time.py:184-198 | There are `visible + 3` lines: first the remaining-time line, then each displayed window's line at its place among the displayed ones, then "Verbindung Heute Möglich: Ja/Nein", then "Letztes Update: ...". |
| `Banner.LongestLength` | speedport_Time.py:69 | The result is the length of some line, and no line is longer. |
| `Banner.InnerWidth` | speedport_Time.py:69-71 | The width is at least 30 and at least every line's length plus 4. It equals 30 or some line's length plus 4. |
| `Banner.Center` | speedport_Time.py:74 | A shorter line is padded with spaces to the width. Half the padding, rounded down, goes on the left, so the right side gets the same or one more. A longer line is kept as is. |
| `Banner.Row` | speedport_Time.py:74 | A framed line is `width + 2` wide and starts and ends with `#`. The line sits after `#` and half the padding, rounded down; every other inner position is a space. |
| `Banner.CleanMessage` | speedport_Time.py:68-76 | A banner exists iff the message has a line. Python's `max` raises on an empty list. |
| `Banner.BannerLines` | speedport_Time.py:69-75 | The lines are: an empty line, the border, one framed row per message line in order, the border, then an empty piece. That gives `len(message) + 2` non-empty lines, each `width + 2` wide. |
| `Banner.StartingBannerRow` | speedport_Time.py:69-74 | The "Starting..." banner keeps width 30. Its line gets 9 spaces on the left and 10 on the right. |
| `Text.Reverse` | speedport_Time.py:156 | `s[::-1]` has the same length, and its k-th character is the k-th from the end. |
| `LogTruncation.ReversedMarkerMirrorsStartMarker` | speedport_Time.py:157 | The split constant is the reversed `[start]` marker. |
| `LogTruncation.FirstPiece` | speedport_Time.py:158-160 | `split(sep)[0]` is a prefix with no separator starting inside it. It is followed by a separator unless it is the whole text. |
| `LogTruncation.TruncateLog` | speedport_Time.py:156-160 | The kept text is a suffix of the log. With no `[start]` in the log it is the whole log. Otherwise it begins right after a `[start]`, and no `[start]` begins later. It never contains `[start]`. |
| `LogTruncation.TruncateLogIdempotent` | speedport_Time.py:156-160 | Clearing twice is the same as clearing once. |
| `Config.UpdateConfig` | speedport_Time.py:140-142 | An unknown option leaves the config unchanged. A known one gets the value. The keys and every other option's value are kept. |
| `Config.UpdateConfigLastWins` | speedport_Time.py:140-142 | Of two updates of one option, only the later value stays. |
| `Config.UpdateConfigCommutes` | speedport_Time.py:140-142 | Updates of two different options can be applied in either order. |
| `Config.MenuUpdatesKeepIntervalPositive` | speedport_Time.py:99-107 | Every tray-menu update names an option of the default file. None of them makes the poll interval non-positive. |

## Left out

- Selenium itself: `webdriver.Firefox`, `get`, `refresh`, `find_element`, `is_displayed`, `.text` and `quit`. These are foreign library calls. They appear only as the abstract session, the `Action` list and the DOM map.
- `RequestHandler.GetValues`: navigation is taken to land exactly on the requested URL, so redirects are not modelled. Exceptions raised by `refresh`, `get` or the second `current_url` read (lines 42-44) are not modelled. Only a failed Firefox start (`SessionUnavailable`) and the missing leading elements are.
- `RequestHandler.MakeSureRunning`: a `get` that raises inside `_create_browser` (line 31) after Firefox has started is not modelled. In the code the new browser is kept and the exception leaves `get_values`. The model takes the first load to succeed. The old driver is also not quit before the new one starts (lines 37-38), so a probe that fails while Firefox still runs leaves two browser processes. The model replaces the session and cannot show the leftover process.
- `RequestHandler.__init__` and `quit`: the first launch in the constructor and the session shutdown are single foreign calls. The relaunch path of `_make_sure_running` models `_create_browser`.
- The 0.3 s settle delay, the poll sleep, the polling thread, the `_running` flag and the per-cycle `_load_config` (lines 202-207): timing, concurrency and loop plumbing.
- The tray icon: the menu, `SysTrayIcon` and `update` (lines 97-116, 179-181, 199). This is GUI. Only the (option, value) pairs the menu passes are kept, as `Config.MenuUpdates`.
- File and JSON I/O: reading and writing `config.json`, writing the default file, reading the config keys in `_load_config`, and reading and writing the log (lines 119-135, 138-145, 154-160). Only the pure map and string transforms are modelled.
- The automatic log clearing on size (line 174): a floating-point MB computation with `round`.
- `_restart` (`taskkill`/`subprocess`), `_author` (`webbrowser.open`) and `_setup_logging`: process and OS plumbing. The `[start]` marker that `_setup_logging` writes is kept as `LogTruncation.StartMarker`.
- `HoverText.HoverLines`: assumes the scraped texts are single lines. A text with a line break would split into more lines; `HoverText.Hover` holds without this assumption.
- `HoverText.HoverSplit`: assumes the scraped texts are single lines, for the same reason as `HoverText.HoverLines`.
- `Banner.BannerLines`: assumes the message lines have no line break, like the three banners the program writes.
