# esp8266-clock, modelled in Dafny

The esp8266-clock firmware drives a 4-digit seven-segment LED display through
an HT16K33 controller. It keeps its time by NTP over Wi-Fi. Each second its
main loop does three things:

- draws a clock face (the time; every fifth minute the year, then the date);
- lets a small cron dispatch the clock's hourly and daily hooks;
- runs a pending time sync. A sync step shows a progress bar while it
  connects and ends with `sync`, `err ` or a still-running attempt.

This project models four parts of the firmware:

- the Seg7x4 display buffer;
- the station-mode network connection (STANetwork);
- the display renderers (SevenSegmentDisplay);
- TimeSync, Cron and one pass of DigitalClock's main loop.

Every source class that updates its fields in place is a Dafny `class`:

| Source class | Dafny class | State it keeps |
|---|---|---|
| HT16K33 / Seg7x4 | `HT16K33.Seg7x4` | a 16-byte `array<bv8>` RAM image, edited in place |
| the WLAN interface | `StaNetwork.Radio` | `active` and `connected` |
| STANetwork | `StaNetwork.STANetwork` | the optional deadline `expiresAt` |
| TimeSync | `NetworkTime.TimeSync` | the pending flag, the error flag and the progress count |
| Cron | `Scheduler.Cron` | its registrants and its minute guard |
| DigitalClock | `Clock.DigitalClock` | its display mode |

Each method's `ensures` ties the new state to a specification function of
the old state. Examples are `AfterPut`, `AfterText`, `AfterTime`,
`AfterSafeConnect` and `Dispatch`. Lemmas then prove what the firmware
promises about those functions:

- which bytes `put`, `push` and `text` touch;
- what every clock face shows, cell by cell;
- how a connect attempt starts, waits, expires and is cleared;
- the three outcomes of a sync step;
- the cron's once-per-window dispatch and its hook order;
- the display-mode cycle and the resync policy.

Files:

- `wrappers.dfy`: the `Option` type.
- `ht16k33.dfy`: the glyph table, the buffer functions and the `Seg7x4` driver class.
- `seg7x4_properties.dfy`: lemmas about `put`, `scroll`, `push` and `text`.
- `clock_time.dfy`: the `time.localtime()` fields and `'{:0>Nd}'` formatting.
- `seven_segment.dfy`: the `SevenSegmentDisplay` renderers.
- `clock_faces.dfy`: what each renderer leaves in the cells and the colon.
- `sta_network.dfy`: `STANetwork` over an abstract radio and clock.
- `time_sync.dfy`: `TimeSync`.
- `cron.dfy`: `Cron`.
- `digital_clock.dfy`: `DigitalClock`.

## Model

| member | source | states |
|---|---|---|
| HT16K33.Numbers | HT16K33.py:48-87 | the table's keys are exactly the blank, `-`, the digits and the lower-case letters; no upper-case letter and none of `.`, `:`, `;` has a glyph |
| HT16K33.Lower | HT16K33.py:110 | the result is never an upper-case ASCII letter; an upper-case letter becomes a lower-case one, and any other character is kept |
| HT16K33.BlinkCommand | HT16K33.py:29-35 | the command byte keeps the blink-command and display-on bits and carries the rate masked to two bits in bits 1-2 |
| HT16K33.BrightnessCommand | HT16K33.py:37-42 | the command byte keeps the brightness-command nibble and carries the level masked to four bits |
| HT16K33.Seg7x4.constructor | HT16K33.py:15-23 | a blank 16-byte buffer, blink rate 0, brightness 15, and the oscillator, blink and brightness commands sent in that order |
| HT16K33.Seg7x4.BlinkRate | HT16K33.py:29-35 | called with no argument (or `None`) it reports the rate and changes nothing; otherwise it stores the rate masked to 0..3 and sends exactly one command |
| HT16K33.Seg7x4.Brightness | HT16K33.py:37-42 | called as `brightness(None)` it reports the level and changes nothing; otherwise it stores the level masked to 0..15 and sends exactly one command |
| HT16K33.Seg7x4.Show | HT16K33.py:44-45 | the device then holds exactly the current buffer |
| HT16K33.Seg7x4.Put | HT16K33.py:107-122 | the in-place edit leaves the buffer `put` specifies (AfterPut) |
| HT16K33.Seg7x4.Scroll | HT16K33.py:94-97 | the copy loop and the final blank leave the buffer `scroll` specifies |
| HT16K33.Seg7x4.Push | HT16K33.py:99-105 | the scroll-or-attach rule leaves the buffer `push` specifies |
| HT16K33.Seg7x4.Text | HT16K33.py:124-127 | the loop leaves the buffer that pushing every character in order gives |
| Seg7x4Properties.GlyphsBelowDot | HT16K33.py:48-87 | every glyph in the table leaves the decimal-point bit clear |
| Seg7x4Properties.GlyphsHaveNoDot | HT16K33.py:48-87 | neither a table glyph nor the cell a plain character fills carries a decimal point |
| Seg7x4Properties.PutOutsideCellsIsNoOp | HT16K33.py:108-109 | `put` with an index outside 0..3 leaves the buffer unchanged |
| Seg7x4Properties.PutIgnoresCase | HT16K33.py:110 | `put(c, i)` and `put(c.lower(), i)` give the same buffer |
| Seg7x4Properties.PutGlyphOverwritesCell | HT16K33.py:110-113 | a character in the table replaces the whole cell with its glyph, clearing its decimal point, and changes no other byte |
| Seg7x4Properties.PutGlyphCell | HT16K33.py:110-113 | the same, stated on the four cells |
| Seg7x4Properties.PutUnknownIsNoOp | HT16K33.py:107-122 | a character that is not in the table and is not `.`, `:` or `;` changes nothing |
| Seg7x4Properties.PutDotKeepsSegments | HT16K33.py:114-116 | `put('.', i)` sets bit 7 of cell i, keeps its segment bits and changes no other byte |
| Seg7x4Properties.PutDotCell | HT16K33.py:114-116 | the same, stated on the four cells |
| Seg7x4Properties.PutDotIdempotent | HT16K33.py:114-116 | putting a dot twice gives the same buffer as putting it once |
| Seg7x4Properties.PutColonSetsIndicator | HT16K33.py:117-122 | `:` sets byte 4 to 0x02 and `;` sets it to 0x00, whatever the cell index, and nothing else changes |
| Seg7x4Properties.ScrollShiftsCells | HT16K33.py:94-97 | cells 1..3 move to cells 0..2 with their dots, and cell 3 becomes 0x00 |
| Seg7x4Properties.PushDotAttachesOrScrolls | HT16K33.py:99-105 | `.` lights cell 3's dot in place when cell 3 has none; otherwise it scrolls and cell 3 holds the dot alone |
| Seg7x4Properties.PushPlainScrolls | HT16K33.py:99-105 | any other character but `:` and `;` scrolls, then shows its glyph (blank if unknown) in cell 3 |
| Seg7x4Properties.PushColonDrivesIndicator | HT16K33.py:100-101 | `push(':')` and `push(';')` only switch the colon |
| Seg7x4Properties.PutKeepsUnusedBytes | HT16K33.py:107-122 | `put` writes no byte outside offsets 0, 2, 4, 6 and 8 |
| Seg7x4Properties.ScrollKeepsUnusedBytes | HT16K33.py:94-97 | `scroll` writes no byte outside those offsets |
| Seg7x4Properties.PushKeepsUnusedBytes | HT16K33.py:99-105 | `push` writes no byte outside those offsets |
| Seg7x4Properties.TextKeepsUnusedBytes | HT16K33.py:124-127 | `text` writes no byte outside those offsets |
| Seg7x4Properties.TextConcat | HT16K33.py:124-126 | pushing s then t is pushing s + t |
| Seg7x4Properties.TextOfPlain | HT16K33.py:124-126 | a string without `.`, `:` or `;` leaves the last four of the old cells followed by its glyphs |
| Seg7x4Properties.TextShowsLastFour | HT16K33.py:124-127 | with at least four such characters, the cells hold exactly the glyphs of the last four, without dots; the colon and unused bytes are kept |
| ClockTime.ZeroPadEndsWithLowDigits | digital_clock.py:60 | `'{:0>wd}'.format(n)` is at least w characters long and ends with the w low digits of n; it is exactly those when n has at most w digits |
| ClockTime.TwoDigits | digital_clock.py:40 | `'{:0>2d}'` of a field below 100 is its tens digit then its units digit |
| SevenSegment.ProgressText | digital_clock.py:63-64 | the bar string has four characters: `count % 5` dashes, then blanks |
| SevenSegment.SevenSegmentDisplay.constructor | digital_clock.py:27-31 | a fresh driver at brightness 1, cleared and shown: an all-zero buffer |
| SevenSegment.SevenSegmentDisplay.Text | digital_clock.py:33-36 | colon off, then the string pushed, then shown |
| SevenSegment.SevenSegmentDisplay.Time | digital_clock.py:38-54 | the buffer the time face specifies (AfterTime), shown |
| SevenSegment.SevenSegmentDisplay.BreathingDots | digital_clock.py:49-52 | the loop puts a dot on cell i exactly when bit 5 - i of `second + 4` is set, for i = 0..3 in order |
| SevenSegment.SevenSegmentDisplay.Date | digital_clock.py:56-57 | shows `MM.DD` through `text` |
| SevenSegment.SevenSegmentDisplay.Year | digital_clock.py:59-60 | shows the four-digit year through `text` |
| SevenSegment.SevenSegmentDisplay.ProgressBar | digital_clock.py:62-64 | shows the bar string through `text` |
| SevenSegment.SevenSegmentDisplay.Clear | digital_clock.py:66-70 | colon off, then cells 0, 1 and 2 blanked in order, then shown |
| ClockFaces.DigitInNumbers | HT16K33.py:51-60 | every decimal digit is in the glyph table |
| ClockFaces.DigitIsPlainGlyph | HT16K33.py:51-60 | a digit is a plain character, and its glyph has no decimal point |
| ClockFaces.TimeDigitsFillCells | digital_clock.py:40 | pushing `HHMM` fills the four cells with the hour and minute digit glyphs |
| ClockFaces.DotsSetBreathingBits | digital_clock.py:49-52 | after the first i turns of the dot loop, exactly cells 0..i-1 with their breathing bit set have gained a dot |
| ClockFaces.ErrorDot | digital_clock.py:41-42 | the sync-error dot lands on cell 3 of the digits |
| ClockFaces.TimeCellsCombineDots | digital_clock.py:41-52 | the error dot and the breathing dots together light cell i's dot exactly when its bit is set, or it is cell 3 and there was an error |
| ClockFaces.TimeFaceCells | digital_clock.py:40-52 | digits, error dot and breathing dots drawn over any buffer leave exactly the time-face cells |
| ClockFaces.TimeFace | digital_clock.py:38-54 | the time face: colon on exactly on even seconds, zero-padded HHMM, cell i dotted exactly when bit 5 - i of `second + 4` is set or it is cell 3 after a failed sync; no other byte changes |
| ClockFaces.DateFaceCells | digital_clock.py:57 | `MM.DD` pushed over any buffer leaves the month digits, the dot on the second one, then the day digits |
| ClockFaces.TwoDigitsFill | digital_clock.py:57 | two zero-padded digits scroll in from the right |
| ClockFaces.AttachDot | digital_clock.py:57 | the `.` of the date attaches to the month's last digit instead of taking a cell |
| ClockFaces.DateFace | digital_clock.py:56-57 | the date face: colon off, `MM.DD` with the dot on the second month digit; no other byte changes |
| ClockFaces.ZeroPadIsDigits | digital_clock.py:60 | zero-padded numbers consist of decimal digits only |
| ClockFaces.YearFace | digital_clock.py:59-60 | the year face: colon off, the cells show the last four digits of the year without dots, and unused bytes are kept |
| ClockFaces.DashAndBlankGlyphs | HT16K33.py:49-50 | `-` and a blank are plain characters with glyphs 0x40 and 0x00 |
| ClockFaces.ProgressFace | digital_clock.py:62-64 | the progress bar: colon off, `count % 5` dash glyphs 0x40 from the left, then blanks; no other byte changes |
| ClockFaces.BlanksClearCells | digital_clock.py:68-69 | after i turns of the blanking loop, exactly cells 0..i-1 are blank |
| ClockFaces.ClearFace | digital_clock.py:66-70 | `clear` turns the colon off and blanks cells 0..2; cell 3 keeps what it held |
| ClockFaces.FourLetterFace | digital_clock.py:33-36 | a four-letter message of plain characters shows its four glyphs with the colon off |
| ClockFaces.SyncedFace | digital_clock.py:92 | `sync` shows the glyphs 0x6D 0x6E 0x54 0x39 |
| ClockFaces.TimedOutFace | digital_clock.py:98 | `err ` shows the glyphs 0x79 0x50 0x50 0x00 |
| StaNetwork.Expired | sta_network.py:60-63 | never timed out without a deadline; with one, timed out exactly when the deadline is strictly before now |
| StaNetwork.ConnectTimeout | sta_network.py:30-31 | a connect attempt never gets a zero timeout: a missing or zero timeout becomes the default, any other value is kept |
| StaNetwork.WaitPolls | sta_network.py:41-44 | the wait loop polls only samples that are neither connected nor past the deadline, and stops at the first that is, or when the samples run out |
| StaNetwork.Radio.constructor | sta_network.py:13 | the interface in the state given, with no connect issued yet |
| StaNetwork.Radio.SetActive | sta_network.py:36 | an interface switched off drops its connection |
| StaNetwork.Radio.Connect | sta_network.py:37 | one more connect is issued; the connection itself is left to the environment |
| StaNetwork.Radio.Disconnect | sta_network.py:50 | the interface is no longer connected |
| StaNetwork.STANetwork.constructor | sta_network.py:12-14 | no attempt is pending |
| StaNetwork.STANetwork.SafeConnect | sta_network.py:21-32 | the interface, deadline, progress calls and connects after `safe_connect` (AfterSafeConnect) |
| StaNetwork.STANetwork.Connect | sta_network.py:34-46 | activation, one connect, the deadline, the wait loop over the samples, and the deadline dropped if connected (AfterConnect) |
| StaNetwork.STANetwork.Disconnect | sta_network.py:48-52 | the interface inactive and disconnected, the deadline cleared, no connect issued |
| StaNetwork.STANetwork.IsConnected | sta_network.py:54-58 | returns the radio's status and clears the deadline exactly when connected |
| StaNetwork.TimeoutIsStrictAndPersists | sta_network.py:60-63 | at the deadline itself there is no timeout, and a timeout stays as the clock moves on |
| StaNetwork.SafeConnectWhenConnected | sta_network.py:22-24 | on a connected interface `safe_connect` only clears the deadline and issues no connect |
| StaNetwork.SafeConnectWhilePending | sta_network.py:25-27 | while an attempt is pending `safe_connect` changes nothing |
| StaNetwork.SafeConnectStarts | sta_network.py:28-38 | with nothing pending it activates the interface and issues exactly one connect; the deadline is now + timeout, with 30 s for a missing or zero timeout, unless it connected |
| StaNetwork.WaitStopsOnlyWhenConnectedOrExpired | sta_network.py:40-44 | the wait loop keeps polling only while neither connected nor timed out, and stops early only when one of them holds |
| StaNetwork.ConnectClearsDeadlineIffConnected | sta_network.py:45-46 | after `_connect` the deadline is gone exactly when the interface is connected |
| StaNetwork.SafeConnectLeavesConnectedOrPending | sta_network.py:21-46 | after `safe_connect` the interface is connected or an attempt is pending |
| StaNetwork.DisconnectResets | sta_network.py:48-52 | `disconnect` leaves the interface inactive, disconnected and with no deadline, so no timeout |
| StaNetwork.IsConnectedKeepsPendingAttempt | sta_network.py:54-58 | `is_connected` keeps the interface state; it drops the deadline when connected and keeps it otherwise |
| StaNetwork.StepsKeepLinkValid | sta_network.py:21-58 | every operation keeps "connected only while active, pending only while active" |
| NetworkTime.SyncOutcome | digital_clock.py:91-105 | a step is synced exactly when the link is connected, and timed out exactly when it is not connected and its deadline lies strictly before the time read |
| NetworkTime.TimeSync.constructor | digital_clock.py:74-78 | nothing pending, no error, and a fresh network on the interface |
| NetworkTime.TimeSync.Sync | digital_clock.py:80-82 | a sync step with progress bar, starting the count at 0: the outcome, flags, network state and display as DoSync states them |
| NetworkTime.TimeSync.ProgressBar | digital_clock.py:84-87 | one progress bar for the current count, shown on the device, then the count moves on by one |
| NetworkTime.TimeSync.ReplayProgress | sta_network.py:40-44 | the n `progress()` calls of the wait loop draw n bars with consecutive counts |
| NetworkTime.TimeSync.DoSync | digital_clock.py:89-105 | connected: the clock is set once, the network shut down, nothing pending, no error, `sync` shown. Timed out: the network shut down, nothing pending, error, `err ` shown. Otherwise: pending and no error |
| NetworkTime.TimeSync.Finish | digital_clock.py:91-105 | the three branches of `_sync` after `safe_connect`, as DoSync states them |
| NetworkTime.TimeSync.Conclude | digital_clock.py:92-101 | a finished step shows its message, sets the clock only when synced, shuts the network down, clears the pending flag, and sets the error exactly on a timeout |
| NetworkTime.TimeSync.ShowMessage | digital_clock.py:92-98 | the message of a finished step is drawn |
| NetworkTime.TimeSync.Request | digital_clock.py:107-108 | only sets the pending flag, so repeating it changes nothing more |
| NetworkTime.TimeSync.Run | digital_clock.py:110-112 | the progress count is never touched; without a pending sync nothing else changes either; with one, a sync step without progress bar runs |
| NetworkTime.PendingIffAttemptOutstanding | digital_clock.py:89-105 | after a step a sync is pending exactly when an attempt is outstanding, and then its deadline has not passed; a finished step leaves the network inactive |
| NetworkTime.BlockingSyncFinishes | digital_clock.py:80-82 | with nothing pending, once the wait loop stops on a sample, the step ends synced or timed out when its timeout check reads that sample's time or later, never still connecting |
| NetworkTime.PendingStepIssuesNoConnect | digital_clock.py:89-105 | a step that finds an attempt pending issues no connect, and it finishes only as a timeout once the deadline is past |
| NetworkTime.ProgressBarsShowLast | digital_clock.py:84-87 | while the bar runs the colon is off and the cells show the latest bar |
| NetworkTime.FinishedStepShowsMessage | digital_clock.py:92-98 | a finished step ends on `sync` or `err ` as `text` draws it |
| Scheduler.Fires | digital_clock.py:134-137 | one dispatch loop makes at most as many calls as there are registrants, each a call of the hook looked for on a registrant that has it |
| Scheduler.Dispatch | digital_clock.py:133-153 | a dispatch calls only hooks that their registrant has, and makes at most three calls per registrant in total |
| Scheduler.DispatchCallsOnce | digital_clock.py:133-153 | one dispatch calls each hook of each registrant at most once |
| Scheduler.Cron.constructor | digital_clock.py:116-118 | no registrants, guard down |
| Scheduler.Cron.Add | digital_clock.py:120-121 | appends the registrant and changes nothing else |
| Scheduler.Cron.Run | digital_clock.py:123-131 | the guard ends up as `second < 6`; the hooks are dispatched exactly when `second < 6` and the guard was down |
| Scheduler.Cron.RunCalls | digital_clock.py:123-131 | a run of `run` calls returns, call by call, the fires CallsFires gives and leaves the guard as the last call left it; when every dispatch would call some hook, the number of calls that fired is the dispatch count the window lemmas are about |
| Scheduler.Cron.RunMinutely | digital_clock.py:133-139 | the minutely calls, then the hourly dispatch at minute 0 |
| Scheduler.Cron.RunHourly | digital_clock.py:141-147 | the hourly calls, then the daily calls at hour 2 |
| Scheduler.Cron.CallHooks | digital_clock.py:150-153 | the loop calls hook h of every registrant that has it, in registration order |
| Scheduler.FiresExactly | digital_clock.py:134-137 | a registrant's hook is called exactly when the registrant exists and has that hook |
| Scheduler.FiresInRegistrationOrder | digital_clock.py:134-137 | the calls of one loop go in strictly increasing registration order |
| Scheduler.DispatchOrder | digital_clock.py:133-153 | every minutely call comes before any other; hourly calls only at minute 0; daily calls only at 02:00 and after all hourly ones |
| Scheduler.DispatchCalls | digital_clock.py:133-153 | a hook is called exactly when its registrant has it and the time selects it |
| Scheduler.CallsFiresAt | digital_clock.py:123-131 | the k-th of a run of `run` calls dispatches exactly when its second is in the window and the guard the earlier calls left is down |
| Scheduler.CallsFiresCount | digital_clock.py:123-131 | when every dispatch would call some hook, the calls that fired are exactly as many as the dispatches DispatchCount counts |
| Scheduler.AtMostOncePerWindow | digital_clock.py:123-131 | within one delay window the hooks are dispatched at most once, exactly once if the guard was down, never if it was up |
| Scheduler.NextWindowDispatches | digital_clock.py:123-131 | a call outside the window lowers the guard, so the next call inside it dispatches |
| Clock.DigitalClock.constructor | digital_clock.py:162-165 | an all-zero display buffer, an empty cron with its guard down, and a TimeSync with nothing pending and no error |
| Clock.DigitalClock.Start | digital_clock.py:167-171 | the clock registers itself once and leaves the cron guard as it was, starts in the time mode, and syncs once with a progress bar: outcome, flags, progress count, network state, connects, settime count and display as `sync` states them |
| Clock.DigitalClock.RunDisplay | digital_clock.py:179-195 | draws the face of the current mode, shows it on the device, and moves to the next mode |
| Clock.DigitalClock.Hourly | digital_clock.py:197-199 | a resync is requested exactly when the last sync failed, or one was already pending |
| Clock.DigitalClock.Daily | digital_clock.py:201-202 | a resync is always requested |
| Clock.DigitalClock.RunHooks | digital_clock.py:197-202 | the cron's calls run on the clock in order, setting the pending flag as the hooks do |
| Clock.DigitalClock.Tick | digital_clock.py:173-176 | one loop pass: the face and mode of `_run`, the cron guard and dispatch, then a sync step exactly when one is pending afterwards; the clock is set at most once and only by a synced step, connects are issued only by a pending step, and the progress count is kept; the device shows the buffer whenever a face was drawn |
| Clock.NextMode | digital_clock.py:179-195 | the year mode is kept only if already entered; the date mode is entered exactly from the time mode in a fifth minute; the time mode is reached exactly from the time or guard mode outside a fifth minute |
| Clock.FaceShown | digital_clock.py:179-195 | nothing is drawn only in the year mode; the year is drawn exactly from the time mode in a fifth minute, the date exactly in the date mode |
| Clock.ModeStaysInCycle | digital_clock.py:179-195 | the mode never becomes the year mode, so every pass draws a face |
| Clock.FifthMinuteShowsYearThenDate | digital_clock.py:179-195 | in a minute divisible by five, a clock showing the time shows the year once, the date once, then only the time, and stays in the guard mode |
| Clock.GuardHoldsThroughMinute | digital_clock.py:192-195 | the guard mode shows the time and holds through a minute divisible by five |
| Clock.OtherMinutesShowTime | digital_clock.py:181-195 | in other minutes the time mode and the guard mode show the time and settle in the time mode |
| Clock.RequestAfterOneHook | digital_clock.py:197-202 | a run of hourly calls requests a resync only after a failure; a run of daily calls always requests one |
| Clock.ClockFiresEverywhere | digital_clock.py:168 | with the clock as every registrant, each loop calls every hourly and daily hook and no minutely hook |
| Clock.ResyncPolicy | digital_clock.py:197-202 | a dispatch requests a resync at minute 0 after a failed sync and at 02:00 in any case, and otherwise leaves the pending flag as it was |

## Left out

- The I2C bus is not modelled. This covers `_write_cmd`, `show`, `I2C` and `Pin`. Sent command bytes go to a ghost log, and `show()` takes a ghost snapshot of the buffer.
- The driver's I2C address and `_temp` are not modelled.
- `HT16K33.Seg7x4.BlinkRate` and `HT16K33.Seg7x4.Brightness` take an `Option`. For `blink_rate`, `None` is both the no-argument call and `blink_rate(None)`. `brightness` has no default, so `None` stands for `brightness(None)` only; a call of `brightness()` with no argument raises `TypeError` in the source and is not modelled.
- `Lower` folds only the ASCII letters A-Z, as MicroPython's `str.lower()` does on the firmware. CPython's `str.lower()` also folds other characters, and one of them reaches the table: the Kelvin sign U+212A lowers to `k`. Under CPython `put` would show it as `k`; the model leaves it blank.
- The `NUMBERS` dictionary is the function `Numbers`. `Numbers(c)` is `None` exactly where `c in NUMBERS` is false.
- `network.WLAN` is the `Radio` class. Its `connected` flag changes only through the samples of the wait loop and between ticks. The `__del__` finalizer is not modelled: finalization is left to the runtime.
- `StaNetwork.STANetwork.Connect` waits on a finite sequence of samples. Each sample holds what `isconnected()` reports and what `time.time()` reads at one poll.
  - The samples are also the loop's fuel. Running out of samples ends the wait; the real loop would wait on until connected or timed out.
- `NetworkTime.TimeSync.DoSync` draws the progress bars after `safe_connect` returns, one per `progress()` call of the wait loop. In the source they are interleaved with the polls. The display does not affect the network, so the final state is the same.
- `ntptime.settime()` and the NTP protocol are not modelled, and neither is the patching of `NTP_DELTA`/`host`. A synced step only increments the ghost counter `settimeCalls`.
- `time.sleep_ms`, `gc.collect()` and the `config` module are not modelled. They have no effect on the modelled state.
- The commented-out dot code in `time` is not modelled.
- The `while True` loop of `start()` does not terminate. `Clock.DigitalClock.Start` stops before the loop, and `Clock.DigitalClock.Tick` models one pass.
- Clock.DigitalClock.Tick: takes one value, `epoch`, for both `time.time()` reads of a pass: the one inside `safe_connect` and the one in `is_timeout`. The source reads the clock twice, and the two reads may differ.
- `Clock.DigitalClock.RunHooks` runs the clock's hooks after `Scheduler.Cron.Run` has returned the list of calls it made. In the source each hook runs inside the cron's loops. The hooks only touch the pending flag, which the cron does not read, so the final state is the same.
- Clock.DigitalClock.Tick: takes `now`, the local time of the pass. It stands for what `time.localtime()` returns.
- `NetworkTime.TimeSync.Conclude` always completes the synced branch. In the source `ntptime.settime()` can raise (a network error or a timeout), and nothing in `_sync`, `run` or the loop of `start` catches it. The display would then keep `sync`, the network stay connected, both flags stay as they were, and the main loop end. That failure path is not modelled.
- `Clock.DigitalClock.constructor` sets `nextRun` to the time mode. In the source `_next_run` is first set by `start()`; before that the attribute does not exist. Dafny requires every field to be initialised.
- `NetworkTime.TimeSync.constructor` sets `progressCount` to 0. In the source `_progress_count` is first set by `sync()`; `_progress_bar` is only reachable through `sync()`, so no observable behaviour differs.
- `_sync` returns nothing in the source. The model's `Outcome` result names the branch it took.
- The `put(':')` and `put(';')` calls of the renderers pass through the index check first, as in the source. They use index 0.

## Modelled as written

These behaviours of the code are kept exactly:

- `_sync` clears the pending flag on a timeout.
- The still-connecting branch of `_sync` resets `error`.
- The year mode is declared but never entered.
- `clear` blanks only cells 0..2.
