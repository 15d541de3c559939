# Perfect You: the task and XP engine in Dafny

Perfect You is a small productivity game with two front ends over the same JSON files:
- `perfect_u.py` is a console loop.
- `Widget.py` is an always-on-top tkinter window.

The user books tasks from a catalog at whole hours of the day. Every refresh passes over the
schedule:
- A ⏳ (pending) task whose interval holds the current time becomes 🕒.
- A ⏳ task whose interval is over is asked about with a yes/no prompt. It becomes ✓ and
  earns its XP, or X and loses half of it, never going below 0.
- Each pass that resolves at least one task appends a dated section of outcome lines to
  `xp_log.txt`; a pass that resolves nothing appends nothing, not even a header.

The level follows from the XP: level L costs 100·L + 200 XP. The console version also applies
a daily decay, gates scheduling on a "start your day" question, and keeps the `earned` of its
last 7 passes.

This project models that engine and proves it against specifications:

| file | module | what it holds |
|---|---|---|
| `wrappers.dfy` | `Wrappers` | `Option` |
| `levels.dfy` | `Levels` | `xp_for_level`, the cumulative cost `Cum`, the level bracket `IsLevelOf`, `draw_bar` |
| `tasks.dfy` | `Tasks` | task records, the one-task transition rule, the whole pass as specification functions, the selection predicates |
| `xplog.dfy` | `XpLog` | the append-only log file (class `LogFile`) |
| `profiles.dfy` | `Profiles` | the profile document (class `Profile`, fields updated in place) |
| `perfect_u.dfy` | `PerfectU` | the operations of the console version |
| `widget.dfy` | `Widget` | the operations of the widget (class `XPApp`) |

The operations are written the way the source works:
- `calculate_level`, the passes, the conflict search, the batch add and the display selection
  are loops with invariants.
- The profile, the schedule and the log are objects whose methods change their fields.

Each such method is tied to a specification function by its postcondition. The properties the
program relies on are then lemmas about those functions:
- The level bracket.
- The bar shape.
- XP never negative.
- Only ⏳ tasks change.
- One log line per resolved task.
- Idempotence of a second pass.
- No overlaps from `add_tasks`, and every free requested hour booked.

Conventions:
- **Time.** Timestamps are integer minutes. `Day(m) = m / 1440` is the date and
  `HourOf(m)` is the hour.
- **Prompts.** The yes/no prompts of a pass are an oracle `answers: nat -> bool`: the k-th
  question of the pass is answered by `answers(k)`.
- **Other input.** The `input()` of `check_day_start`, the entries typed into `add_tasks`
  and the two dialogs of `add_task_popup` are parameters.
- **Floating point.** `int(x * 0.9 ** days)` is computed exactly on rationals:
  `x·9^d / 10^d`, truncated toward zero (`PerfectU.Scaled`). `int((c / m) * 20)` is
  `20·c / m`, truncated toward zero (`Levels.TruncDiv`).

Where the code and its description differ, the model follows the code:
- The "current" task of `draw_ui` is the *last* task whose interval holds `now`, whatever its
  status.
- A task that reached 🕒 is never resolved, because only ⏳ tasks are examined.
- `Widget.py`'s next task is never a ⏳ task. See Findings.
- The XP history is described as a daily window, but `update_status` appends `earned` on every
  call (perfect_u.py:191) and `main` calls it on every loop iteration (perfect_u.py:265-266), so
  it holds the gains of the last 7 passes.

## Model

| member | source | states |
|---|---|---|
| Levels.XpForLevel | perfect_u.py:33-34 | no contract of its own; its properties are in XpForLevelIncreasing, CumClosedForm and CumIncreasing |
| Levels.XpForLevelIncreasing | perfect_u.py:33-34 | each level costs 100 more than the one before, so the cost is strictly increasing |
| Levels.CumClosedForm | perfect_u.py:37-42 | the XP needed to finish level n is 50n² + 250n |
| Levels.CumIncreasing | perfect_u.py:37-42 | the cumulative cost grows strictly with the level |
| Levels.LevelUnique | perfect_u.py:37-43 | an XP value has one level, so both `calculate_level` copies agree on it |
| Levels.LevelMonotone | perfect_u.py:37-43 | more XP never gives a lower level |
| Levels.BoundaryIsNextLevel | perfect_u.py:39-41 | XP exactly equal to the cost of levels 1..n puts the player at level n+1 (the loop test is `>=`) |
| Levels.KnownLevels | perfect_u.py:37-43 | 0 and 250 XP are level 1, 300 XP is level 2 |
| Levels.Repeat | perfect_u.py:30 | Python's `c * n`: n copies of the character, empty for n <= 0 |
| Levels.Filled | perfect_u.py:29 | no contract of its own; the fill is characterised by DrawBarZeroMax, DrawBarInRange and DrawBarAtOrAboveMax |
| Levels.DrawBar | perfect_u.py:27-30 | no contract of its own; its shape is stated by DrawBarShape and the lemmas after it |
| Levels.DrawBarShape | perfect_u.py:27-30 | the bar is `[`, then `f` `=` cells, then `20 - f` blanks (none when negative), then `]` |
| Levels.DrawBarZeroMax | perfect_u.py:29 | with max 0 the bar is `[`, 20 blanks, `]` |
| Levels.DrawBarInRange | perfect_u.py:27-30 | for 0 <= current <= max, max > 0: the fill is floor(20·current/max), between 0 and 20, and the bar has 22 characters |
| Levels.DrawBarAtOrAboveMax | perfect_u.py:29-30 | at or past the maximum the fill is floor(20·current/max) >= 20 and the bar is 2 + fill characters with no blanks: nothing caps the fill |
| Levels.DrawBarWidth | perfect_u.py:27-30 | for current >= 0 and max > 0 the bar has exactly 22 characters iff 20·current < 21·max; beyond that it is 2 + fill > 22 characters |
| PerfectU.CalculateLevel | perfect_u.py:37-43 | the loop terminates with the level whose bracket holds xp, and the second value is `xp_for_level(level)` (the expression at line 43 simplifies to it) |
| PerfectU.Scaled | perfect_u.py:69-70 | no contract of its own; `int(x * (num/den) ** days)` on exact rationals, bounded by ScaledBounds (also used for the `* 0.9` of line 97) |
| PerfectU.ScaledBounds | perfect_u.py:69-70 | a factor num/den <= 1 raised to any number of days maps a non-negative value into [0, x] |
| PerfectU.LoveDecayExample | perfect_u.py:70 | 200 love XP after 3 days of 0.95 decay is 171 |
| PerfectU.DecayStep | perfect_u.py:64-72 | last_active moves to today only when days > 0; with no day elapsed the profile is unchanged |
| PerfectU.DecayNeverIncreases | perfect_u.py:68-71 | decay never raises XP or love XP and never makes them negative |
| PerfectU.DecayIdempotent | perfect_u.py:64-72 | a second decay on the same day is a no-op |
| PerfectU.ApplyDecay | perfect_u.py:64-72 | the profile's xp, love_xp and last_active become DecayStep of their old values; nothing else changes; validity kept |
| PerfectU.DayStartGate | perfect_u.py:84-99 | scheduling is granted iff the day was already started, or the hour is inside the window and the answer is "y"; granted only on a started day; the day stays unstarted exactly when it was unstarted, the hour is inside the window and the answer was not "y", and then day_started is left as it was; XP changes only when the window was missed |
| PerfectU.GateXpNeverIncreases | perfect_u.py:95-99 | the missed-window penalty never raises XP or makes it negative |
| PerfectU.MissedWindowBypassedOnRestart | perfect_u.py:84-99 | as written: after a missed window, a later check the same day grants scheduling |
| PerfectU.DayStartGateKept | perfect_u.py:84-99 | corrected gate: a missed window refuses scheduling, and scheduling stays tied to a started day |
| PerfectU.KeptGateStable | perfect_u.py:84-86 | with the corrected gate, a day once decided keeps its decision for any later check the same day |
| PerfectU.CheckDayStart | perfect_u.py:75-100 | start_hour is asked once and kept; day_started, can_schedule and xp become DayStartGate of the old values at the clock's day and hour |
| PerfectU.TemplateAt | perfect_u.py:125 | Python indexing `tasks_data[num - 1]`: num in 1..n picks template num; num in -n+1..0 picks template n + num, counting from the end; anything else is an IndexError (None) |
| PerfectU.EntryZeroPicksLast | perfect_u.py:125 | entry number 0 books the last template |
| PerfectU.AddHours | perfect_u.py:126-149 | no contract of its own; the hours of one entry, each checked against the schedule as it stands; stated by AddHoursAccepts and AddHoursFollowsHours |
| PerfectU.EntryBatch | perfect_u.py:123-151 | no contract of its own; one typed entry; stated by EntryBatchFollowsRequest |
| PerfectU.AddEntries | perfect_u.py:119-151 | no contract of its own; a whole session of entries; stated by AddEntriesAccepts |
| PerfectU.Booked | perfect_u.py:143-149 | the tasks a session appended are one per Added result |
| PerfectU.AddHoursAccepts | perfect_u.py:131-149 | for one entry: the schedule afterwards is the old one followed by the accepted slots in order, and each requested hour is booked iff its slot overlaps nothing in the schedule as it stood at that request |
| PerfectU.AddHoursFollowsHours | perfect_u.py:126-141 | result k answers hours[k], in order, and books the template at that hour; the first hour outside 0..23 gives BadHour and ends the entry, and nothing else ends it early |
| PerfectU.EntryBatchFollowsRequest | perfect_u.py:123-151 | an unparsable line gives Malformed and an index with no template gives NoSuchTask, both leaving the schedule alone; otherwise the results answer the entry's hours for its template; in all cases the acceptance rule holds and every requested slot is a catalog booking on the day |
| PerfectU.AddEntriesAccepts | perfect_u.py:119-151 | a whole session: the schedule is the old one followed by the accepted slots in order; each requested slot is a catalog booking on the day and is accepted iff it overlaps no task already there, including tasks accepted earlier in the session |
| PerfectU.AddHoursAppends | perfect_u.py:127-149 | one entry only appends; each appended task is the template at some whole hour of the day; one Added result per appended task; no appended task overlaps any task before it |
| PerfectU.EntryBatchAppends | perfect_u.py:123-151 | the same for one typed entry, including entries that fail to parse or name no template |
| PerfectU.AddEntriesAppends | perfect_u.py:119-151 | a whole session only appends pending bookings of catalog templates on today's date, one per Added result, none overlapping an earlier task, including tasks accepted earlier in the same session |
| PerfectU.AddEntriesKeepsDisjoint | perfect_u.py:131-149 | a schedule without overlaps keeps none after add_tasks |
| PerfectU.SameHourTwice | perfect_u.py:131-141 | requesting the same free hour twice accepts the first and reports a conflict for the second |
| PerfectU.BadHourDropsRest | perfect_u.py:127-128 | an hour outside 0..23 ends its entry: hours before it are processed, hours after it are dropped |
| PerfectU.FindConflict | perfect_u.py:131-137 | the inner loop finds a conflict exactly when some scheduled task's half-open interval intersects the candidate's |
| PerfectU.LastSeven | perfect_u.py:191-193 | the history window keeps the last min(n, 7) entries |
| PerfectU.SettleTask | perfect_u.py:164-183 | one task: the schedule changes only at that index, to the transition rule's result; a due task yields its outcome line; xp is credited by that outcome |
| PerfectU.SettlePass | perfect_u.py:157-183 | the loop: the schedule becomes AdvanceAll of the old one, the lines are the pass's outcomes in schedule order, xp is credited by them in order, earned/lost are their sums |
| PerfectU.UpdateStatus | perfect_u.py:155-197 | the whole update: schedule, xp, the display counters, the history (earned appended, last 7 kept) and the log (old content plus one section) are each the specification of the old state; the profile stays valid |
| PerfectU.SelectCurrentUpcoming | perfect_u.py:208-214 | current is the last task whose interval holds now, whatever its status; upcoming is the first task that starts after now; None when there is none |
| PerfectU.AddEntry | perfect_u.py:123-151 | one entry changes the schedule and yields results exactly as EntryBatch of the old schedule says |
| PerfectU.AddTasks | perfect_u.py:105-152 | with can_schedule false the schedule is unchanged and the call is refused; otherwise the schedule and the results are AddEntries of the old schedule on the day of `now` |
| Tasks.Scheduled | perfect_u.py:143-149 | a booking is pending at hour:00 of the given day and copies name, duration and xp from the template |
| Tasks.OverlapsSymmetric | perfect_u.py:135 | the conflict test does not depend on which task is the scheduled one |
| Tasks.Credit | perfect_u.py:173-180 | no contract of its own; a gain adds, a penalty subtracts and clamps at 0; stated by XpStaysNonNegative and XpWithinEarnedAndLost |
| Tasks.Advance | perfect_u.py:164-183 | only the status changes: non-⏳ tasks are left alone; a task still ⏳ has not started; 🕒 only inside the interval; ✓ and X only after it, by the answer |
| Tasks.AdvanceFixesNonPending | perfect_u.py:164 | 🕒, ✓ and X tasks are never modified |
| Tasks.AdvanceIdempotent | perfect_u.py:164-183 | after the rule nothing is due, and applying it again at the same time changes nothing |
| Tasks.AdvanceAll | perfect_u.py:160-183 | the schedule after a pass has one task per task before it; what each becomes is stated by AdvanceAllAt and PassChangesOnlyPending |
| Tasks.Resolutions | perfect_u.py:167-183 | no contract of its own; the outcomes of a pass in schedule order, one per due task; stated by ResolutionsCount, PassIdempotent and the SettlePass postcondition |
| Tasks.AdvanceAllAt | perfect_u.py:160-183 | the pass applies the rule to every task, the task at index i answered by the reply numbered by the due tasks before it |
| Tasks.PassChangesOnlyPending | perfect_u.py:160-183 | a pass changes no task but its status, and leaves non-⏳ tasks identical |
| Tasks.ResolutionAt | perfect_u.py:167-183 | the due task at index i gets outcome number k, k the number of due tasks before it, and that outcome carries its name, its sign and its amount by the reply to question k |
| Tasks.ResolutionsCount | perfect_u.py:167-183 | exactly one log line per question asked |
| Tasks.PassSettlesDueTasks | perfect_u.py:167-183 | each question turns exactly one task into ✓ or X |
| Tasks.PassIdempotent | perfect_u.py:160-189 | a second pass at the same time asks nothing, logs nothing and changes nothing |
| Tasks.XpStaysNonNegative | perfect_u.py:180 | the clamped penalty keeps a non-negative XP non-negative |
| Tasks.XpWithinEarnedAndLost | perfect_u.py:173-181 | XP after a pass gains exactly `earned` and loses at most `lost`, less only where a penalty is clamped at 0 |
| XpLog.Section | perfect_u.py:185-189 | a pass appends nothing when it resolved nothing; otherwise a dated header and one line per outcome, in order |
| XpLog.LogFile.AppendSection | perfect_u.py:185-189 | the log becomes its old content followed by the section: old lines are untouched |
| Profiles.Profile.constructor | perfect_u.py:249-258 | the first-run profile: xp 0, love 0, level 1, seven 0s of history, last active today, no day started, scheduling allowed |
| Widget.CalculateLevel | Widget.py:32-38 | the same level as the console copy, and the second value is the XP gathered inside that level, in [0, xp_for_level(level)) for xp >= 0 |
| Widget.Popup | Widget.py:168-193 | exactly one task is appended iff there are templates, the index is in 1..n and the hour in 0..23; it is that template at hour:00 of today, pending; otherwise the schedule is unchanged |
| Widget.PopupIgnoresConflicts | Widget.py:185-193 | the popup books an overlapping slot, so a schedule without overlaps can acquire one |
| Widget.XPApp.SettleTask | Widget.py:109-129 | one task: the schedule changes only at that index, to the transition rule's result; a due task yields its line and credits xp |
| Widget.XPApp.Pass | Widget.py:100-132 | the schedule and xp follow the same rule as the console pass; current is the last ⏳ task whose interval holds now; next is the first non-⏳ task starting after now |
| Widget.XPApp.RefreshLoop | Widget.py:98-146 | the pass, the log section, and level equal to the level of the new xp; love XP, history, display counters and the day-start fields are unchanged |
| Widget.XPApp.AddTaskPopup | Widget.py:168-194 | the schedule becomes Popup of the old one with the template list and today's date |
| Widget.XPApp.constructor | Widget.py:57-67 | the app holds the loaded profile, schedule and templates |
| Widget.CurrentJustStarted | Widget.py:109-112 | the reported current task was ⏳ and is 🕒 after this pass |
| Widget.NoCurrentOnSecondPass | Widget.py:109-112 | a second pass at the same time reports no current task: a 🕒 task is only reported on the tick it started |
| Widget.PassKeepsClockConsistent | Widget.py:109-129 | a pass moves a task out of ⏳ only once it has started |
| Widget.PopupKeepsClockConsistent | Widget.py:187-193 | the popup only adds ⏳ tasks |
| Widget.NextIsAlwaysNone | Widget.py:109-132 | as written, on a schedule built by passes and popups under a clock that never goes back, next is always None |
| Widget.PendingFutureTaskIsNotNext | Widget.py:131-132 | as written, a ⏳ task booked for 10:00 and looked at 09:00 is not the next task |
| Widget.SelectNextPending | Widget.py:131-132 | the intended selection: the first ⏳ task starting after now |
| Widget.IntendedNextIsUpcoming | perfect_u.py:213-214 | on such schedules the intended selection equals the console's upcoming task |

## Left out

- PerfectU.CheckDayStart: the start-hour reply is an integer parameter. A non-numeric reply
  makes `int(input(...))` raise a ValueError that nothing catches, which ends the program; that
  path is not modelled.
- File I/O is left out:
  - `load_json` and `save_json` are replaced by objects passed as parameters.
  - The reads of `xp_log.txt` in `main` and `view_log` are not modelled.
  - Missing files and their defaults are not modelled beyond the first-run profile.
- The user interface is left out: tkinter (`setup_ui`, `update_ui`, `root.after`),
  `os.system` clears, `print`, `time.sleep` and the `main` loop. The prompts and dialogs
  become parameters.
- `datetime.now()` becomes a parameter and is held fixed within one operation. The source
  reads the clock again for each booked hour (perfect_u.py:128, Widget.py:186). This matters
  only when midnight passes during a call.
- The `strptime` and `strftime` conversions are replaced by integer minutes and day numbers.
  The widget's `[-5:]` display slices are not modelled.
- Floating point is idealised as exact rationals truncated toward zero. This covers
  `0.9 ** days`, `0.95 ** days`, `* 0.9` and the division in `draw_bar`. Rounding of
  binary floats is not captured.
- `get_days_to_next_level`, `format_task` and the averages printed by `draw_ui` are left
  out. They are float display arithmetic.
- The exact text of log lines is abstracted to a `Resolution` (name, completed, amount) plus
  the minute. A section header is abstracted to its day.
- PerfectU.EntryBatch: an entry is either parsed (number and hours) or `Unparsable`. The
  source reports a `split` or `int` failure and a `ValueError` in the hour list through the
  same `except` branch. The model therefore gives `Malformed` for all of them. When the number
  and the hours both fail, the source may report an IndexError instead; only the message
  differs.
- Profiles.Profile: a document missing `can_schedule` makes `add_tasks` refuse, because
  `.get` returns None. The model has no absent keys; the first-run profile sets the
  field. The widget's own default profile lacks the day-start fields and is not modelled
  separately.
- Widget.XPApp.constructor: `__init__` also builds the window and runs a first
  `refresh_loop`. The model constructs the state only; `RefreshLoop` is the tick.
- Widget.XPApp.Pass: `earned` and `lost` are summed as in the source but no contract
  mentions them. The widget never reads them.
- Task `xp` and `duration` are natural numbers. This is an assumption about the catalog: both
  are copied from the user-edited `tasks.json` into every booking, and nothing checks them.
  For a natural number, `int(xp / 2)` equals `xp / 2`.
- Profile: `level` is stored by the caller after `update_status` (perfect_u.py:267). That
  line is part of `main`, which is left out.

## Findings

| source | as written | input that shows it | evidently intended | confidence | as-written member | corrected member |
|---|---|---|---|---|---|---|
| perfect_u.py:84-86 | a day whose start window was missed is stored as started, so any later check the same day takes the "already started" branch and sets `can_schedule = True` | profile with no day started, start_hour 8, checked at 10:00 (refused, -10% XP), then the program restarted at 10:05 the same day: scheduling is allowed | a missed window keeps scheduling closed for the rest of the day | not executed | PerfectU.MissedWindowBypassedOnRestart | PerfectU.DayStartGateKept |
| Widget.py:131 | the `elif start > now` is attached to `if task["status"] == "⏳"`, so only non-⏳ tasks can be the next task, and those have already started | one ⏳ task at 10:00 for 30 minutes, refreshed at 09:00: next is None | next is the first ⏳ task that starts after now, which on such schedules is perfect_u.py's upcoming task | not executed | Widget.NextIsAlwaysNone | Widget.SelectNextPending |

The operations keep the code as written: `PerfectU.CheckDayStart` follows `DayStartGate`, and
`Widget.XPApp.RefreshLoop` reports `next` as the source does. The corrected definitions stand
beside them with their properties proved:
- `KeptGateStable` for the corrected gate.
- `IntendedNextIsUpcoming` for the corrected next-task selection.
