/**
 * The console front end perfect_u.py: its copy of calculate_level, the inactivity decay, the
 * day-start gate, the batch add of tasks, the status pass, and the current/upcoming selection
 * of its screen. Timestamps are whole minutes, dates are day numbers, and every prompt is a
 * parameter.
 */
module PerfectU {
  import opened Wrappers
  import opened Levels
  import opened Tasks
  import opened XpLog
  import opened Profiles

  // ---------------------------------------------------------------------------
  // Levels

  /** perfect_u.py's calculate_level: the level of `xp`, and, as written, XpForLevel of that
      level as its second value (not the progress into the level). */
  method CalculateLevel(xp: int) returns (level: int, second: int)
    ensures IsLevelOf(xp, level)
    ensures second == XpForLevel(level)
  {
    level := 1;
    var total := XpForLevel(level);
    while xp >= total
      invariant level >= 1 && total == Cum(level)
      invariant level == 1 || Cum(level - 1) <= xp
      decreases xp - total
    {
      level := level + 1;
      total := total + XpForLevel(level);
    }
    second := total - (total - XpForLevel(level));
  }

  // ---------------------------------------------------------------------------
  // Decay

  function Pow(b: nat, e: nat): (p: nat)
    ensures b > 0 ==> p > 0
  {
    if e == 0 then 1 else b * Pow(b, e - 1)
  }

  lemma MulMonotone(a: nat, x: nat, b: nat, y: nat)
    requires a <= b && x <= y
    ensures a * x <= b * y
  {
    assert a * x <= b * x;
    assert b * x <= b * y;
  }

  lemma {:induction false} PowMonotone(a: nat, b: nat, e: nat)
    requires a <= b
    ensures Pow(a, e) <= Pow(b, e)
  {
    if e > 0 {
      PowMonotone(a, b, e - 1);
      MulMonotone(a, Pow(a, e - 1), b, Pow(b, e - 1));
    }
  }

  /**
   * int(x * (num / den) ** days), with the power computed exactly instead of in floating
   * point: x * num^days / den^days truncated toward zero.
   */
  function Scaled(x: int, num: nat, den: nat, days: nat): int
    requires den > 0
  {
    TruncDiv(x * Pow(num, days), Pow(den, days))
  }

  /** A factor num/den <= 1 never increases a non-negative value, nor makes it negative. */
  lemma ScaledBounds(x: int, num: nat, den: nat, days: nat)
    requires 0 <= x && num <= den && 0 < den
    ensures 0 <= Scaled(x, num, den, days) <= x
  {
    var p, q := Pow(num, days), Pow(den, days);
    var a := x * p;
    assert 0 <= a <= q * x by {
      PowMonotone(num, den, days);
      MulMonotone(x, p, x, q);
      MulMonotone(0, p, x, p);
    }
    TruncDivWithin(a, q, x);
  }

  /** 200 love XP after three days: int(200 * 0.95 ** 3) = 171. */
  lemma LoveDecayExample()
    ensures Scaled(200, 19, 20, 3) == 171
  {
    assert Pow(19, 3) == 6859 && Pow(20, 3) == 8000;
  }

  /** The fields apply_decay reads and writes. */
  datatype Decay = Decay(xp: int, loveXp: int, lastActive: int)

  /** apply_decay on its fields: XP keeps 0.9 and love XP 0.95 per elapsed day, and the last
      active day moves to today; with no day elapsed nothing changes. */
  function DecayStep(d: Decay, today: int): (r: Decay)
    ensures r.lastActive == if today > d.lastActive then today else d.lastActive
    ensures today <= d.lastActive ==> r == d
  {
    var days := today - d.lastActive;
    if days > 0 then Decay(Scaled(d.xp, 9, 10, days), Scaled(d.loveXp, 19, 20, days), today)
    else d
  }

  /** Decay never increases XP or love XP, and never makes them negative. */
  lemma DecayNeverIncreases(d: Decay, today: int)
    requires 0 <= d.xp && 0 <= d.loveXp
    ensures var r := DecayStep(d, today);
      0 <= r.xp <= d.xp && 0 <= r.loveXp <= d.loveXp
  {
    var days := today - d.lastActive;
    if days > 0 {
      ScaledBounds(d.xp, 9, 10, days);
      ScaledBounds(d.loveXp, 19, 20, days);
    }
  }

  /** A second decay the same day is a no-op. */
  lemma DecayIdempotent(d: Decay, today: int)
    ensures DecayStep(DecayStep(d, today), today) == DecayStep(d, today)
  {
  }

  method ApplyDecay(profile: Profile, today: int)
    requires profile.Valid()
    modifies profile`xp, profile`loveXp, profile`lastActive
    ensures profile.Valid()
    ensures Decay(profile.xp, profile.loveXp, profile.lastActive) ==
            DecayStep(Decay(old(profile.xp), old(profile.loveXp), old(profile.lastActive)), today)
  {
    var days := today - profile.lastActive;
    if days > 0 {
      ScaledBounds(profile.xp, 9, 10, days);
      ScaledBounds(profile.loveXp, 19, 20, days);
      profile.xp := Scaled(profile.xp, 9, 10, days);
      profile.loveXp := Scaled(profile.loveXp, 19, 20, days);
      profile.lastActive := today;
    }
  }

  // ---------------------------------------------------------------------------
  // Day-start gate

  /** The fields check_day_start decides. */
  datatype Gate = Gate(dayStarted: Option<int>, canSchedule: bool, xp: int)

  /**
   * check_day_start after start_hour is known: a day already started grants scheduling; within
   * the window (hour < start_hour + 1) a "y" starts the day and anything else refuses; past
   * the window scheduling is refused, XP loses 10% and the day counts as started.
   */
  function DayStartGate(g: Gate, today: int, hour: int, startHour: int, startDay: bool): (r: Gate)
    ensures r.canSchedule ==> r.dayStarted == Some(today)
    ensures r.dayStarted != Some(today) <==>
            g.dayStarted != Some(today) && hour < startHour + 1 && !startDay
    ensures r.xp != g.xp ==> g.dayStarted != Some(today) && startHour + 1 <= hour
    ensures r.canSchedule <==> g.dayStarted == Some(today) || (hour < startHour + 1 && startDay)
    ensures g.dayStarted != Some(today) && hour < startHour + 1 && !startDay ==> r.dayStarted == g.dayStarted
  {
    if g.dayStarted == Some(today) then g.(canSchedule := true)
    else if hour < startHour + 1 then
      if startDay then g.(dayStarted := Some(today), canSchedule := true)
      else g.(canSchedule := false)
    else Gate(Some(today), false, Scaled(g.xp, 9, 10, 1))
  }

  /** The gate never raises XP, and never makes it negative. */
  lemma GateXpNeverIncreases(g: Gate, today: int, hour: int, startHour: int, startDay: bool)
    requires g.xp >= 0
    ensures 0 <= DayStartGate(g, today, hour, startHour, startDay).xp <= g.xp
  {
    ScaledBounds(g.xp, 9, 10, 1);
  }

  /**
   * As written, once the day counts as started any later check the same day grants scheduling.
   * In particular a missed window (scheduling refused, 10% penalty) is undone by restarting
   * the program the same day.
   */
  lemma MissedWindowBypassedOnRestart(g: Gate, today: int, hour: int, startHour: int,
                                      startDay: bool, laterHour: int, laterStartDay: bool)
    requires g.dayStarted != Some(today) && startHour + 1 <= hour
    ensures var first := DayStartGate(g, today, hour, startHour, startDay);
      !first.canSchedule &&
      DayStartGate(first, today, laterHour, startHour, laterStartDay) == first.(canSchedule := true)
  {
  }

  /**
   * The gate as evidently intended: a day already decided keeps the decision stored with it,
   * so a missed window stays closed for the rest of the day.
   */
  function DayStartGateKept(g: Gate, today: int, hour: int, startHour: int, startDay: bool): (r: Gate)
    ensures (g.canSchedule ==> g.dayStarted == Some(today)) ==> (r.canSchedule ==> r.dayStarted == Some(today))
    ensures g.dayStarted != Some(today) && startHour + 1 <= hour ==> !r.canSchedule
  {
    if g.dayStarted == Some(today) then g
    else DayStartGate(g, today, hour, startHour, startDay)
  }

  /** With the intended gate, repeating the check the same day, at any hour and with any reply,
      changes nothing once the day counts as started. */
  lemma KeptGateStable(g: Gate, today: int, hour: int, startHour: int, startDay: bool,
                       laterHour: int, laterStartDay: bool)
    ensures var first := DayStartGateKept(g, today, hour, startHour, startDay);
      first.dayStarted == Some(today) ==>
        DayStartGateKept(first, today, laterHour, startHour, laterStartDay) == first
  {
  }

  /** check_day_start: asks for start_hour when the profile has none, then applies the gate
      with the clock's day and hour. */
  method CheckDayStart(profile: Profile, now: int, startHourReply: int, startDay: bool)
    requires profile.Valid()
    modifies profile`startHour, profile`dayStarted, profile`canSchedule, profile`xp
    ensures profile.Valid()
    ensures profile.startHour == if old(profile.startHour).None? then Some(startHourReply) else old(profile.startHour)
    ensures Gate(profile.dayStarted, profile.canSchedule, profile.xp) ==
            DayStartGate(Gate(old(profile.dayStarted), old(profile.canSchedule), old(profile.xp)),
                         Day(now), HourOf(now), profile.startHour.value, startDay)
  {
    var today, hour := Day(now), HourOf(now);
    if profile.startHour.None? {
      profile.startHour := Some(startHourReply);
    }
    if profile.dayStarted == Some(today) {
      profile.canSchedule := true;
      return;
    }
    if hour < profile.startHour.value + 1 {
      if startDay {
        profile.dayStarted := Some(today);
        profile.canSchedule := true;
      } else {
        profile.canSchedule := false;
      }
    } else {
      ScaledBounds(profile.xp, 9, 10, 1);
      profile.xp := Scaled(profile.xp, 9, 10, 1);
      profile.canSchedule := false;
      profile.dayStarted := Some(today);
    }
  }

  // ---------------------------------------------------------------------------
  // Adding tasks

  /** schedule.json: the list the core appends to and updates in place. */
  class Schedule {
    var tasks: seq<Task>

    constructor (tasks: seq<Task>)
      ensures this.tasks == tasks
    {
      this.tasks := tasks;
    }
  }

  /** One line typed at the add prompt, "num; h1,h2,...", or a line that does not parse. */
  datatype Entry = Entry(num: int, hours: seq<int>) | Unparsable

  /** What the add prompt reports. */
  datatype AddResult =
    | Added(hour: int, slot: Task)     // appended; `slot` is the task appended
    | Conflict(hour: int, slot: Task)  // "⚠️ Conflict: ... overlaps."; `slot` is the refused booking
    | BadHour(hour: int)     // datetime.replace raised: the entry's remaining hours are dropped
    | NoSuchTask(num: int)   // tasks_data[num - 1] raised IndexError
    | Malformed              // split or int() raised
    | Refused                // "🚫 You cannot schedule tasks today."

  datatype Batch = Batch(tasks: seq<Task>, results: seq<AddResult>)

  function Then(rs: seq<AddResult>, b: Batch): Batch {
    Batch(b.tasks, rs + b.results)
  }

  /** Python's tasks_data[num - 1]: negative indices count from the end, so 0 is the last. */
  function TemplateAt(templates: seq<Template>, num: int): (r: Option<Template>)
    ensures r.Some? ==> r.value in templates
    ensures r.Some? <==> -|templates| < num <= |templates|
    ensures 1 <= num <= |templates| ==> r == Some(templates[num - 1])
    ensures -|templates| < num <= 0 ==> r == Some(templates[|templates| + num - 1])
  {
    var i := num - 1;
    if 0 <= i < |templates| then Some(templates[i])
    else if -|templates| <= i < 0 then Some(templates[|templates| + i])
    else None
  }

  /** Entry number 0 selects the last template. */
  lemma EntryZeroPicksLast(templates: seq<Template>)
    requires templates != []
    ensures TemplateAt(templates, 0) == Some(templates[|templates| - 1])
  {
  }

  /** The hours of one entry, in order, each checked against the schedule as it stands. */
  function AddHours(schedule: seq<Task>, tpl: Template, day: int, hours: seq<int>): Batch
    decreases |hours|
  {
    if hours == [] then Batch(schedule, [])
    else
      var h := hours[0];
      if !(0 <= h <= 23) then Batch(schedule, [BadHour(h)])
      else
        var t := Scheduled(tpl, day, h);
        if Clashes(schedule, t) then Then([Conflict(h, t)], AddHours(schedule, tpl, day, hours[1..]))
        else Then([Added(h, t)], AddHours(schedule + [t], tpl, day, hours[1..]))
  }

  /** One hour further into an entry whose earlier hours produced `results` and schedule `s`:
      a bad hour ends the entry, a clash records a conflict, anything else books the slot. */
  lemma AddHoursStep(s0: seq<Task>, tpl: Template, day: int, hours: seq<int>, j: int,
                     results: seq<AddResult>, s: seq<Task>)
    requires 0 <= j < |hours|
    requires AddHours(s0, tpl, day, hours) == Then(results, AddHours(s, tpl, day, hours[j..]))
    ensures var h := hours[j];
      !(0 <= h <= 23) ==> AddHours(s0, tpl, day, hours) == Batch(s, results + [BadHour(h)])
    ensures var h, t := hours[j], Scheduled(tpl, day, hours[j]);
      0 <= h <= 23 && Clashes(s, t) ==>
        AddHours(s0, tpl, day, hours) == Then(results + [Conflict(h, t)], AddHours(s, tpl, day, hours[j + 1..]))
    ensures var h, t := hours[j], Scheduled(tpl, day, hours[j]);
      0 <= h <= 23 && !Clashes(s, t) ==>
        AddHours(s0, tpl, day, hours) == Then(results + [Added(h, t)], AddHours(s + [t], tpl, day, hours[j + 1..]))
  {
    assert hours[j..][0] == hours[j] && hours[j..][1..] == hours[j + 1..];
  }

  /** One entry: the body of the `try` block. */
  function EntryBatch(schedule: seq<Task>, templates: seq<Template>, day: int, e: Entry): Batch {
    match e
    case Unparsable => Batch(schedule, [Malformed])
    case Entry(num, hours) =>
      match TemplateAt(templates, num)
      case None => Batch(schedule, [NoSuchTask(num)])
      case Some(tpl) => AddHours(schedule, tpl, day, hours)
  }

  /** The entries of one add session, in order. */
  function AddEntries(schedule: seq<Task>, templates: seq<Template>, day: int, entries: seq<Entry>): Batch
    decreases |entries|
  {
    if entries == [] then Batch(schedule, [])
    else
      var b := EntryBatch(schedule, templates, day, entries[0]);
      Then(b.results, AddEntries(b.tasks, templates, day, entries[1..]))
  }

  function CountAdded(rs: seq<AddResult>): nat {
    if rs == [] then 0 else (if rs[0].Added? then 1 else 0) + CountAdded(rs[1..])
  }

  lemma {:induction false} CountAddedConcat(a: seq<AddResult>, b: seq<AddResult>)
    ensures CountAdded(a + b) == CountAdded(a) + CountAdded(b)
  {
    if a == [] {
      assert a + b == b;
    } else {
      assert (a + b)[1..] == a[1..] + b;
      CountAddedConcat(a[1..], b);
    }
  }

  /** A task appended after `n` existing ones overlaps none of the tasks before it. */
  predicate ConflictFreeAfter(tasks: seq<Task>, n: int) {
    forall i, j :: 0 <= i < j < |tasks| && n <= j ==> !Overlaps(tasks[i], tasks[j])
  }

  /** A slot booked without a clash, followed by bookings that clash with nothing before them:
      the whole tail after `s` is made of bookings free of clashes. */
  lemma BookedBefore(s: seq<Task>, tpl: Template, day: int, h: int, r: seq<Task>)
    requires 0 <= h < 24 && !Clashes(s, Scheduled(tpl, day, h))
    requires |s| + 1 <= |r| && r[..|s| + 1] == s + [Scheduled(tpl, day, h)]
    requires forall k :: |s| + 1 <= k < |r| ==> exists h' :: 0 <= h' < 24 && r[k] == Scheduled(tpl, day, h')
    requires ConflictFreeAfter(r, |s| + 1)
    ensures r[..|s|] == s
    ensures forall k :: |s| <= k < |r| ==> exists h' :: 0 <= h' < 24 && r[k] == Scheduled(tpl, day, h')
    ensures ConflictFreeAfter(r, |s|)
  {
    var t := Scheduled(tpl, day, h);
    assert r[..|s|] == r[..|s| + 1][..|s|];
    assert r[|s|] == r[..|s| + 1][|s|] == t;
    forall i, j | 0 <= i < j < |r| && |s| <= j
      ensures !Overlaps(r[i], r[j])
    {
      if j == |s| {
        assert r[i] == r[..|s|][i] == s[i];
      }
    }
  }

  /**
   * An entry only appends: the existing schedule stays a prefix, each new task is the template
   * at one of the requested hours, one per Added result, and none overlaps a task before it.
   */
  lemma {:induction false} AddHoursAppends(s: seq<Task>, tpl: Template, day: int, hours: seq<int>)
    ensures var r := AddHours(s, tpl, day, hours);
      |s| <= |r.tasks| && r.tasks[..|s|] == s &&
      |r.tasks| == |s| + CountAdded(r.results) &&
      (forall k :: |s| <= k < |r.tasks| ==> exists h :: 0 <= h < 24 && r.tasks[k] == Scheduled(tpl, day, h)) &&
      ConflictFreeAfter(r.tasks, |s|)
    decreases |hours|
  {
    if hours != [] && 0 <= hours[0] <= 23 {
      var h := hours[0];
      var t := Scheduled(tpl, day, h);
      var r := AddHours(s, tpl, day, hours);
      if Clashes(s, t) {
        var rest := AddHours(s, tpl, day, hours[1..]);
        AddHoursAppends(s, tpl, day, hours[1..]);
        CountAddedConcat([Conflict(h, t)], rest.results);
      } else {
        var s' := s + [t];
        var rest := AddHours(s', tpl, day, hours[1..]);
        AddHoursAppends(s', tpl, day, hours[1..]);
        CountAddedConcat([Added(h, t)], rest.results);
        assert r.tasks == rest.tasks;
        BookedBefore(s, tpl, day, h, rest.tasks);
      }
    }
  }

  lemma EntryBatchAppends(s: seq<Task>, templates: seq<Template>, day: int, e: Entry)
    ensures var r := EntryBatch(s, templates, day, e);
      |s| <= |r.tasks| && r.tasks[..|s|] == s &&
      |r.tasks| == |s| + CountAdded(r.results) &&
      (forall k :: |s| <= k < |r.tasks| ==> IsBooking(r.tasks[k], templates, day)) &&
      ConflictFreeAfter(r.tasks, |s|)
  {
    if e.Entry? && TemplateAt(templates, e.num).Some? {
      var tpl := TemplateAt(templates, e.num).value;
      AddHoursAppends(s, tpl, day, e.hours);
      var r := AddHours(s, tpl, day, e.hours);
      forall k | |s| <= k < |r.tasks|
        ensures IsBooking(r.tasks[k], templates, day)
      {
        var h :| 0 <= h < 24 && r.tasks[k] == Scheduled(tpl, day, h);
      }
    }
  }

  /**
   * add_tasks only appends: the old schedule stays a prefix, every appended task is a pending
   * booking of a catalog template at a whole hour of today, one per Added result, and no
   * appended task overlaps any task before it, including those accepted earlier in the batch.
   */
  lemma {:induction false} AddEntriesAppends(s: seq<Task>, templates: seq<Template>, day: int, entries: seq<Entry>)
    ensures var r := AddEntries(s, templates, day, entries);
      |s| <= |r.tasks| && r.tasks[..|s|] == s &&
      |r.tasks| == |s| + CountAdded(r.results) &&
      (forall k :: |s| <= k < |r.tasks| ==> IsBooking(r.tasks[k], templates, day)) &&
      ConflictFreeAfter(r.tasks, |s|)
    decreases |entries|
  {
    if entries != [] {
      var b := EntryBatch(s, templates, day, entries[0]);
      var rest := AddEntries(b.tasks, templates, day, entries[1..]);
      EntryBatchAppends(s, templates, day, entries[0]);
      AddEntriesAppends(b.tasks, templates, day, entries[1..]);
      CountAddedConcat(b.results, rest.results);
      assert rest.tasks[..|s|] == s by { assert rest.tasks[..|b.tasks|][..|s|] == s; }
      forall k | |s| <= k < |rest.tasks|
        ensures IsBooking(rest.tasks[k], templates, day)
      {
        if k < |b.tasks| {
          assert rest.tasks[k] == rest.tasks[..|b.tasks|][k] == b.tasks[k];
        }
      }
      forall i, j | 0 <= i < j < |rest.tasks| && |s| <= j
        ensures !Overlaps(rest.tasks[i], rest.tasks[j])
      {
        if j < |b.tasks| {
          assert rest.tasks[j] == rest.tasks[..|b.tasks|][j] == b.tasks[j];
          assert rest.tasks[i] == rest.tasks[..|b.tasks|][i] == b.tasks[i];
        }
      }
    }
  }

  /** The tasks a sequence of add results appended, in order: the slot of each Added result. */
  function Booked(rs: seq<AddResult>): (b: seq<Task>)
    ensures |b| == CountAdded(rs)
  {
    if rs == [] then [] else (if rs[0].Added? then [rs[0].slot] else []) + Booked(rs[1..])
  }

  lemma {:induction false} BookedConcat(a: seq<AddResult>, b: seq<AddResult>)
    ensures Booked(a + b) == Booked(a) + Booked(b)
  {
    if a == [] {
      assert a + b == b;
    } else {
      assert (a + b)[1..] == a[1..] + b;
      BookedConcat(a[1..], b);
    }
  }

  /**
   * The acceptance rule of add_tasks, starting from schedule `s`: the schedule afterwards is
   * `s` followed by the accepted slots in order, and each requested slot is accepted exactly
   * when it overlaps no task of the schedule as it stood at that request.
   */
  predicate AcceptsFree(s: seq<Task>, b: Batch) {
    b.tasks == s + Booked(b.results) &&
    forall k :: 0 <= k < |b.results| && (b.results[k].Added? || b.results[k].Conflict?) ==>
      (b.results[k].Added? <==> !Clashes(s + Booked(b.results[..k]), b.results[k].slot))
  }

  /**
   * The results of one entry answer its hours one by one, in order: result k is for hours[k]
   * and books the template at that hour; the first hour outside 0..23 gives BadHour and ends
   * the entry, and only that can end it early.
   */
  predicate FollowsHours(tpl: Template, day: int, hours: seq<int>, rs: seq<AddResult>) {
    |rs| <= |hours| &&
    (|rs| < |hours| ==> rs != [] && rs[|rs| - 1].BadHour?) &&
    forall k :: 0 <= k < |rs| ==>
      (rs[k].Added? || rs[k].Conflict? || rs[k].BadHour?) && rs[k].hour == hours[k] &&
      (rs[k].BadHour? <==> !(0 <= hours[k] <= 23)) &&
      (rs[k].BadHour? ==> k == |rs| - 1) &&
      (!rs[k].BadHour? ==> rs[k].slot == Scheduled(tpl, day, hours[k]))
  }

  /** Every requested slot is a pending booking of a catalog template at a whole hour of `day`. */
  predicate SlotsFrom(templates: seq<Template>, day: int, rs: seq<AddResult>) {
    forall k :: 0 <= k < |rs| && (rs[k].Added? || rs[k].Conflict?) ==> IsBooking(rs[k].slot, templates, day)
  }

  /** The rule composes: a batch that follows it, continued by another from where it ended. */
  lemma AcceptsFreeThen(s: seq<Task>, b: Batch, c: Batch)
    requires AcceptsFree(s, b) && AcceptsFree(b.tasks, c)
    ensures AcceptsFree(s, Batch(c.tasks, b.results + c.results))
  {
    var rs := b.results + c.results;
    BookedConcat(b.results, c.results);
    forall k | 0 <= k < |rs| && (rs[k].Added? || rs[k].Conflict?)
      ensures rs[k].Added? <==> !Clashes(s + Booked(rs[..k]), rs[k].slot)
    {
      if k < |b.results| {
        assert rs[..k] == b.results[..k];
      } else {
        var j := k - |b.results|;
        assert rs[k] == c.results[j];
        assert rs[..k] == b.results + c.results[..j];
        BookedConcat(b.results, c.results[..j]);
        assert s + Booked(rs[..k]) == b.tasks + Booked(c.results[..j]);
      }
    }
  }

  /** One hour of an entry on its own follows the rule. */
  lemma FirstHourAccepts(s: seq<Task>, tpl: Template, day: int, h: int)
    requires 0 <= h <= 23
    ensures var t := Scheduled(tpl, day, h);
      var x := if Clashes(s, t) then Conflict(h, t) else Added(h, t);
      AcceptsFree(s, Batch(if Clashes(s, t) then s else s + [t], [x]))
  {
    var t := Scheduled(tpl, day, h);
    var x := if Clashes(s, t) then Conflict(h, t) else Added(h, t);
    assert [x][..0] == [] && [x][1..] == [];
  }

  /** add_tasks books a requested hour exactly when it is free: an entry's hours follow the
      acceptance rule. */
  lemma {:induction false} AddHoursAccepts(s: seq<Task>, tpl: Template, day: int, hours: seq<int>)
    ensures AcceptsFree(s, AddHours(s, tpl, day, hours))
    decreases |hours|
  {
    if hours != [] {
      var h := hours[0];
      if !(0 <= h <= 23) {
        assert [BadHour(h)][1..] == [];
      } else {
        var t := Scheduled(tpl, day, h);
        var s' := if Clashes(s, t) then s else s + [t];
        var x := if Clashes(s, t) then Conflict(h, t) else Added(h, t);
        FirstHourAccepts(s, tpl, day, h);
        AddHoursAccepts(s', tpl, day, hours[1..]);
        AcceptsFreeThen(s, Batch(s', [x]), AddHours(s', tpl, day, hours[1..]));
      }
    }
  }

  /** An entry's results answer the requested hours in order, for the entry's template. */
  lemma {:induction false} AddHoursFollowsHours(s: seq<Task>, tpl: Template, day: int, hours: seq<int>)
    ensures FollowsHours(tpl, day, hours, AddHours(s, tpl, day, hours).results)
    decreases |hours|
  {
    if hours != [] && 0 <= hours[0] <= 23 {
      var h := hours[0];
      var t := Scheduled(tpl, day, h);
      var s' := if Clashes(s, t) then s else s + [t];
      var x := if Clashes(s, t) then Conflict(h, t) else Added(h, t);
      var rest := AddHours(s', tpl, day, hours[1..]).results;
      AddHoursFollowsHours(s', tpl, day, hours[1..]);
      var rs := [x] + rest;
      assert AddHours(s, tpl, day, hours).results == rs;
      forall k | 1 <= k < |rs|
        ensures rs[k] == rest[k - 1] && hours[k] == hours[1..][k - 1]
      {
      }
    }
  }

  /**
   * One typed entry: a line that does not parse reports Malformed and a number that names no
   * template reports NoSuchTask, both leaving the schedule alone; otherwise the results answer
   * the entry's hours for its template. In every case the acceptance rule holds and every
   * requested slot is a booking of a catalog template on `day`.
   */
  lemma EntryBatchFollowsRequest(s: seq<Task>, templates: seq<Template>, day: int, e: Entry)
    ensures var r := EntryBatch(s, templates, day, e);
      AcceptsFree(s, r) && SlotsFrom(templates, day, r.results) &&
      (e.Unparsable? ==> r == Batch(s, [Malformed])) &&
      (e.Entry? && TemplateAt(templates, e.num).None? ==> r == Batch(s, [NoSuchTask(e.num)])) &&
      (e.Entry? && TemplateAt(templates, e.num).Some? ==>
        FollowsHours(TemplateAt(templates, e.num).value, day, e.hours, r.results))
  {
    if e.Entry? && TemplateAt(templates, e.num).Some? {
      var tpl := TemplateAt(templates, e.num).value;
      AddHoursAccepts(s, tpl, day, e.hours);
      AddHoursFollowsHours(s, tpl, day, e.hours);
    } else {
      var r := EntryBatch(s, templates, day, e);
      assert r.results[1..] == [];
    }
  }

  /**
   * A whole add session follows the acceptance rule: the schedule afterwards is the old one
   * followed by the accepted slots in order, each requested slot is a catalog booking on `day`,
   * and it is accepted exactly when it overlaps nothing already in the schedule, including the
   * tasks accepted earlier in the same session.
   */
  lemma {:induction false} AddEntriesAccepts(s: seq<Task>, templates: seq<Template>, day: int, entries: seq<Entry>)
    ensures var r := AddEntries(s, templates, day, entries);
      AcceptsFree(s, r) && SlotsFrom(templates, day, r.results)
    decreases |entries|
  {
    if entries != [] {
      var b := EntryBatch(s, templates, day, entries[0]);
      var rest := AddEntries(b.tasks, templates, day, entries[1..]);
      EntryBatchFollowsRequest(s, templates, day, entries[0]);
      AddEntriesAccepts(b.tasks, templates, day, entries[1..]);
      AcceptsFreeThen(s, b, rest);
      var rs := b.results + rest.results;
      forall k | 0 <= k < |rs| && (rs[k].Added? || rs[k].Conflict?)
        ensures IsBooking(rs[k].slot, templates, day)
      {
        if k >= |b.results| {
          assert rs[k] == rest.results[k - |b.results|];
        }
      }
    }
  }

  /** A schedule of pairwise non-overlapping tasks stays so after add_tasks. */
  lemma AddEntriesKeepsDisjoint(s: seq<Task>, templates: seq<Template>, day: int, entries: seq<Entry>)
    requires Disjoint(s)
    ensures Disjoint(AddEntries(s, templates, day, entries).tasks)
  {
    var r := AddEntries(s, templates, day, entries).tasks;
    AddEntriesAppends(s, templates, day, entries);
    forall i, j | 0 <= i < j < |r|
      ensures !Overlaps(r[i], r[j])
    {
      if j < |s| {
        assert r[i] == r[..|s|][i] && r[j] == r[..|s|][j];
      }
    }
  }

  /** Requesting the same free hour twice accepts the first request and reports a conflict for
      the second, which overlaps the task just accepted. */
  lemma SameHourTwice(s: seq<Task>, tpl: Template, day: int, h: int)
    requires 0 <= h <= 23 && tpl.duration > 0
    requires !Clashes(s, Scheduled(tpl, day, h))
    ensures AddHours(s, tpl, day, [h, h]) == Batch(s + [Scheduled(tpl, day, h)], [Added(h, Scheduled(tpl, day, h)), Conflict(h, Scheduled(tpl, day, h))])
  {
    var t := Scheduled(tpl, day, h);
    var s' := s + [t];
    assert [h, h][1..] == [h];
    assert Overlaps(s'[|s|], t);
    assert Clashes(s', t);
    assert [h][1..] == [];
    assert AddHours(s', tpl, day, [h]) == Batch(s', [Conflict(h, t)]);
    assert AddHours(s, tpl, day, [h, h]) == Then([Added(h, t)], AddHours(s', tpl, day, [h]));
  }

  /**
   * An hour outside 0..23 ends its entry: the hours before it stay processed and the hours
   * after it are dropped.
   */
  lemma {:induction false} BadHourDropsRest(s: seq<Task>, tpl: Template, day: int,
                                            before: seq<int>, h: int, after: seq<int>)
    requires forall k :: 0 <= k < |before| ==> 0 <= before[k] <= 23
    requires !(0 <= h <= 23)
    ensures var b := AddHours(s, tpl, day, before);
      AddHours(s, tpl, day, before + [h] + after) == Batch(b.tasks, b.results + [BadHour(h)])
    decreases |before|
  {
    var hours := before + [h] + after;
    if before == [] {
      assert hours[0] == h;
    } else {
      assert hours[0] == before[0];
      assert hours[1..] == before[1..] + [h] + after;
      var t := Scheduled(tpl, day, before[0]);
      if Clashes(s, t) {
        BadHourDropsRest(s, tpl, day, before[1..], h, after);
      } else {
        BadHourDropsRest(s + [t], tpl, day, before[1..], h, after);
      }
    }
  }

  /** The inner conflict loop of add_tasks: stops at the first overlapping task. */
  method FindConflict(schedule: seq<Task>, candidate: Task) returns (conflict: bool)
    ensures conflict <==> Clashes(schedule, candidate)
  {
    conflict := false;
    var k := 0;
    while k < |schedule|
      invariant 0 <= k <= |schedule|
      invariant forall j :: 0 <= j < k ==> !Overlaps(schedule[j], candidate)
    {
      if Overlaps(schedule[k], candidate) {
        conflict := true;
        break;
      }
      k := k + 1;
    }
  }

  /** One entry of add_tasks: look up the template, then book each hour in turn. */
  method AddEntry(schedule: Schedule, templates: seq<Template>, day: int, e: Entry)
      returns (results: seq<AddResult>)
    modifies schedule
    ensures Batch(schedule.tasks, results) == EntryBatch(old(schedule.tasks), templates, day, e)
  {
    if e.Unparsable? {
      return [Malformed];
    }
    var tpl := TemplateAt(templates, e.num);
    if tpl.None? {
      return [NoSuchTask(e.num)];
    }
    ghost var s0 := schedule.tasks;
    var hours := e.hours;
    results := [];
    var j := 0;
    while j < |hours|
      invariant 0 <= j <= |hours|
      invariant AddHours(s0, tpl.value, day, hours) == Then(results, AddHours(schedule.tasks, tpl.value, day, hours[j..]))
    {
      var hour := hours[j];
      AddHoursStep(s0, tpl.value, day, hours, j, results, schedule.tasks);
      if !(0 <= hour <= 23) {
        results := results + [BadHour(hour)];
        return;
      }
      var task := Scheduled(tpl.value, day, hour);
      var conflict := FindConflict(schedule.tasks, task);
      if conflict {
        results := results + [Conflict(hour, task)];
      } else {
        schedule.tasks := schedule.tasks + [task];
        results := results + [Added(hour, task)];
      }
      j := j + 1;
    }
    assert hours[j..] == [];
  }

  /** One entry further into a session whose earlier entries produced `results` and schedule `s`. */
  lemma AddEntriesStep(s0: seq<Task>, templates: seq<Template>, day: int, entries: seq<Entry>, i: int,
                       results: seq<AddResult>, s: seq<Task>)
    requires 0 <= i < |entries|
    requires AddEntries(s0, templates, day, entries) == Then(results, AddEntries(s, templates, day, entries[i..]))
    ensures var b := EntryBatch(s, templates, day, entries[i]);
      AddEntries(s0, templates, day, entries) ==
        Then(results + b.results, AddEntries(b.tasks, templates, day, entries[i + 1..]))
  {
    assert entries[i..][0] == entries[i] && entries[i..][1..] == entries[i + 1..];
  }

  /**
   * add_tasks: refused outright unless scheduling is allowed today; otherwise each entry in
   * turn, all hours booked on the day of `now`.
   */
  method AddTasks(profile: Profile, schedule: Schedule, templates: seq<Template>, entries: seq<Entry>, now: int)
      returns (results: seq<AddResult>)
    modifies schedule
    ensures !profile.canSchedule ==> schedule.tasks == old(schedule.tasks) && results == [Refused]
    ensures profile.canSchedule ==>
      Batch(schedule.tasks, results) == AddEntries(old(schedule.tasks), templates, Day(now), entries)
  {
    if !profile.canSchedule {
      return [Refused];
    }
    var day := Day(now);
    ghost var s0 := schedule.tasks;
    results := [];
    var i := 0;
    while i < |entries|
      invariant 0 <= i <= |entries|
      invariant AddEntries(s0, templates, day, entries) == Then(results, AddEntries(schedule.tasks, templates, day, entries[i..]))
    {
      AddEntriesStep(s0, templates, day, entries, i, results, schedule.tasks);
      var more := AddEntry(schedule, templates, day, entries[i]);
      results := results + more;
      i := i + 1;
    }
    assert entries[i..] == [];
  }

  // ---------------------------------------------------------------------------
  // Status pass

  /** The history window: the last 7 entries, or all of them when there are fewer. */
  function LastSeven(h: seq<int>): (r: seq<int>)
    ensures |r| == if |h| > 7 then 7 else |h|
    ensures r == h[|h| - |r|..]
  {
    if |h| > 7 then h[|h| - 7..] else h
  }

  /** The body of update_status's loop for the task at index i: an ⏳ task whose interval holds
      `now` becomes 🕒; one whose interval has ended is settled by `reply` (✓ adds its XP, X takes
      half of it, clamped at 0) and yields its log line; any other task is left as it is. */
  method SettleTask(profile: Profile, schedule: Schedule, i: nat, now: int, reply: bool)
    returns (line: Option<Resolution>)
    requires i < |schedule.tasks|
    modifies profile`xp, schedule
    ensures var t := old(schedule.tasks[i]);
      schedule.tasks == old(schedule.tasks)[i := Advance(t, now, reply)] &&
      line == (if Due(t, now) then Some(Resolve(t, reply)) else None)
    ensures profile.xp == if line.Some? then Credit(old(profile.xp), line.value) else old(profile.xp)
  {
    var task := schedule.tasks[i];
    line := None;
    if task.status == Pending {
      if task.start <= now < End(task) {
        schedule.tasks := schedule.tasks[i := task.(status := InProgress)];
      } else if now >= End(task) {
        if reply {
          schedule.tasks := schedule.tasks[i := task.(status := Completed)];
          profile.xp := profile.xp + task.xp;
          line := Some(Resolution(task.name, true, task.xp));
        } else {
          schedule.tasks := schedule.tasks[i := task.(status := Failed)];
          var penalty := task.xp / 2;
          profile.xp := if profile.xp - penalty > 0 then profile.xp - penalty else 0;
          line := Some(Resolution(task.name, false, penalty));
        }
      }
    }
  }

  /** The loop of update_status: every task in schedule order, the k-th question answered by
      answers(k); returns the running `earned` and `lost` totals and the log lines of the pass. */
  method SettlePass(profile: Profile, schedule: Schedule, now: int, answers: nat -> bool)
    returns (earned: int, lost: int, lines: seq<Resolution>)
    modifies profile`xp, schedule
    ensures schedule.tasks == AdvanceAll(old(schedule.tasks), now, answers)
    ensures lines == Resolutions(old(schedule.tasks), now, answers)
    ensures profile.xp == ApplyResolutions(old(profile.xp), lines)
    ensures earned == Earned(lines) && lost == Lost(lines)
  {
    ghost var tasks0, xp0 := schedule.tasks, profile.xp;
    earned, lost := 0, 0;
    lines := [];
    var asked := 0;
    var i := 0;
    while i < |schedule.tasks|
      invariant AdvancedTo(tasks0, now, answers, i, schedule.tasks)
      invariant Tallied(tasks0, now, answers, i, xp0, asked, lines, profile.xp, earned, lost)
      modifies schedule, profile`xp
    {
      AdvancedStep(tasks0, now, answers, i, schedule.tasks);
      TalliedStep(tasks0, now, answers, i, xp0, asked, lines, profile.xp, earned, lost);
      var line := SettleTask(profile, schedule, i, now, answers(asked));
      if line.Some? {
        asked := asked + 1;
        lines := lines + [line.value];
        if line.value.completed {
          earned := earned + line.value.amount;
        } else {
          lost := lost + line.value.amount;
        }
      }
      i := i + 1;
    }
    assert tasks0[..i] == tasks0;
    AdvancedAll(tasks0, now, answers, schedule.tasks);
  }

  /**
   * update_status: one pass over the schedule at time `now`. Each ⏳ task whose interval holds
   * `now` becomes 🕒; each ⏳ task whose interval is over is asked about, in schedule order, and
   * becomes ✓ (XP gained) or X (half its XP lost, clamped at 0). The outcomes go to the log,
   * `earned` to the history window, and the sums to the display counters.
   */
  method UpdateStatus(profile: Profile, schedule: Schedule, log: LogFile, now: int, answers: nat -> bool)
    requires profile.Valid()
    modifies profile`xp, profile`xpHistory, profile`earnedDisplay, profile`lostDisplay, schedule, log
    ensures profile.Valid()
    ensures schedule.tasks == AdvanceAll(old(schedule.tasks), now, answers)
    ensures var rs := Resolutions(old(schedule.tasks), now, answers);
      profile.xp == ApplyResolutions(old(profile.xp), rs) &&
      profile.earnedDisplay == Earned(rs) && profile.lostDisplay == Lost(rs) &&
      profile.xpHistory == LastSeven(old(profile.xpHistory) + [Earned(rs)]) &&
      log.entries == old(log.entries) + Section(Day(now), now, rs)
  {
    ghost var xp0 := profile.xp;
    var earned, lost, lines := SettlePass(profile, schedule, now, answers);
    XpStaysNonNegative(xp0, lines);
    log.AppendSection(Day(now), now, lines);
    profile.xpHistory := profile.xpHistory + [earned];
    if |profile.xpHistory| > 7 {
      profile.xpHistory := profile.xpHistory[|profile.xpHistory| - 7..];
    }
    profile.earnedDisplay := earned;
    profile.lostDisplay := lost;
  }

  // ---------------------------------------------------------------------------
  // Screen

  /** The selection of draw_ui: `current` is the last task whose interval holds `now`, whatever
      its status; `upcoming` is the first task that starts after `now`. */
  method SelectCurrentUpcoming(tasks: seq<Task>, now: int) returns (current: Option<nat>, upcoming: Option<nat>)
    ensures LastIn(tasks, |tasks|, ActiveAt, now, current)
    ensures FirstIn(tasks, |tasks|, StartsAfter, now, upcoming)
  {
    current, upcoming := None, None;
    for i := 0 to |tasks|
      invariant LastIn(tasks, i, ActiveAt, now, current)
      invariant FirstIn(tasks, i, StartsAfter, now, upcoming)
    {
      var task := tasks[i];
      if task.start <= now < End(task) {
        current := Some(i);
      } else if task.start > now && upcoming.None? {
        upcoming := Some(i);
      }
    }
  }
}
