/**
 * Widget.py: the always-on-top tkinter front end. It shares the profile and schedule with
 * perfect_u.py and repeats its engine with small differences: calculate_level returns the
 * progress into the level, the refresh pass also picks the task that has just started and a
 * "next" task, and the add-task popup appends without any conflict check or day gate.
 */
module Widget {
  import opened Wrappers
  import opened Levels
  import opened Tasks
  import opened XpLog
  import opened Profiles

  // ---------------------------------------------------------------------------
  // Level

  /** Widget.py's calculate_level: the same level as perfect_u.py's, and as second value the XP
      gathered inside that level. */
  method CalculateLevel(xp: int) returns (level: int, progress: int)
    ensures IsLevelOf(xp, level)
    ensures progress == xp - Cum(level - 1)
    ensures xp >= 0 ==> 0 <= progress < XpForLevel(level)
  {
    level := 1;
    var total := XpForLevel(level);
    while xp >= total
      invariant level >= 1 && total == Cum(level)
      invariant level == 1 || Cum(level - 1) <= xp
      decreases xp - total
    {
      level := level + 1;
      total := total + XpForLevel(level);
    }
    progress := XpForLevel(level) - (total - xp);
  }

  // ---------------------------------------------------------------------------
  // The refresh pass and the add-task popup

  /**
   * What add_task_popup does to the schedule: with at least one template, an index answer in
   * 1..|tasks| and an hour answer in 0..23 it appends that template at hour:00 of `day`, pending,
   * whatever the schedule already holds; any other combination of answers leaves it as it is.
   */
  function Popup(schedule: seq<Task>, tasks: seq<Template>, indexAnswer: Option<int>,
                 hourAnswer: Option<int>, day: int): (r: seq<Task>)
    ensures |schedule| <= |r| <= |schedule| + 1 && r[..|schedule|] == schedule
    ensures |r| == |schedule| + 1 <==>
      tasks != [] && indexAnswer.Some? && 1 <= indexAnswer.value <= |tasks| &&
      hourAnswer.Some? && 0 <= hourAnswer.value <= 23
    ensures |r| == |schedule| + 1 ==>
      IsBooking(r[|schedule|], tasks, day) &&
      r[|schedule|] == Scheduled(tasks[indexAnswer.value - 1], day, hourAnswer.value)
  {
    if tasks == [] then schedule
    else if indexAnswer.None? || indexAnswer.value == 0 || indexAnswer.value < 1 || indexAnswer.value > |tasks| then schedule
    else if hourAnswer.None? || hourAnswer.value < 0 || hourAnswer.value > 23 then schedule
    else
      var tpl := tasks[indexAnswer.value - 1];
      assert tpl in tasks;
      schedule + [Scheduled(tpl, day, hourAnswer.value)]
  }

  /** Unlike add_tasks, the popup books a slot that overlaps a task already in the schedule, so a
      schedule free of overlaps can lose that property. */
  lemma PopupIgnoresConflicts(s: seq<Task>, tasks: seq<Template>, index: int, hour: int, day: int)
    requires 1 <= index <= |tasks| && 0 <= hour <= 23
    requires Clashes(s, Scheduled(tasks[index - 1], day, hour))
    ensures !Disjoint(Popup(s, tasks, Some(index), Some(hour), day))
  {
    var r := Popup(s, tasks, Some(index), Some(hour), day);
    var k :| 0 <= k < |s| && Overlaps(s[k], Scheduled(tasks[index - 1], day, hour));
    assert r[k] == r[..|s|][k] == s[k];
    assert !Overlaps(r[k], r[|s|]) ==> Disjoint(r);
  }

  /** The selection of refresh_loop over the first i tasks. */
  ghost predicate Picked(s: seq<Task>, i: int, now: int, current: Option<nat>, next: Option<nat>) {
    LastIn(s, i, StartingNow, now, current) && FirstIn(s, i, NotPendingAfter, now, next)
  }

  lemma PickedStep(s: seq<Task>, i: int, now: int, current: Option<nat>, next: Option<nat>)
    requires 0 <= i < |s| && Picked(s, i, now, current, next)
    ensures var t := s[i];
      Picked(s, i + 1, now,
        if t.status == Pending && t.start <= now < End(t) then Some(i) else current,
        if t.status != Pending && t.start > now && next.None? then Some(i) else next)
  {
    LastInStep(s, i, StartingNow, now, current);
    FirstInStep(s, i, NotPendingAfter, now, next);
  }

  class XPApp {
    var profile: Profile
    var schedule: seq<Task>
    var tasks: seq<Template>   // the templates of tasks.json

    /** The state __init__ loads: profile, schedule and templates. */
    constructor (profile: Profile, schedule: seq<Task>, tasks: seq<Template>)
      ensures this.profile == profile && this.schedule == schedule && this.tasks == tasks
    {
      this.profile := profile;
      this.schedule := schedule;
      this.tasks := tasks;
    }

    /** The body of refresh_loop's loop for the ⏳ task at index i: 🕒 inside its interval; after
        it, ✓ with the task's XP added or X with half of it taken (clamped at 0), by `reply`,
        which then yields the task's log line. */
    method SettleTask(i: nat, now: int, reply: bool) returns (line: Option<Resolution>)
      requires i < |schedule|
      modifies this`schedule, profile`xp
      ensures var t := old(schedule[i]);
        schedule == old(schedule)[i := Advance(t, now, reply)] &&
        line == (if Due(t, now) then Some(Resolve(t, reply)) else None)
      ensures profile.xp == if line.Some? then Credit(old(profile.xp), line.value) else old(profile.xp)
    {
      var task := schedule[i];
      line := None;
      if task.status == Pending {
        if task.start <= now < End(task) {
          schedule := schedule[i := task.(status := InProgress)];
        } else if now >= End(task) {
          if reply {
            schedule := schedule[i := task.(status := Completed)];
            profile.xp := profile.xp + task.xp;
            line := Some(Resolution(task.name, true, task.xp));
          } else {
            schedule := schedule[i := task.(status := Failed)];
            var penalty := task.xp / 2;
            profile.xp := if profile.xp - penalty > 0 then profile.xp - penalty else 0;
            line := Some(Resolution(task.name, false, penalty));
          }
        }
      }
    }

    /**
     * The loop of refresh_loop. Each ⏳ task follows the same rule as in perfect_u.py; a ⏳ task
     * whose interval holds `now` is also the current task (the last such one wins), and only a
     * task that is not ⏳ and starts after `now` can be the next task (the first such one).
     */
    method Pass(now: int, answers: nat -> bool)
      returns (current: Option<nat>, next: Option<nat>, lines: seq<Resolution>)
      modifies this`schedule, profile`xp
      ensures schedule == AdvanceAll(old(schedule), now, answers)
      ensures lines == Resolutions(old(schedule), now, answers)
      ensures profile.xp == ApplyResolutions(old(profile.xp), lines)
      ensures LastIn(old(schedule), |old(schedule)|, StartingNow, now, current)
      ensures FirstIn(old(schedule), |old(schedule)|, NotPendingAfter, now, next)
    {
      ghost var s0, xp0 := schedule, profile.xp;
      current, next := None, None;
      var earned, lost := 0, 0;    // summed as Widget.py does, never read afterwards
      lines := [];
      var asked := 0;
      var i := 0;
      while i < |schedule|
        invariant AdvancedTo(s0, now, answers, i, schedule)
        invariant Tallied(s0, now, answers, i, xp0, asked, lines, profile.xp, earned, lost)
        invariant Picked(s0, i, now, current, next)
        modifies this`schedule, profile`xp
      {
        var task := schedule[i];
        PickedStep(s0, i, now, current, next);
        AdvancedStep(s0, now, answers, i, schedule);
        TalliedStep(s0, now, answers, i, xp0, asked, lines, profile.xp, earned, lost);
        if task.status == Pending {
          if task.start <= now < End(task) {
            current := Some(i);
          }
          var line := SettleTask(i, now, answers(asked));
          if line.Some? {
            asked := asked + 1;
            lines := lines + [line.value];
            if line.value.completed {
              earned := earned + line.value.amount;
            } else {
              lost := lost + line.value.amount;
            }
          }
        } else if task.start > now && next.None? {
          next := Some(i);
        }
        i := i + 1;
      }
      assert s0[..i] == s0;
      AdvancedAll(s0, now, answers, schedule);
    }

    /**
     * refresh_loop, one tick at time `now`: the pass, the log section for the tasks it resolved,
     * and the stored level recomputed from the new XP. Nothing else of the profile changes.
     */
    method RefreshLoop(now: int, answers: nat -> bool, log: LogFile)
      returns (current: Option<nat>, next: Option<nat>)
      modifies this`schedule, profile`xp, profile`level, log
      ensures schedule == AdvanceAll(old(schedule), now, answers)
      ensures var rs := Resolutions(old(schedule), now, answers);
        profile.xp == ApplyResolutions(old(profile.xp), rs) &&
        log.entries == old(log.entries) + Section(Day(now), now, rs)
      ensures IsLevelOf(profile.xp, profile.level)
      ensures LastIn(old(schedule), |old(schedule)|, StartingNow, now, current)
      ensures FirstIn(old(schedule), |old(schedule)|, NotPendingAfter, now, next)
      ensures old(profile.Valid()) ==> profile.Valid()
      ensures profile.loveXp == old(profile.loveXp) && profile.xpHistory == old(profile.xpHistory)
      ensures profile.earnedDisplay == old(profile.earnedDisplay) && profile.lostDisplay == old(profile.lostDisplay)
      ensures profile.lastActive == old(profile.lastActive) && profile.dayStarted == old(profile.dayStarted)
      ensures profile.canSchedule == old(profile.canSchedule) && profile.startHour == old(profile.startHour)
    {
      ghost var xp0 := profile.xp;
      var lines;
      current, next, lines := Pass(now, answers);
      if xp0 >= 0 {
        XpStaysNonNegative(xp0, lines);
      }
      log.AppendSection(Day(now), now, lines);
      var level, _ := CalculateLevel(profile.xp);
      profile.level := level;
    }

    /** add_task_popup, with the two dialog answers as parameters (None for a cancelled dialog). */
    method AddTaskPopup(indexAnswer: Option<int>, hourAnswer: Option<int>, now: int)
      modifies this`schedule
      ensures schedule == Popup(old(schedule), tasks, indexAnswer, hourAnswer, Day(now))
    {
      if tasks == [] {
        return;
      }
      if indexAnswer.None? || indexAnswer.value == 0 || indexAnswer.value < 1 || indexAnswer.value > |tasks| {
        return;
      }
      if hourAnswer.None? || hourAnswer.value < 0 || hourAnswer.value > 23 {
        return;
      }
      var task := tasks[indexAnswer.value - 1];
      schedule := schedule + [Scheduled(task, Day(now), hourAnswer.value)];
    }
  }

  // ---------------------------------------------------------------------------
  // The current task

  /** The current task is a ⏳ task that this very pass turns 🕒. */
  lemma CurrentJustStarted(s: seq<Task>, now: int, answers: nat -> bool, i: nat)
    requires LastIn(s, |s|, StartingNow, now, Some(i))
    ensures s[i].status == Pending && AdvanceAll(s, now, answers)[i].status == InProgress
  {
    AdvanceAllAt(s, now, answers, i);
  }

  /** A second pass at the same time finds no current task: a 🕒 task is never reported again. */
  lemma NoCurrentOnSecondPass(s: seq<Task>, now: int, answers: nat -> bool, r: Option<nat>)
    requires LastIn(AdvanceAll(s, now, answers), |s|, StartingNow, now, r)
    ensures r == None
  {
    if r.Some? {
      AdvanceAllAt(s, now, answers, r.value);
      assert false;
    }
  }

  // ---------------------------------------------------------------------------
  // The next task

  /** Every task that has left ⏳ started at or before `now`: what a clock that never goes back
      leaves behind, since the pass moves a task out of ⏳ only once it has started. */
  predicate ClockConsistent(s: seq<Task>, now: int) {
    forall k :: 0 <= k < |s| && s[k].status != Pending ==> s[k].start <= now
  }

  /** A pass at a later (or the same) time keeps the schedule clock-consistent. */
  lemma PassKeepsClockConsistent(s: seq<Task>, before: int, now: int, answers: nat -> bool)
    requires before <= now && ClockConsistent(s, before)
    ensures ClockConsistent(AdvanceAll(s, now, answers), now)
  {
    var r := AdvanceAll(s, now, answers);
    forall k | 0 <= k < |r| && r[k].status != Pending
      ensures r[k].start <= now
    {
      AdvanceAllAt(s, now, answers, k);
    }
  }

  /** The popup only adds ⏳ tasks, so it keeps the schedule clock-consistent. */
  lemma PopupKeepsClockConsistent(s: seq<Task>, tasks: seq<Template>, indexAnswer: Option<int>,
                                  hourAnswer: Option<int>, day: int, now: int)
    requires ClockConsistent(s, now)
    ensures ClockConsistent(Popup(s, tasks, indexAnswer, hourAnswer, day), now)
  {
    var r := Popup(s, tasks, indexAnswer, hourAnswer, day);
    forall k | 0 <= k < |r| && r[k].status != Pending
      ensures r[k].start <= now
    {
      if k < |s| {
        assert r[k] == r[..|s|][k] == s[k];
      }
    }
  }

  /** As written, refresh_loop's next task is always None on a clock-consistent schedule. */
  lemma NextIsAlwaysNone(s: seq<Task>, now: int, next: Option<nat>)
    requires ClockConsistent(s, now)
    requires FirstIn(s, |s|, NotPendingAfter, now, next)
    ensures next == None
  {
  }

  /** A ⏳ task booked for 10:00, looked at 09:00: refresh_loop reports no next task, while the
      first task starting after `now` is that one. */
  lemma PendingFutureTaskIsNotNext()
    ensures var s := [Task("walk", 600, 30, 40, Pending)];
      FirstIn(s, 1, NotPendingAfter, 540, None) && FirstIn(s, 1, PendingAfter, 540, Some(0))
  {
  }

  /** The intended selection: the first ⏳ task that starts after `now`. */
  method SelectNextPending(schedule: seq<Task>, now: int) returns (next: Option<nat>)
    ensures FirstIn(schedule, |schedule|, PendingAfter, now, next)
  {
    next := None;
    for i := 0 to |schedule|
      invariant FirstIn(schedule, i, PendingAfter, now, next)
    {
      var task := schedule[i];
      if task.status == Pending && task.start > now && next.None? {
        next := Some(i);
      }
    }
  }

  /** On a clock-consistent schedule the intended selection agrees with perfect_u.py's upcoming
      task, the first task of any status that starts after `now`. */
  lemma IntendedNextIsUpcoming(s: seq<Task>, now: int, n: int, r: Option<nat>)
    requires ClockConsistent(s, now)
    ensures FirstIn(s, n, PendingAfter, now, r) <==> FirstIn(s, n, StartsAfter, now, r)
  {
  }
}
