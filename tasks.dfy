/**
 * Scheduled tasks and the rules every schedule pass applies to them. Both front ends carry the
 * same transition code (perfect_u.py update_status, Widget.py XPApp.refresh_loop); it is stated
 * once here, and each pass is proved against it in its own module.
 */
module Tasks {
  import opened Wrappers

  /** ⏳, 🕒, ✓ and X. */
  datatype Status = Pending | InProgress | Completed | Failed

  /** A catalog entry of tasks.json. */
  datatype Template = Template(name: string, duration: nat, xp: nat)

  /** A schedule record; `start` is a timestamp in whole minutes. */
  datatype Task = Task(name: string, start: int, duration: nat, xp: nat, status: Status)

  const MinutesPerDay: int := 1440

  /** The calendar day of a minute timestamp. */
  function Day(minute: int): int {
    minute / MinutesPerDay
  }

  /** The hour of the day of a minute timestamp. */
  function HourOf(minute: int): int {
    (minute % MinutesPerDay) / 60
  }

  function End(t: Task): int {
    t.start + t.duration
  }

  /** The task's interval [start, end) contains `now`. */
  predicate Active(t: Task, now: int) {
    t.start <= now < End(t)
  }

  /** The conflict test of add_tasks: the half-open intervals intersect. */
  predicate Overlaps(a: Task, b: Task) {
    a.start < End(b) && b.start < End(a)
  }

  /** Conflict detection does not depend on which of the two tasks came first. */
  lemma OverlapsSymmetric(a: Task, b: Task)
    ensures Overlaps(a, b) <==> Overlaps(b, a)
  {
  }

  /** The record both add operations build: the template at hour:00 of `day`, pending. */
  function Scheduled(tpl: Template, day: int, hour: int): (t: Task)
    ensures t.status == Pending && t.start % 60 == 0
    ensures Day(t.start) == day && HourOf(t.start) == hour <== 0 <= hour < 24
    ensures t.name == tpl.name && t.duration == tpl.duration && t.xp == tpl.xp
  {
    Task(tpl.name, day * MinutesPerDay + hour * 60, tpl.duration, tpl.xp, Pending)
  }

  /** Some task of the schedule overlaps `t`. */
  predicate Clashes(schedule: seq<Task>, t: Task) {
    exists k :: 0 <= k < |schedule| && Overlaps(schedule[k], t)
  }

  /** `t` is a fresh booking of some template at a whole hour of `day`. */
  predicate IsBooking(t: Task, templates: seq<Template>, day: int) {
    exists tpl, h :: tpl in templates && 0 <= h < 24 && t == Scheduled(tpl, day, h)
  }

  /** No two tasks of the schedule overlap. */
  predicate Disjoint(tasks: seq<Task>) {
    forall i, j :: 0 <= i < j < |tasks| ==> !Overlaps(tasks[i], tasks[j])
  }

  // ---------------------------------------------------------------------------
  // One task, one pass

  /** A pending task whose interval is over: the pass asks whether it was completed. */
  predicate Due(t: Task, now: int) {
    t.status == Pending && End(t) <= now
  }

  /** int(xp / 2) for a non-negative xp value. */
  function Penalty(xp: nat): nat {
    xp / 2
  }

  /**
   * What one pass does to one task, given the reply `yes` to the completion question
   * (used only when the task is due).
   */
  function Advance(t: Task, now: int, yes: bool): (r: Task)
    ensures r.(status := t.status) == t
    ensures t.status != Pending ==> r == t
    ensures r.status == Pending ==> r == t && now < t.start
    ensures t.status == Pending && r.status == InProgress ==> Active(t, now)
    ensures t.status == Pending && r.status == Completed ==> Due(t, now) && yes
    ensures t.status == Pending && r.status == Failed ==> Due(t, now) && !yes
  {
    if t.status != Pending then t
    else if Active(t, now) then t.(status := InProgress)
    else if now >= End(t) then t.(status := if yes then Completed else Failed)
    else t
  }

  /** A 🕒, ✓ or X task is left alone by passes at every later time, whatever the replies. */
  lemma AdvanceFixesNonPending(t: Task, now: int, yes: bool)
    requires t.status != Pending
    ensures Advance(t, now, yes) == t
  {
  }

  /** A second pass at the same time changes nothing and asks nothing. */
  lemma AdvanceIdempotent(t: Task, now: int, yes: bool, again: bool)
    ensures !Due(Advance(t, now, yes), now)
    ensures Advance(Advance(t, now, yes), now, again) == Advance(t, now, yes)
  {
  }

  /** The outcome of one resolved task: its name, whether completed, the XP gained or lost. */
  datatype Resolution = Resolution(name: string, completed: bool, amount: nat)

  function Resolve(t: Task, yes: bool): Resolution {
    if yes then Resolution(t.name, true, t.xp) else Resolution(t.name, false, Penalty(t.xp))
  }

  /** The profile XP after one resolution: a gain adds, a loss subtracts and clamps at 0. */
  function Credit(xp: int, r: Resolution): int {
    if r.completed then xp + r.amount
    else if xp - r.amount > 0 then xp - r.amount else 0
  }

  // ---------------------------------------------------------------------------
  // A whole pass over the schedule, in schedule order. Replies come from `answers`: the k-th
  // question of the pass is answered by answers(k).

  function Last<T>(s: seq<T>): T
    requires s != []
  {
    s[|s| - 1]
  }

  function Init<T>(s: seq<T>): seq<T>
    requires s != []
  {
    s[..|s| - 1]
  }

  /** Number of completion questions a pass asks. */
  function Prompts(tasks: seq<Task>, now: int): (n: nat)
    ensures n <= |tasks|
  {
    if tasks == [] then 0
    else Prompts(Init(tasks), now) + (if Due(Last(tasks), now) then 1 else 0)
  }

  /** The schedule after a pass. */
  function AdvanceAll(tasks: seq<Task>, now: int, answers: nat -> bool): (r: seq<Task>)
    ensures |r| == |tasks|
  {
    if tasks == [] then []
    else
      AdvanceAll(Init(tasks), now, answers) +
      [Advance(Last(tasks), now, answers(Prompts(Init(tasks), now)))]
  }

  /** The outcomes of a pass, in schedule order: one per due task. */
  function Resolutions(tasks: seq<Task>, now: int, answers: nat -> bool): seq<Resolution> {
    if tasks == [] then []
    else
      Resolutions(Init(tasks), now, answers) +
      (if Due(Last(tasks), now) then [Resolve(Last(tasks), answers(Prompts(Init(tasks), now)))] else [])
  }

  /** Profile XP after a sequence of outcomes is credited in order. */
  function ApplyResolutions(xp: int, rs: seq<Resolution>): int {
    if rs == [] then xp else Credit(ApplyResolutions(xp, Init(rs)), Last(rs))
  }

  /** Sum of the gains: `earned`. */
  function Earned(rs: seq<Resolution>): int {
    if rs == [] then 0 else Earned(Init(rs)) + (if Last(rs).completed then Last(rs).amount else 0)
  }

  /** Sum of the penalties: `lost`. */
  function Lost(rs: seq<Resolution>): int {
    if rs == [] then 0 else Lost(Init(rs)) + (if Last(rs).completed then 0 else Last(rs).amount)
  }

  /** Number of ✓ and X tasks. */
  function Settled(tasks: seq<Task>): nat {
    if tasks == [] then 0
    else Settled(Init(tasks)) + (if Last(tasks).status in {Completed, Failed} then 1 else 0)
  }

  /** Unfolding of the pass functions on a prefix one task longer. */
  lemma PassStep(tasks: seq<Task>, now: int, answers: nat -> bool, i: nat)
    requires i < |tasks|
    ensures var pre, t, k := tasks[..i], tasks[i], Prompts(tasks[..i], now);
      Prompts(tasks[..i + 1], now) == k + (if Due(t, now) then 1 else 0) &&
      AdvanceAll(tasks[..i + 1], now, answers) == AdvanceAll(pre, now, answers) + [Advance(t, now, answers(k))] &&
      Resolutions(tasks[..i + 1], now, answers) ==
        Resolutions(pre, now, answers) + (if Due(t, now) then [Resolve(t, answers(k))] else [])
  {
    assert Init(tasks[..i + 1]) == tasks[..i];
    assert Last(tasks[..i + 1]) == tasks[i];
  }

  /**
   * The pass treats every task by the one-task rule, the task at index i answered by the
   * reply to the question numbered by the due tasks before it.
   */
  lemma {:induction false} AdvanceAllAt(tasks: seq<Task>, now: int, answers: nat -> bool, i: nat)
    requires i < |tasks|
    ensures AdvanceAll(tasks, now, answers)[i] == Advance(tasks[i], now, answers(Prompts(tasks[..i], now)))
  {
    if i < |tasks| - 1 {
      AdvanceAllAt(Init(tasks), now, answers, i);
      assert Init(tasks)[..i] == tasks[..i];
    } else {
      assert Init(tasks) == tasks[..i];
    }
  }

  /** Only ⏳ tasks change: a 🕒, ✓ or X task keeps its record, and no task changes but its status. */
  lemma PassChangesOnlyPending(tasks: seq<Task>, now: int, answers: nat -> bool, i: nat)
    requires i < |tasks|
    ensures var r := AdvanceAll(tasks, now, answers)[i];
      r.(status := tasks[i].status) == tasks[i] &&
      (tasks[i].status != Pending ==> r == tasks[i])
  {
    AdvanceAllAt(tasks, now, answers, i);
  }

  /** Exactly one outcome per question asked. */
  lemma {:induction false} ResolutionsCount(tasks: seq<Task>, now: int, answers: nat -> bool)
    ensures |Resolutions(tasks, now, answers)| == Prompts(tasks, now)
  {
    if tasks != [] {
      ResolutionsCount(Init(tasks), now, answers);
    }
  }

  /**
   * Outcome k of a pass belongs to the k-th due task: a due task at index i, answered by the
   * reply numbered by the due tasks before it, gives the outcome at that same number, with its
   * name, sign and amount.
   */
  lemma {:induction false} ResolutionAt(tasks: seq<Task>, now: int, answers: nat -> bool, i: nat)
    requires i < |tasks| && Due(tasks[i], now)
    ensures var k, rs := Prompts(tasks[..i], now), Resolutions(tasks, now, answers);
      k < |rs| && rs[k] == Resolve(tasks[i], answers(k))
  {
    if i < |tasks| - 1 {
      ResolutionAt(Init(tasks), now, answers, i);
      assert Init(tasks)[..i] == tasks[..i];
    } else {
      assert Init(tasks) == tasks[..i];
      ResolutionsCount(Init(tasks), now, answers);
    }
  }

  /** Each question settles exactly one task: the pass adds Prompts(...) ✓/X tasks. */
  lemma {:induction false} PassSettlesDueTasks(tasks: seq<Task>, now: int, answers: nat -> bool)
    ensures Settled(AdvanceAll(tasks, now, answers)) == Settled(tasks) + Prompts(tasks, now)
  {
    if tasks != [] {
      var r := AdvanceAll(tasks, now, answers);
      PassSettlesDueTasks(Init(tasks), now, answers);
      assert Init(r) == AdvanceAll(Init(tasks), now, answers);
    }
  }

  /**
   * After a pass no task is due, so a second pass at the same time asks nothing,
   * logs nothing and leaves the schedule as it is.
   */
  lemma {:induction false} PassIdempotent(tasks: seq<Task>, now: int, answers: nat -> bool, again: nat -> bool)
    ensures var r := AdvanceAll(tasks, now, answers);
      Prompts(r, now) == 0 && Resolutions(r, now, again) == [] && AdvanceAll(r, now, again) == r
  {
    if tasks != [] {
      var r := AdvanceAll(tasks, now, answers);
      var t, k := Last(tasks), Prompts(Init(tasks), now);
      PassIdempotent(Init(tasks), now, answers, again);
      assert Init(r) == AdvanceAll(Init(tasks), now, answers);
      assert Last(r) == Advance(t, now, answers(k));
      AdvanceIdempotent(t, now, answers(k), again(0));
    }
  }

  /** Unfolding of the accounting functions on one more outcome. */
  lemma AppendResolution(xp: int, rs: seq<Resolution>, r: Resolution)
    ensures ApplyResolutions(xp, rs + [r]) == Credit(ApplyResolutions(xp, rs), r)
    ensures Earned(rs + [r]) == Earned(rs) + (if r.completed then r.amount else 0)
    ensures Lost(rs + [r]) == Lost(rs) + (if r.completed then 0 else r.amount)
  {
    assert Init(rs + [r]) == rs;
  }

  /** The schedule part-way through a pass: its first i tasks advanced, the rest untouched. */
  ghost predicate AdvancedTo(tasks0: seq<Task>, now: int, answers: nat -> bool, i: int, tasks: seq<Task>) {
    0 <= i <= |tasks0| == |tasks| &&
    (forall k :: 0 <= k < i ==> tasks[k] == AdvanceAll(tasks0, now, answers)[k]) &&
    (forall k :: i <= k < |tasks0| ==> tasks[k] == tasks0[k])
  }

  /** Advancing task i, answered by the reply numbered by the due tasks before it. */
  lemma AdvancedStep(tasks0: seq<Task>, now: int, answers: nat -> bool, i: int, tasks: seq<Task>)
    requires i < |tasks0| && AdvancedTo(tasks0, now, answers, i, tasks)
    ensures tasks[i] == tasks0[i]
    ensures AdvancedTo(tasks0, now, answers, i + 1,
      tasks[i := Advance(tasks0[i], now, answers(Prompts(tasks0[..i], now)))])
  {
    AdvanceAllAt(tasks0, now, answers, i);
  }

  /** A pass that has reached the end has advanced the whole schedule. */
  lemma AdvancedAll(tasks0: seq<Task>, now: int, answers: nat -> bool, tasks: seq<Task>)
    requires AdvancedTo(tasks0, now, answers, |tasks0|, tasks)
    ensures tasks == AdvanceAll(tasks0, now, answers)
  {
  }

  /** The running state of a pass after its first i tasks: the questions asked so far, the
      outcomes collected, the profile XP and the sums of gains and penalties. */
  ghost predicate Tallied(tasks: seq<Task>, now: int, answers: nat -> bool, i: int, xp0: int,
                          asked: int, lines: seq<Resolution>, xp: int, earned: int, lost: int)
  {
    0 <= i <= |tasks| && asked == Prompts(tasks[..i], now) &&
    lines == Resolutions(tasks[..i], now, answers) &&
    xp == ApplyResolutions(xp0, lines) && earned == Earned(lines) && lost == Lost(lines)
  }

  /** One task further: a due task is answered by the next reply and adds its outcome; any
      other task leaves the running state as it is. */
  lemma TalliedStep(tasks: seq<Task>, now: int, answers: nat -> bool, i: int, xp0: int,
                    asked: int, lines: seq<Resolution>, xp: int, earned: int, lost: int)
    requires i < |tasks| && Tallied(tasks, now, answers, i, xp0, asked, lines, xp, earned, lost)
    ensures !Due(tasks[i], now) ==>
      Tallied(tasks, now, answers, i + 1, xp0, asked, lines, xp, earned, lost)
    ensures Due(tasks[i], now) ==> var r := Resolve(tasks[i], answers(asked));
      Tallied(tasks, now, answers, i + 1, xp0, asked + 1, lines + [r], Credit(xp, r),
              earned + (if r.completed then r.amount else 0), lost + (if r.completed then 0 else r.amount))
  {
    PassStep(tasks, now, answers, i);
    AppendResolution(xp0, lines, Resolve(tasks[i], answers(asked)));
  }

  /** Penalties clamp at zero: a non-negative XP total stays non-negative. */
  lemma {:induction false} XpStaysNonNegative(xp: int, rs: seq<Resolution>)
    requires xp >= 0
    ensures ApplyResolutions(xp, rs) >= 0
  {
    if rs != [] {
      XpStaysNonNegative(xp, Init(rs));
    }
  }

  /**
   * The XP after a pass gains exactly `earned` and loses at most `lost`
   * (less only where a penalty is clamped at zero).
   */
  lemma {:induction false} XpWithinEarnedAndLost(xp: int, rs: seq<Resolution>)
    requires xp >= 0
    ensures xp + Earned(rs) - Lost(rs) <= ApplyResolutions(xp, rs) <= xp + Earned(rs)
  {
    if rs != [] {
      XpWithinEarnedAndLost(xp, Init(rs));
      XpStaysNonNegative(xp, Init(rs));
    }
  }

  // ---------------------------------------------------------------------------
  // Selecting a task of the schedule for display

  /** The conditions the front ends select a "current" or "next" task by. */
  datatype Criterion =
    | ActiveAt        // start <= now < end, any status
    | StartsAfter     // start > now, any status
    | StartingNow     // ⏳ and start <= now < end
    | NotPendingAfter // not ⏳ and start > now
    | PendingAfter    // ⏳ and start > now

  predicate Matches(c: Criterion, t: Task, now: int) {
    match c
    case ActiveAt => Active(t, now)
    case StartsAfter => t.start > now
    case StartingNow => t.status == Pending && Active(t, now)
    case NotPendingAfter => t.status != Pending && t.start > now
    case PendingAfter => t.status == Pending && t.start > now
  }

  /** `r` is the first of tasks[..n] matching `c`, or None when none does. */
  predicate FirstIn(tasks: seq<Task>, n: int, c: Criterion, now: int, r: Option<nat>) {
    0 <= n <= |tasks| &&
    match r
    case Some(i) => i < n && Matches(c, tasks[i], now) && forall j :: 0 <= j < i ==> !Matches(c, tasks[j], now)
    case None => forall j :: 0 <= j < n ==> !Matches(c, tasks[j], now)
  }

  /** `r` is the last of tasks[..n] matching `c`, or None when none does. */
  predicate LastIn(tasks: seq<Task>, n: int, c: Criterion, now: int, r: Option<nat>) {
    0 <= n <= |tasks| &&
    match r
    case Some(i) => i < n && Matches(c, tasks[i], now) && forall j :: i < j < n ==> !Matches(c, tasks[j], now)
    case None => forall j :: 0 <= j < n ==> !Matches(c, tasks[j], now)
  }

  /** Extending the prefix by one task: that task becomes the last match if it matches. */
  lemma LastInStep(tasks: seq<Task>, i: int, c: Criterion, now: int, r: Option<nat>)
    requires 0 <= i < |tasks| && LastIn(tasks, i, c, now, r)
    ensures LastIn(tasks, i + 1, c, now, if Matches(c, tasks[i], now) then Some(i) else r)
  {
  }

  /** Extending the prefix by one task: that task becomes the first match if none came before. */
  lemma FirstInStep(tasks: seq<Task>, i: int, c: Criterion, now: int, r: Option<nat>)
    requires 0 <= i < |tasks| && FirstIn(tasks, i, c, now, r)
    ensures FirstIn(tasks, i + 1, c, now, if r.None? && Matches(c, tasks[i], now) then Some(i) else r)
  {
  }
}
