/**
 * The user profile (profile.json). Both front ends read and write the same document, so one
 * class serves both; each operation updates its fields in place, as the source does.
 */
module Profiles {
  import opened Wrappers

  class Profile {
    var username: string
    var xp: int
    var loveXp: int
    var level: int
    var xpHistory: seq<int>      // the `earned` of each pass, most recent last
    var lastActive: int          // last_active, as a day number
    var earnedDisplay: int       // earned_xp_display
    var lostDisplay: int         // lost_xp_display
    var dayStarted: Option<int>  // day_started; None for "" or absent
    var canSchedule: bool        // can_schedule
    var startHour: Option<int>   // start_hour; None while absent

    /** What every core operation keeps: XP is never negative, love XP stays in [0, 200], and
        the history window holds at most 7 entries. */
    ghost predicate Valid()
      reads this
    {
      xp >= 0 && 0 <= loveXp <= 200 && |xpHistory| <= 7
    }

    /** The profile a first run creates. */
    constructor (username: string, today: int)
      ensures Valid()
      ensures this.username == username && xp == 0 && loveXp == 0 && level == 1
      ensures xpHistory == [0, 0, 0, 0, 0, 0, 0] && lastActive == today
      ensures earnedDisplay == 0 && lostDisplay == 0
      ensures dayStarted == None && canSchedule && startHour == None
    {
      this.username := username;
      xp, loveXp, level := 0, 0, 1;
      xpHistory := [0, 0, 0, 0, 0, 0, 0];
      lastActive := today;
      earnedDisplay, lostDisplay := 0, 0;
      dayStarted, canSchedule, startHour := None, true, None;
    }
  }
}
