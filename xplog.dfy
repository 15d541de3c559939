/**
 * The outcome log xp_log.txt. The core only appends to it: a dated header followed by one
 * line per resolved task, and nothing at all for a pass that resolved nothing. The exact
 * glyphs and text of a line are abstracted to the outcome it records.
 */
module XpLog {
  import opened Tasks

  datatype LogEntry =
    | Header(day: int)                        // "=== <date> ==="
    | Line(minute: int, outcome: Resolution)  // "<time> - ✅ name (+xp XP)" or "... ❌ name (-penalty XP)"

  function Lines(minute: int, rs: seq<Resolution>): seq<LogEntry> {
    seq(|rs|, k requires 0 <= k < |rs| => Line(minute, rs[k]))
  }

  /** Writing one more line of a section. */
  lemma LinesSnoc(minute: int, rs: seq<Resolution>, k: int)
    requires 0 <= k < |rs|
    ensures Lines(minute, rs[..k + 1]) == Lines(minute, rs[..k]) + [Line(minute, rs[k])]
  {
  }

  /** What one pass appends: a header and one line per outcome, or nothing when there are none. */
  function Section(day: int, minute: int, rs: seq<Resolution>): (s: seq<LogEntry>)
    ensures s == [] <==> rs == []
    ensures rs != [] ==> |s| == |rs| + 1 && s[0] == Header(day)
    ensures forall k :: 0 <= k < |rs| ==> s[k + 1] == Line(minute, rs[k])
  {
    if rs == [] then [] else [Header(day)] + Lines(minute, rs)
  }

  class LogFile {
    var entries: seq<LogEntry>

    constructor (existing: seq<LogEntry>)
      ensures entries == existing
    {
      entries := existing;
    }

    /** The `if lines:` block of a pass: open for append, write the header, then each line. */
    method AppendSection(day: int, minute: int, rs: seq<Resolution>)
      modifies this
      ensures entries == old(entries) + Section(day, minute, rs)
    {
      if rs != [] {
        entries := entries + [Header(day)];
        for k := 0 to |rs|
          invariant entries == old(entries) + [Header(day)] + Lines(minute, rs[..k])
        {
          LinesSnoc(minute, rs, k);
          entries := entries + [Line(minute, rs[k])];
        }
        assert rs[..|rs|] == rs;
      }
    }
  }
}
