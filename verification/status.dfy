/** The derived OPEN/CLOSED status that both catalogs' queries compute at read time. */
module Status {
  import opened Text

  /** An instant on the store's clock after `datetime()` has normalised it; only its order matters. */
  type Instant = int

  const Closed: string := "CLOSED"
  const Open: string := "OPEN"

  /** The status rule of the events queries, `datetime(advertised_start_time) <= datetime('now')`:
      an item is closed once its advertised start is at or before the current instant. */
  function StatusAt(start: Instant, now: Instant): (s: string)
    ensures s == Closed <==> start <= now
    ensures s == Open <==> now < start
  {
    if start <= now then Closed else Open
  }

  /** Status only moves from OPEN to CLOSED as the clock advances, never back. */
  lemma StatusMonotone(start: Instant, now: Instant, later: Instant)
    requires now <= later
    ensures StatusAt(start, now) == Closed ==> StatusAt(start, later) == Closed
    ensures StatusAt(start, later) == Open ==> StatusAt(start, now) == Open
  {
  }

  /** Two reads of the same unchanged item differ exactly when the advertised start
      falls in between them. */
  lemma StatusFlipsOnce(start: Instant, now: Instant, later: Instant)
    requires now <= later
    ensures StatusAt(start, now) != StatusAt(start, later) <==> now < start <= later
  {
  }

  /** The status rule of the races queries as written, `advertised_start_time <= datetime('now')`:
      the stored text is compared, unnormalised, with the text of `datetime('now')`. */
  function RaceStatusAsWritten(storedStart: string, nowText: string): (s: string)
    ensures s == Closed <==> LexLe(storedStart, nowText)
    ensures s == Open <==> !LexLe(storedStart, nowText)
  {
    if LexLe(storedStart, nowText) then Closed else Open
  }

  /** Even compared as raw text, a race once CLOSED stays CLOSED as the clock's text
      advances in the BINARY order. */
  lemma RaceStatusMonotone(storedStart: string, nowText: string, laterText: string)
    requires LexLe(nowText, laterText)
    ensures RaceStatusAsWritten(storedStart, nowText) == Closed
            ==> RaceStatusAsWritten(storedStart, laterText) == Closed
  {
    if LexLe(storedStart, nowText) {
      LexLeTrans(storedStart, nowText, laterText);
    }
  }

  /** On one day, starts in `datetime()`'s own form compare as their clock times do, but a
      start stored in ISO-8601 form with a `T` separator stays OPEN whatever the times:
      `T` sorts after the space `datetime()` writes. */
  lemma RaceStatusAsWrittenMisorders(day: string, startTime: string, nowTime: string)
    ensures LexLe(day + " " + startTime, day + " " + nowTime) == LexLe(startTime, nowTime)
    ensures RaceStatusAsWritten(day + "T" + startTime + "Z", day + " " + nowTime) == Open
  {
    assert day + "T" + startTime + "Z" == day + ("T" + startTime + "Z");
    assert day + " " + startTime == day + (" " + startTime);
    assert day + " " + nowTime == day + (" " + nowTime);
    LexLeCommonPrefix(day, "T" + startTime + "Z", " " + nowTime);
    LexLeCommonPrefix(day, " " + startTime, " " + nowTime);
    LexLeCommonPrefix(" ", startTime, nowTime);
  }

  /** A race stored as `2026-10-10T08:00:00Z` is still OPEN at `2026-10-10 12:00:00`, four
      hours after its start. */
  lemma RaceStatusAsWrittenExample()
    ensures LexLe("08:00:00", "12:00:00")
    ensures RaceStatusAsWritten("2026-10-10T08:00:00Z", "2026-10-10 12:00:00") == Open
  {
    RaceStatusAsWrittenMisorders("2026-10-10", "08:00:00", "12:00:00");
    assert "2026-10-10T08:00:00Z" == "2026-10-10" + "T" + "08:00:00" + "Z";
    assert "2026-10-10 12:00:00" == "2026-10-10" + " " + "12:00:00";
  }
}
