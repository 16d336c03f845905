/** The fixed SQL texts of both catalogs. The tabs and line breaks of the Go raw-string
    literals are collapsed to single spaces, which SQL does not distinguish; each text is
    written as the concatenation of its clauses. */
module Queries {
  import opened Text

  /** The stored columns both events queries select ahead of the status. */
  const EventColumns: string := "SELECT id, name, location, sport, " + "advertised_start_time, "

  /** The stored columns both races queries select ahead of the status. */
  const RaceColumns: string :=
    "SELECT id, meeting_id, name, number, " + "visible, advertised_start_time, "

  /** The `CASE` expression computing the events' status. */
  const EventStatusCase: string :=
    "CASE WHEN " + "datetime(advertised_start_time)" + " <= datetime('now')"
    + " THEN 'CLOSED' ELSE 'OPEN' END"

  /** The `CASE` expression computing the races' status. */
  const RaceStatusCase: string :=
    "CASE WHEN " + "advertised_start_time" + " <= datetime('now')"
    + " THEN 'CLOSED' ELSE 'OPEN' END"

  /** The `eventsList` query. */
  const EventsList: string :=
    "SELECT id, name, location, sport, " + "advertised_start_time, "
    + "CASE WHEN " + "datetime(advertised_start_time)" + " <= datetime('now')"
    + " THEN 'CLOSED' ELSE 'OPEN' END" + " as status FROM events"

  /** The `eventByID` query. */
  const EventById: string :=
    "SELECT id, name, location, sport, " + "advertised_start_time, "
    + "CASE WHEN " + "datetime(advertised_start_time)" + " <= datetime('now')"
    + " THEN 'CLOSED' ELSE 'OPEN' END" + " as status FROM events" + " WHERE id = ?"

  /** The `racesList` query. */
  const RacesList: string :=
    "SELECT id, meeting_id, name, number, " + "visible, advertised_start_time, "
    + "CASE WHEN " + "advertised_start_time" + " <= datetime('now')"
    + " THEN 'CLOSED' ELSE 'OPEN' END" + " as status FROM races"

  /** The `raceByID` query. */
  const RaceById: string :=
    "SELECT id, meeting_id, name, number, " + "visible, advertised_start_time, "
    + "CASE WHEN " + "advertised_start_time" + " <= datetime('now')"
    + " THEN 'CLOSED' ELSE 'OPEN' END" + " as status FROM races" + " WHERE id = ?"

  /** Both events queries compute status with the same `CASE` expression, right after the
      five stored columns. */
  lemma EventQueriesShareStatusRule()
    ensures EventsList[..|EventColumns|] == EventColumns == EventById[..|EventColumns|]
    ensures var at := |EventColumns|;
      && EventsList[at..at + |EventStatusCase|] == EventStatusCase
      && EventById[at..at + |EventStatusCase|] == EventStatusCase
  {
    ClauseAt("SELECT id, name, location, sport, ", "advertised_start_time, ",
             "CASE WHEN ", "datetime(advertised_start_time)", " <= datetime('now')",
             " THEN 'CLOSED' ELSE 'OPEN' END", " as status FROM events");
    EventByIdExtendsList();
    PrefixSlice(EventsList, " WHERE id = ?", 0, |EventColumns|);
    PrefixSlice(EventsList, " WHERE id = ?", |EventColumns|, |EventColumns| + |EventStatusCase|);
  }

  /** Both races queries compute status with the same `CASE` expression, right after the
      six stored columns. */
  lemma RaceQueriesShareStatusRule()
    ensures RacesList[..|RaceColumns|] == RaceColumns == RaceById[..|RaceColumns|]
    ensures var at := |RaceColumns|;
      && RacesList[at..at + |RaceStatusCase|] == RaceStatusCase
      && RaceById[at..at + |RaceStatusCase|] == RaceStatusCase
  {
    ClauseAt("SELECT id, meeting_id, name, number, ", "visible, advertised_start_time, ",
             "CASE WHEN ", "advertised_start_time", " <= datetime('now')",
             " THEN 'CLOSED' ELSE 'OPEN' END", " as status FROM races");
    RaceByIdExtendsList();
    PrefixSlice(RacesList, " WHERE id = ?", 0, |RaceColumns|);
    PrefixSlice(RacesList, " WHERE id = ?", |RaceColumns|, |RaceColumns| + |RaceStatusCase|);
  }

  /** The two catalogs' rules differ only in how the start time is read: events normalise it
      through `datetime()`, races compare the stored column as it is. */
  lemma StatusRulesDiffer()
    ensures RaceStatusCase[10..31] == "advertised_start_time"
    ensures EventStatusCase
            == RaceStatusCase[..10] + "datetime(" + RaceStatusCase[10..31] + ")" + RaceStatusCase[31..]
  {
    OperandWrapped("CASE WHEN ", "advertised_start_time", " <= datetime('now')",
                   " THEN 'CLOSED' ELSE 'OPEN' END");
    DatetimeWrapsStart();
  }

  /** The events list query has no `WHERE`: it selects every row of the table. */
  lemma EventsListHasNoWhere()
    ensures !Contains(EventsList, "WHERE")
  {
    EventStatusCaseHasNoWhere();
    NoWhereAroundStatus("SELECT id, name, location, sport, ", "advertised_start_time, ",
                        "CASE WHEN ", "datetime(advertised_start_time)", " <= datetime('now')",
                        " THEN 'CLOSED' ELSE 'OPEN' END", " as status FROM events");
  }

  /** The events list query has no placeholder. */
  lemma EventsListHasNoPlaceholder()
    ensures Occurrences(EventsList, '?') == 0
  {
    EventStatusCaseHasNoPlaceholder();
    PlaceholderFreeAroundStatus("SELECT id, name, location, sport, ", "advertised_start_time, ",
                                "CASE WHEN ", "datetime(advertised_start_time)",
                                " <= datetime('now')", " THEN 'CLOSED' ELSE 'OPEN' END",
                                " as status FROM events");
  }

  /** The events by-id query is the list query narrowed by `WHERE id = ?`. */
  lemma EventByIdExtendsList()
    ensures EventById == EventsList + " WHERE id = ?"
  {
  }

  /** The events by-id query has exactly one placeholder, for the id. */
  lemma EventByIdPlaceholder()
    ensures Occurrences(EventById, '?') == 1
  {
    EventsListHasNoPlaceholder();
    EventByIdExtendsList();
    IdPredicatePlaceholder();
    OccurrencesAppend(EventsList, " WHERE id = ?", '?');
  }

  /** The races list query has no `WHERE`: it selects every row of the table. */
  lemma RacesListHasNoWhere()
    ensures !Contains(RacesList, "WHERE")
  {
    RaceStatusCaseHasNoWhere();
    NoWhereAroundStatus("SELECT id, meeting_id, name, number, ", "visible, advertised_start_time, ",
                        "CASE WHEN ", "advertised_start_time", " <= datetime('now')",
                        " THEN 'CLOSED' ELSE 'OPEN' END", " as status FROM races");
  }

  /** The races list query has no placeholder. */
  lemma RacesListHasNoPlaceholder()
    ensures Occurrences(RacesList, '?') == 0
  {
    RaceStatusCaseHasNoPlaceholder();
    PlaceholderFreeAroundStatus("SELECT id, meeting_id, name, number, ",
                                "visible, advertised_start_time, ",
                                "CASE WHEN ", "advertised_start_time",
                                " <= datetime('now')", " THEN 'CLOSED' ELSE 'OPEN' END",
                                " as status FROM races");
  }

  /** The races by-id query is the list query narrowed by `WHERE id = ?`. */
  lemma RaceByIdExtendsList()
    ensures RaceById == RacesList + " WHERE id = ?"
  {
  }

  /** The races by-id query has exactly one placeholder, for the id. */
  lemma RaceByIdPlaceholder()
    ensures Occurrences(RaceById, '?') == 1
  {
    RacesListHasNoPlaceholder();
    RaceByIdExtendsList();
    IdPredicatePlaceholder();
    OccurrencesAppend(RacesList, " WHERE id = ?", '?');
  }

  /** Two texts meet at a space: the first ends with one, or the second begins with one. */
  predicate SpaceSeam(a: string, b: string)
  {
    (|a| > 0 && a[|a| - 1] == ' ') || (|b| > 0 && b[0] == ' ')
  }

  lemma EventStatusCaseHasNoWhere()
    ensures !Contains(EventStatusCase, "WHERE")
  {
    NoWhereInRule("CASE WHEN ", "datetime(advertised_start_time)", " <= datetime('now')",
                  " THEN 'CLOSED' ELSE 'OPEN' END");
  }

  lemma RaceStatusCaseHasNoWhere()
    ensures !Contains(RaceStatusCase, "WHERE")
  {
    NoWhereInRule("CASE WHEN ", "advertised_start_time", " <= datetime('now')",
                  " THEN 'CLOSED' ELSE 'OPEN' END");
  }

  /** Four clauses meeting at spaces, each lacking some letter of `WHERE`, make a text
      without `WHERE`. */
  lemma NoWhereInRule(s1: string, s2: string, s3: string, s4: string)
    requires 'R' !in s1 && 'W' !in s2 && 'W' !in s3 && 'W' !in s4
    requires SpaceSeam(s1, s2) && SpaceSeam(s2, s3) && SpaceSeam(s3, s4)
    ensures !Contains(s1 + s2 + s3 + s4, "WHERE")
  {
    WithoutWhere(s1);
    ExtendWithoutWhere(s1, s2);
    ExtendWithoutWhere(s1 + s2, s3);
    ExtendWithoutWhere(s1 + s2 + s3, s4);
  }

  /** A status rule without `WHERE`, between column lists and a `FROM` clause that lack `W`,
      meeting them at spaces, makes a query without `WHERE`. */
  lemma NoWhereAroundStatus(c1: string, c2: string, s1: string, s2: string, s3: string,
                            s4: string, from: string)
    requires 'W' !in c1 && 'W' !in c2 && 'W' !in from
    requires !Contains(s1 + s2 + s3 + s4, "WHERE")
    requires SpaceSeam(c1, c2) && SpaceSeam(c2, s1) && SpaceSeam(s4, from)
    ensures !Contains(c1 + c2 + s1 + s2 + s3 + s4 + from, "WHERE")
  {
    var rule := s1 + s2 + s3 + s4;
    assert c1 + c2 + s1 + s2 + s3 + s4 + from == c1 + c2 + rule + from;
    WithoutWhere(c1);
    ExtendWithoutWhere(c1, c2);
    NotContainedAcrossSpace(c1 + c2, rule, "WHERE");
    ExtendWithoutWhere(c1 + c2 + rule, from);
  }

  lemma EventStatusCaseHasNoPlaceholder()
    ensures '?' !in EventStatusCase
  {
    PlaceholderFreeRule("CASE WHEN ", "datetime(advertised_start_time)", " <= datetime('now')",
                        " THEN 'CLOSED' ELSE 'OPEN' END");
  }

  lemma RaceStatusCaseHasNoPlaceholder()
    ensures '?' !in RaceStatusCase
  {
    PlaceholderFreeRule("CASE WHEN ", "advertised_start_time", " <= datetime('now')",
                        " THEN 'CLOSED' ELSE 'OPEN' END");
  }

  lemma PlaceholderFreeRule(s1: string, s2: string, s3: string, s4: string)
    requires '?' !in s1 && '?' !in s2 && '?' !in s3 && '?' !in s4
    ensures '?' !in s1 + s2 + s3 + s4
  {
  }

  /** A status rule without placeholders, between column lists and a `FROM` clause without
      them, makes a query without placeholders. */
  lemma PlaceholderFreeAroundStatus(c1: string, c2: string, s1: string, s2: string, s3: string,
                                    s4: string, from: string)
    requires '?' !in c1 && '?' !in c2 && '?' !in from
    requires '?' !in s1 + s2 + s3 + s4
    ensures Occurrences(c1 + c2 + s1 + s2 + s3 + s4 + from, '?') == 0
  {
    OccurrencesAbsent(c1 + c2 + s1 + s2 + s3 + s4 + from, '?');
  }

  lemma WithoutWhere(clause: string)
    requires 'W' !in clause || 'R' !in clause
    ensures !Contains(clause, "WHERE")
  {
    if 'W' !in clause {
      MissingCharNotContained(clause, "WHERE", 'W');
    } else {
      MissingCharNotContained(clause, "WHERE", 'R');
    }
  }

  lemma ExtendWithoutWhere(prefix: string, clause: string)
    requires !Contains(prefix, "WHERE")
    requires 'W' !in clause || 'R' !in clause
    requires SpaceSeam(prefix, clause)
    ensures !Contains(prefix + clause, "WHERE")
  {
    WithoutWhere(clause);
    NotContainedAcrossSpace(prefix, clause, "WHERE");
  }

  /** A query opens with its head, and the clause between the head and the tail sits right
      after it. */
  lemma ClauseAt(c1: string, c2: string, s1: string, s2: string, s3: string, s4: string,
                 tail: string)
    ensures var q := c1 + c2 + s1 + s2 + s3 + s4 + tail;
      && q[..|c1 + c2|] == c1 + c2
      && q[|c1 + c2|..|c1 + c2| + |s1 + s2 + s3 + s4|] == s1 + s2 + s3 + s4
  {
    var head, clause := c1 + c2, s1 + s2 + s3 + s4;
    assert c1 + c2 + s1 + s2 + s3 + s4 + tail == head + clause + tail;
  }

  /** A rule whose operand is wrapped in `datetime()` is the other rule with the wrapper
      spliced around its operand. */
  lemma OperandWrapped(lead: string, operand: string, comparison: string, outcome: string)
    ensures var raw := lead + operand + comparison + outcome;
      && raw[|lead|..|lead| + |operand|] == operand
      && lead + ("datetime(" + operand + ")") + comparison + outcome
         == raw[..|lead|] + "datetime(" + raw[|lead|..|lead| + |operand|] + ")"
            + raw[|lead| + |operand|..]
  {
    var raw := lead + operand + comparison + outcome;
    assert raw == lead + operand + (comparison + outcome);
  }

  lemma DatetimeWrapsStart()
    ensures "datetime(" + "advertised_start_time" + ")" == "datetime(advertised_start_time)"
  {
    assert "datetime(advertised_start_time)"
        == "datetime(" + "advertised_start_time" + ")";
  }

  lemma PrefixSlice(a: string, b: string, i: nat, j: nat)
    requires i <= j <= |a|
    ensures (a + b)[i..j] == a[i..j]
  {
  }

  lemma IdPredicatePlaceholder()
    ensures Occurrences(" WHERE id = ?", '?') == 1
  {
    assert " WHERE id = ?" == " WHERE id = " + "?";
    OccurrencesAbsent(" WHERE id = ", '?');
    OccurrencesAppend(" WHERE id = ", "?", '?');
  }
}
