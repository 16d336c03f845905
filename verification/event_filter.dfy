/** The optional `WHERE` clause that a `ListEventsRequestFilter` adds to the events list query. */
module EventFilter {
  import opened Outcomes
  import opened Text
  import opened EventModel

  /** The equality predicate on one column, with its placeholder. */
  function Clause(c: Column): string
  {
    ColumnName(c) + " = ?"
  }

  /** Appends the filter's predicates to `query` and collects their arguments. A missing
      filter, or one whose fields are all empty, leaves the query as it is. */
  function ApplyFilter(query: string, filter: Option<Filter>): (st: Statement)
    ensures query <= st.sql
    ensures filter.None? ==> st == Statement(query, [])
    ensures filter.Some? ==> st.args == Bindings(filter.value, Selected(filter.value))
    ensures filter.Some? && Selected(filter.value) == [] ==> st.sql == query
    ensures filter.Some? && Selected(filter.value) != [] ==>
              st.sql == query + " WHERE " + Join(Clauses(Selected(filter.value)), " AND ")
    ensures forall i :: 0 <= i < |st.args| ==> st.args[i].Text? && st.args[i].text != ""
    ensures Occurrences(st.sql, '?') == Occurrences(query, '?') + |st.args|
  {
    match filter
    case None => Statement(query, [])
    case Some(f) =>
      var (c1, a1) := if f.name != "" then (["name = ?"], [Text(f.name)]) else ([], []);
      var (c2, a2) := if f.location != "" then (c1 + ["location = ?"], a1 + [Text(f.location)]) else (c1, a1);
      var (c3, a3) := if f.sport != "" then (c2 + ["sport = ?"], a2 + [Text(f.sport)]) else (c2, a2);
      assert c3 == Clauses(Selected(f)) && a3 == Bindings(f, Selected(f)) by {
        var n := if f.name != "" then [NameColumn] else [];
        var l := if f.location != "" then [LocationColumn] else [];
        var t := if f.sport != "" then [SportColumn] else [];
        SelectedUnfolds(f);
        OneColumn(f, NameColumn);
        OneColumn(f, LocationColumn);
        OneColumn(f, SportColumn);
        ClausesAppend(n, l);
        ClausesAppend(n + l, t);
        BindingsAppend(f, n, l);
        BindingsAppend(f, n + l, t);
      }
      var sql := if |c3| != 0 then query + " WHERE " + Join(c3, " AND ") else query;
      assert Occurrences(sql, '?') == Occurrences(query, '?') + |a3| by {
        if |c3| != 0 {
          WherePlaceholders(query, Selected(f));
        }
      }
      Statement(sql, a3)
  }

  /** A missing filter and a filter whose fields are all empty build the same statement. */
  lemma NilFilterSameAsEmpty(query: string)
    ensures ApplyFilter(query, None) == ApplyFilter(query, Some(Filter("", "", "")))
  {
  }

  /** The columns of `cols` that the filter constrains, in order. */
  function Keep(f: Filter, cols: seq<Column>): (kept: seq<Column>)
    ensures |kept| <= |cols|
  {
    if cols == [] then []
    else if FieldOf(f, cols[0]) != "" then [cols[0]] + Keep(f, cols[1..])
    else Keep(f, cols[1..])
  }

  /** The columns the filter constrains, in the order the filter's fields are examined. */
  function Selected(f: Filter): seq<Column>
  {
    Keep(f, FilterOrder)
  }

  function Clauses(cols: seq<Column>): (cs: seq<string>)
    ensures |cs| == |cols|
  {
    if cols == [] then [] else [Clause(cols[0])] + Clauses(cols[1..])
  }

  /** The filter's values for `cols`, as statement arguments. */
  function Bindings(f: Filter, cols: seq<Column>): (args: seq<Arg>)
    ensures |args| == |cols|
  {
    if cols == [] then [] else [Text(FieldOf(f, cols[0]))] + Bindings(f, cols[1..])
  }

  lemma SelectedUnfolds(f: Filter)
    ensures Selected(f) ==
      (if f.name != "" then [NameColumn] else []) +
      (if f.location != "" then [LocationColumn] else []) +
      (if f.sport != "" then [SportColumn] else [])
  {
    var s := Keep(f, [SportColumn]);
    assert s == (if f.sport != "" then [SportColumn] else []) by {
      assert [SportColumn][1..] == [];
    }
    var ls := Keep(f, [LocationColumn, SportColumn]);
    assert ls == (if f.location != "" then [LocationColumn] else []) + s by {
      assert [LocationColumn, SportColumn][1..] == [SportColumn];
    }
    assert Keep(f, FilterOrder) == (if f.name != "" then [NameColumn] else []) + ls by {
      assert FilterOrder[1..] == [LocationColumn, SportColumn];
    }
  }

  lemma {:induction false} ClausesAppend(a: seq<Column>, b: seq<Column>)
    ensures Clauses(a + b) == Clauses(a) + Clauses(b)
  {
    if a == [] {
      assert a + b == b;
    } else {
      assert (a + b)[1..] == a[1..] + b;
      ClausesAppend(a[1..], b);
    }
  }

  lemma {:induction false} BindingsAppend(f: Filter, a: seq<Column>, b: seq<Column>)
    ensures Bindings(f, a + b) == Bindings(f, a) + Bindings(f, b)
  {
    if a == [] {
      assert a + b == b;
    } else {
      assert (a + b)[1..] == a[1..] + b;
      BindingsAppend(f, a[1..], b);
    }
  }

  /** The clause and argument of one column the filter may constrain. */
  lemma OneColumn(f: Filter, c: Column)
    ensures Clauses([c]) == [Clause(c)]
    ensures Bindings(f, [c]) == [Text(FieldOf(f, c))]
    ensures Clause(NameColumn) == "name = ?"
    ensures Clause(LocationColumn) == "location = ?"
    ensures Clause(SportColumn) == "sport = ?"
  {
    assert [c][1..] == [];
    assert "name" + " = ?" == "name = ?";
    assert "location" + " = ?" == "location = ?";
    assert "sport" + " = ?" == "sport = ?";
  }

  lemma {:induction false} KeepMembers(f: Filter, cols: seq<Column>, c: Column)
    ensures c in Keep(f, cols) <==> c in cols && FieldOf(f, c) != ""
  {
    if cols != [] {
      KeepMembers(f, cols[1..], c);
      assert cols == [cols[0]] + cols[1..];
    }
  }

  lemma ClausePlaceholder(c: Column)
    ensures Occurrences(Clause(c), '?') == 1
  {
    var head := ColumnName(c) + " = ";
    assert Clause(c) == head + "?";
    assert '?' !in head;
    OccurrencesAbsent(head, '?');
    OccurrencesAppend(head, "?", '?');
  }

  lemma {:induction false} ClausesPlaceholders(cols: seq<Column>)
    ensures TotalOccurrences(Clauses(cols), '?') == |cols|
  {
    if cols != [] {
      ClausePlaceholder(cols[0]);
      ClausesPlaceholders(cols[1..]);
      assert Clauses(cols)[1..] == Clauses(cols[1..]);
    }
  }

  /** A `WHERE` over the given columns holds one placeholder per column. */
  lemma WherePlaceholders(query: string, cols: seq<Column>)
    requires cols != []
    ensures Occurrences(query + " WHERE " + Join(Clauses(cols), " AND "), '?')
            == Occurrences(query, '?') + |cols|
  {
    var conj := Join(Clauses(cols), " AND ");
    ConjunctionPlaceholders(cols);
    OccurrencesAbsent(" WHERE ", '?');
    OccurrencesAppend(query, " WHERE ", '?');
    OccurrencesAppend(query + " WHERE ", conj, '?');
  }

  lemma ConjunctionPlaceholders(cols: seq<Column>)
    requires cols != []
    ensures Occurrences(Join(Clauses(cols), " AND "), '?') == |cols|
  {
    JoinOccurrencesPlainSeparator(Clauses(cols), " AND ", '?');
    ClausesPlaceholders(cols);
  }

  // Reading a filtered query back: which rows does it select?

  /** An equality condition of a `WHERE` clause, with the argument bound to its placeholder. */
  datatype Condition = Equals(column: Column, value: Arg)

  /** The column whose predicate begins `s`, if any. */
  function LeadingColumn(s: string): Option<Column>
  {
    if Clause(NameColumn) <= s then Some(NameColumn)
    else if Clause(LocationColumn) <= s then Some(LocationColumn)
    else if Clause(SportColumn) <= s then Some(SportColumn)
    else None
  }

  /** Reads `p AND p AND ...` back into the columns its predicates constrain. */
  function ParseConjunction(s: string): Option<seq<Column>>
    decreases |s|
  {
    match LeadingColumn(s)
    case None => None
    case Some(c) =>
      var k := |Clause(c)|;
      if s == Clause(c) then Some([c])
      else if k + 5 < |s| && s[k..k + 5] == " AND " then
        match ParseConjunction(s[k + 5..])
        case None => None
        case Some(cols) => Some([c] + cols)
      else None
  }

  /** The conditions a statement built on `base` places on rows, each predicate paired with
      its argument; `None` when the text is not `base` followed by an optional `WHERE`. */
  function Conditions(base: string, st: Statement): Option<seq<Condition>>
  {
    if st.sql == base then
      (if st.args == [] then Some([]) else None)
    else if |base| + 7 <= |st.sql| && st.sql[..|base| + 7] == base + " WHERE " then
      match ParseConjunction(st.sql[|base| + 7..])
      case None => None
      case Some(cols) =>
        if |cols| == |st.args| then Some(seq(|cols|, i requires 0 <= i < |cols| => Equals(cols[i], st.args[i])))
        else None
    else None
  }

  /** A stored event satisfies every condition. */
  predicate Holds(conds: seq<Condition>, e: StoredEvent)
  {
    forall i :: 0 <= i < |conds| ==> conds[i].value == Text(ValueOf(e, conds[i].column))
  }

  /** The filter's meaning: each non-empty field must equal the event's value exactly. */
  predicate Matches(filter: Option<Filter>, e: StoredEvent)
  {
    match filter
    case None => true
    case Some(f) =>
      && (f.name == "" || e.name == f.name)
      && (f.location == "" || e.location == f.location)
      && (f.sport == "" || e.sport == f.sport)
  }

  /** The filtered query selects exactly the events the filter describes: read back, its
      conditions hold of a stored event if and only if the event matches the filter. */
  lemma {:induction false} FilterSelectsMatches(base: string, filter: Option<Filter>, e: StoredEvent)
    ensures Conditions(base, ApplyFilter(base, filter)).Some?
    ensures Holds(Conditions(base, ApplyFilter(base, filter)).value, e) <==> Matches(filter, e)
  {
    match filter
    case None =>
    case Some(f) =>
      var sel := Selected(f);
      if sel == [] {
        SelectedUnfolds(f);
        assert f.name == "" && f.location == "" && f.sport == "";
      } else {
        FilteredConditions(base, f);
        SelectedMembers(f);
        HoldsOnSelected(f, sel, Conditions(base, ApplyFilter(base, filter)).value, e);
      }
  }

  /** Read back, a non-trivial filtered query pairs each selected column with its field. */
  lemma FilteredConditions(base: string, f: Filter)
    requires Selected(f) != []
    ensures Conditions(base, ApplyFilter(base, Some(f))).Some?
    ensures var conds := Conditions(base, ApplyFilter(base, Some(f))).value;
      && |conds| == |Selected(f)|
      && forall i :: 0 <= i < |conds| ==> conds[i] == Equals(Selected(f)[i], Text(FieldOf(f, Selected(f)[i])))
  {
    var sel := Selected(f);
    var st := ApplyFilter(base, Some(f));
    var conj := Join(Clauses(sel), " AND ");
    assert st.sql == base + " WHERE " + conj;
    assert st.sql[..|base| + 7] == base + " WHERE ";
    assert st.sql[|base| + 7..] == conj;
    ParseJoinedClauses(sel);
    var conds := Conditions(base, st).value;
    forall i | 0 <= i < |sel|
      ensures conds[i] == Equals(sel[i], Text(FieldOf(f, sel[i])))
    {
      BindingsAt(f, sel, i);
    }
  }

  /** A column is selected exactly when the filter's field for it is non-empty. */
  lemma SelectedMembers(f: Filter)
    ensures forall c: Column :: c in Selected(f) <==> FieldOf(f, c) != ""
  {
    forall c: Column
      ensures c in Selected(f) <==> FieldOf(f, c) != ""
    {
      KeepMembers(f, FilterOrder, c);
    }
  }

  lemma HoldsOnSelected(f: Filter, sel: seq<Column>, conds: seq<Condition>, e: StoredEvent)
    requires |conds| == |sel|
    requires forall i :: 0 <= i < |sel| ==> conds[i] == Equals(sel[i], Text(FieldOf(f, sel[i])))
    requires forall c: Column :: c in sel <==> FieldOf(f, c) != ""
    ensures Holds(conds, e) <==> Matches(Some(f), e)
  {
    if Holds(conds, e) {
      forall c: Column | FieldOf(f, c) != ""
        ensures ValueOf(e, c) == FieldOf(f, c)
      {
        var i :| 0 <= i < |sel| && sel[i] == c;
        assert conds[i].value == Text(ValueOf(e, conds[i].column));
      }
      assert f.name != "" ==> ValueOf(e, NameColumn) == f.name;
      assert f.location != "" ==> ValueOf(e, LocationColumn) == f.location;
      assert f.sport != "" ==> ValueOf(e, SportColumn) == f.sport;
    }
    if Matches(Some(f), e) {
      forall i | 0 <= i < |conds|
        ensures conds[i].value == Text(ValueOf(e, conds[i].column))
      {
        assert sel[i] in sel;
        match sel[i]
        case NameColumn =>
        case LocationColumn =>
        case SportColumn =>
      }
    }
  }

  lemma {:induction false} BindingsAt(f: Filter, cols: seq<Column>, i: nat)
    requires i < |cols|
    ensures Bindings(f, cols)[i] == Text(FieldOf(f, cols[i]))
  {
    if i > 0 {
      BindingsAt(f, cols[1..], i - 1);
    }
  }

  /** The first predicate of a conjunction names its column. */
  lemma LeadingColumnOf(c: Column, rest: string)
    ensures LeadingColumn(Clause(c) + rest) == Some(c)
  {
    OneColumn(Filter("", "", ""), c);
    var s := Clause(c) + rest;
    assert s[0] == Clause(c)[0];
  }

  /** Reading back a joined conjunction recovers its columns: the rendering is lossless. */
  lemma {:induction false} ParseJoinedClauses(cols: seq<Column>)
    requires cols != []
    ensures ParseConjunction(Join(Clauses(cols), " AND ")) == Some(cols)
  {
    var c := cols[0];
    if |cols| == 1 {
      assert cols == [c];
      assert Clauses(cols) == [Clause(c)] by {
        assert cols[1..] == [];
      }
      assert Join(Clauses(cols), " AND ") == Clause(c);
      ParseSingleClause(c);
    } else {
      JoinClausesUnfold(cols);
      ParseFirstClause(c, Join(Clauses(cols[1..]), " AND "));
      ParseJoinedClauses(cols[1..]);
      assert cols == [c] + cols[1..];
    }
  }

  lemma JoinClausesUnfold(cols: seq<Column>)
    requires |cols| > 1
    ensures Join(Clauses(cols), " AND ") == Clause(cols[0]) + " AND " + Join(Clauses(cols[1..]), " AND ")
  {
    assert Clauses(cols)[0] == Clause(cols[0]);
    assert Clauses(cols)[1..] == Clauses(cols[1..]);
  }

  lemma ParseSingleClause(c: Column)
    ensures ParseConjunction(Clause(c)) == Some([c])
  {
    assert Clause(c) + "" == Clause(c);
    LeadingColumnOf(c, "");
  }

  /** A conjunction reads back as its first predicate's column followed by the rest's. */
  lemma ParseFirstClause(c: Column, rest: string)
    ensures ParseConjunction(Clause(c) + " AND " + rest) ==
              match ParseConjunction(rest)
              case None => None
              case Some(cols) => Some([c] + cols)
  {
    var s := Clause(c) + " AND " + rest;
    assert s == Clause(c) + (" AND " + rest);
    LeadingColumnOf(c, " AND " + rest);
    var k := |Clause(c)|;
    assert s[k..k + 5] == " AND ";
    assert s[k + 5..] == rest;
    assert s != Clause(c);
    if rest == [] {
      OneColumn(Filter("", "", ""), c);
      assert LeadingColumn(rest) == None;
    }
  }
}
