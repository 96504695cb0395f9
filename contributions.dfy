/** The contribution list of an event: the filter a manager configures over
    the session, track, type and status of contributions, the duration
    totals shown above the list, the check whether an edited contribution is
    hidden by the filter, and the spreadsheet export of contributions
    (indico/modules/events/contributions/util.py). */
module ContributionList {
  import opened Wrappers
  import opened Seqs
  import opened Sorting
  import opened Decimal

  datatype Session = Session(id: string, title: string)
  datatype Track = Track(id: string, title: string)
  datatype ContributionType = ContributionType(id: string, name: string)
  datatype TimetableEntry = TimetableEntry(startDt: int)

  /** What `get_attached_items` finds for a contribution: the download URLs of
      its top-level files, and of the files of each of its folders. */
  datatype AttachedItems = AttachedItems(files: seq<string>, folders: seq<seq<string>>)

  /** One contribution record. Ids are in the text form in which the filter
      stores them; `duration` is a count of seconds. */
  datatype Contribution = Contribution(
    friendlyId: int,
    title: string,
    description: string,
    duration: nat,
    session: Option<Session>,
    track: Option<Track>,
    contribType: Option<ContributionType>,
    timetableEntry: Option<TimetableEntry>,
    speakers: seq<string>,
    attached: AttachedItems)

  /** `is_scheduled`: the contribution has a timetable entry. */
  predicate IsScheduled(c: Contribution)
  {
    c.timetableEntry.Some?
  }

  // ---------------------------------------------------------------------------
  // Filter configuration

  /** A selected filter value: a choice key, or the `None` sentinel that
      stands for "the column is null". */
  datatype Choice = NoValue | Value(key: string)

  /** The `items` of a filter configuration: selected values per filter key. */
  type FilterItems = map<string, set<Choice>>

  /** A stored filter configuration; `items` may be missing. */
  datatype Filters = Filters(items: Option<FilterItems>)

  /** The three nullable columns the filter can constrain. */
  datatype Column = SessionColumn | TrackColumn | TypeColumn

  const FilterColumns: seq<Column> := [SessionColumn, TrackColumn, TypeColumn]

  const StatusKey := "status"
  const Scheduled := Value("scheduled")
  const Unscheduled := Value("unscheduled")

  /** The filter key under which a column's selection is stored. */
  function ColumnKey(col: Column): string
  {
    match col
    case SessionColumn => "session"
    case TrackColumn => "track"
    case TypeColumn => "type"
  }

  /** The value of a column of a contribution, `None` when it is null. */
  function ColumnValue(c: Contribution, col: Column): Option<string>
  {
    match col
    case SessionColumn => if c.session.Some? then Some(c.session.value.id) else None
    case TrackColumn => if c.track.Some? then Some(c.track.value.id) else None
    case TypeColumn => if c.contribType.Some? then Some(c.contribType.value.id) else None
  }

  /** The values selected for a key; an absent key selects nothing. */
  function Selection(items: FilterItems, key: string): set<Choice>
  {
    if key in items then items[key] else {}
  }

  // ---------------------------------------------------------------------------
  // Reference definition of what the filter keeps

  /** The status condition: none of the two status values selected imposes no
      constraint; otherwise the contribution's status must be a selected one. */
  predicate StatusSelected(items: FilterItems, c: Contribution)
  {
    var s := Selection(items, StatusKey);
    || (Scheduled !in s && Unscheduled !in s)
    || (Scheduled in s && IsScheduled(c))
    || (Unscheduled in s && !IsScheduled(c))
  }

  /** The condition on one column: an empty selection imposes no constraint;
      otherwise the column must be null with the sentinel selected, or hold a
      selected value. */
  predicate ColumnSelected(items: FilterItems, col: Column, c: Contribution)
  {
    var ids := Selection(items, ColumnKey(col));
    var v := ColumnValue(c, col);
    || ids == {}
    || (NoValue in ids && v.None?)
    || (v.Some? && Value(v.value) in ids)
  }

  /** All per-key conditions together. */
  predicate Selected(items: FilterItems, c: Contribution)
  {
    && StatusSelected(items, c)
    && ColumnSelected(items, SessionColumn, c)
    && ColumnSelected(items, TrackColumn, c)
    && ColumnSelected(items, TypeColumn, c)
  }

  /** Whether a filter configuration keeps a contribution. */
  predicate Matches(filters: Filters, c: Contribution)
  {
    filters.items.None? || Selected(filters.items.value, c)
  }

  function MatcherFor(filters: Filters): Contribution -> bool
  {
    c => Matches(filters, c)
  }

  /** The entries of `query` that the filter keeps, in query order. */
  function Kept(query: seq<Contribution>, filters: Filters): seq<Contribution>
  {
    Filter(query, MatcherFor(filters))
  }

  // ---------------------------------------------------------------------------
  // The query criteria the filter builds

  /** One operand of an `or_`: `is_scheduled` (or its negation), `column IS NULL`,
      or `column IN (values)`. */
  datatype Test = IsScheduledTest(scheduled: bool) | IsNullTest(col: Column) | InTest(col: Column, values: set<string>)

  /** `or_(*tests)`. */
  datatype Criterion = AnyOf(tests: seq<Test>)

  predicate TestHolds(t: Test, c: Contribution)
  {
    match t
    case IsScheduledTest(b) => IsScheduled(c) == b
    case IsNullTest(col) => ColumnValue(c, col).None?
    case InTest(col, values) => ColumnValue(c, col).Some? && ColumnValue(c, col).value in values
  }

  predicate CriterionHolds(cr: Criterion, c: Contribution)
  {
    exists i :: 0 <= i < |cr.tests| && TestHolds(cr.tests[i], c)
  }

  /** `query.filter(*criteria)`: every criterion holds. */
  predicate AllHold(criteria: seq<Criterion>, c: Contribution)
  {
    forall i :: 0 <= i < |criteria| ==> CriterionHolds(criteria[i], c)
  }

  lemma AllHoldSnoc(criteria: seq<Criterion>, cr: Criterion, c: Contribution)
    ensures AllHold(criteria + [cr], c) <==> AllHold(criteria, c) && CriterionHolds(cr, c)
  {
    assert forall i :: 0 <= i < |criteria| ==> (criteria + [cr])[i] == criteria[i];
    assert (criteria + [cr])[|criteria|] == cr;
  }

  /** The non-sentinel values of a selection. */
  function NonNullKeys(ids: set<Choice>): (r: set<string>)
    ensures forall v :: v in r <==> Value(v) in ids
  {
    set ch | ch in ids && ch.Value? :: ch.key
  }

  /** The status criterion: an `or_` of the selected status conditions, or
      nothing when neither status value is selected. */
  method StatusCriteria(items: FilterItems) returns (criteria: seq<Criterion>)
    ensures forall c :: AllHold(criteria, c) <==> StatusSelected(items, c)
    ensures forall i :: 0 <= i < |criteria| ==> criteria[i].tests != []
  {
    criteria := [];
    if StatusKey in items {
      var filteredStatuses := items[StatusKey];
      var statusCriteria: seq<Test> := [];
      if Scheduled in filteredStatuses {
        statusCriteria := statusCriteria + [IsScheduledTest(true)];
      }
      if Unscheduled in filteredStatuses {
        statusCriteria := statusCriteria + [IsScheduledTest(false)];
      }
      if statusCriteria != [] {
        criteria := criteria + [AnyOf(statusCriteria)];
        forall c ensures AllHold(criteria, c) <==> StatusSelected(items, c) {
          AllHoldSnoc([], AnyOf(statusCriteria), c);
          if StatusSelected(items, c) {
            if Scheduled in filteredStatuses && IsScheduled(c) {
              assert TestHolds(statusCriteria[0], c);
            } else {
              assert TestHolds(statusCriteria[|statusCriteria| - 1], c);
            }
          }
        }
      }
    }
  }

  /** The criterion for one column, or nothing when its selection is empty. */
  method ColumnCriteria(items: FilterItems, col: Column) returns (criteria: seq<Criterion>)
    ensures forall c :: AllHold(criteria, c) <==> ColumnSelected(items, col, c)
    ensures |criteria| <= 1
    ensures forall i :: 0 <= i < |criteria| ==> criteria[i].tests != []
  {
    criteria := [];
    var ids := Selection(items, ColumnKey(col));
    if ids == {} {
      return;
    }
    var columnCriteria: seq<Test> := [];
    if NoValue in ids {
      columnCriteria := columnCriteria + [IsNullTest(col)];
    }
    var nonNull := NonNullKeys(ids);
    if nonNull != {} {
      columnCriteria := columnCriteria + [InTest(col, nonNull)];
    }
    criteria := [AnyOf(columnCriteria)];
    assert columnCriteria != [] by {
      var ch :| ch in ids;
      if ch.Value? { assert ch.key in nonNull; }
    }
    forall c ensures AllHold(criteria, c) <==> ColumnSelected(items, col, c) {
      AllHoldSnoc([], AnyOf(columnCriteria), c);
      if ColumnSelected(items, col, c) {
        if NoValue in ids && ColumnValue(c, col).None? {
          assert TestHolds(columnCriteria[0], c);
        } else {
          assert TestHolds(columnCriteria[|columnCriteria| - 1], c);
        }
      }
    }
  }

  /** The criteria `_filter_list_entries` builds for non-empty `items`: the
      status criterion, then one criterion per constrained column. Their
      conjunction is exactly the reference condition `Selected`. */
  method BuildCriteria(items: FilterItems) returns (criteria: seq<Criterion>)
    ensures forall c :: AllHold(criteria, c) <==> Selected(items, c)
    ensures forall i :: 0 <= i < |criteria| ==> criteria[i].tests != []
  {
    criteria := StatusCriteria(items);
    for k := 0 to |FilterColumns|
      invariant forall c :: AllHold(criteria, c) <==>
        StatusSelected(items, c) && forall j :: 0 <= j < k ==> ColumnSelected(items, FilterColumns[j], c)
      invariant forall i :: 0 <= i < |criteria| ==> criteria[i].tests != []
    {
      var more := ColumnCriteria(items, FilterColumns[k]);
      var before := criteria;
      criteria := criteria + more;
      forall c ensures AllHold(criteria, c) <==> AllHold(before, c) && AllHold(more, c) {
        if |more| == 1 {
          assert more == [more[0]];
          AllHoldSnoc(before, more[0], c);
        } else {
          assert criteria == before;
        }
      }
    }
    forall c ensures AllHold(criteria, c) <==> Selected(items, c) {
      assert FilterColumns[0] == SessionColumn && FilterColumns[1] == TrackColumn && FilterColumns[2] == TypeColumn;
    }
  }

  /** `_filter_list_entries`: the query unchanged when `items` is missing or
      empty, otherwise the entries on which every built criterion holds. */
  method FilterListEntries(query: seq<Contribution>, filters: Filters) returns (r: seq<Contribution>)
    ensures r == Kept(query, filters)
  {
    if filters.items.None? || filters.items.value == map[] {
      forall c | c in query ensures MatcherFor(filters)(c) {
        if filters.items.Some? {
          assert Selection(filters.items.value, StatusKey) == {};
        }
      }
      FilterKeepsAll(query, MatcherFor(filters));
      return query;
    }
    var criteria := BuildCriteria(filters.items.value);
    r := [];
    for i := 0 to |query|
      invariant r == Filter(query[..i], MatcherFor(filters))
    {
      assert query[..i + 1] == query[..i] + [query[i]];
      FilterConcat(query[..i], [query[i]], MatcherFor(filters));
      if AllHold(criteria, query[i]) {
        r := r + [query[i]];
      }
    }
    assert query[..|query|] == query;
  }

  // ---------------------------------------------------------------------------
  // Properties of the filter

  /** With no `items`, or empty `items`, the list is returned unchanged. */
  lemma NoItemsKeepsAll(query: seq<Contribution>, filters: Filters)
    requires filters.items.None? || filters.items.value == map[]
    ensures Kept(query, filters) == query
  {
    forall c | c in query ensures MatcherFor(filters)(c) {
      if filters.items.Some? {
        assert Selection(filters.items.value, StatusKey) == {};
      }
    }
    FilterKeepsAll(query, MatcherFor(filters));
  }

  /** The result is always the input with some entries left out, in input order. */
  lemma KeptIsSubsequence(query: seq<Contribution>, filters: Filters)
    ensures SubsequenceOf(Kept(query, filters), query)
    ensures |Kept(query, filters)| <= |query|
  {
    FilterIsSubsequence(query, MatcherFor(filters));
  }

  /** An entry is kept iff it is in the input and the reference condition holds. */
  lemma KeptMembership(query: seq<Contribution>, filters: Filters, c: Contribution)
    ensures c in Kept(query, filters) <==> c in query && Matches(filters, c)
  {
    FilterMembership(query, MatcherFor(filters), c);
  }

  /** Selecting both statuses excludes nothing: the same as selecting none. */
  lemma BothStatusesLikeNone(query: seq<Contribution>, items: FilterItems)
    ensures Kept(query, Filters(Some(items[StatusKey := {Scheduled, Unscheduled}])))
         == Kept(query, Filters(Some(items - {StatusKey})))
  {
    var both := Filters(Some(items[StatusKey := {Scheduled, Unscheduled}]));
    var none := Filters(Some(items - {StatusKey}));
    forall c | c in query ensures MatcherFor(both)(c) <==> MatcherFor(none)(c) {
      assert Selection(none.items.value, StatusKey) == {};
      forall col: Column ensures Selection(both.items.value, ColumnKey(col)) == Selection(none.items.value, ColumnKey(col)) {
      }
    }
    FilterCongruent(query, MatcherFor(both), MatcherFor(none));
  }

  /** A status key that is present with an empty selection imposes no constraint. */
  lemma EmptyStatusSelectionLikeNone(query: seq<Contribution>, items: FilterItems)
    ensures Kept(query, Filters(Some(items[StatusKey := {}])))
         == Kept(query, Filters(Some(items - {StatusKey})))
  {
    var empty := Filters(Some(items[StatusKey := {}]));
    var none := Filters(Some(items - {StatusKey}));
    forall c | c in query ensures MatcherFor(empty)(c) <==> MatcherFor(none)(c) {
      forall col: Column ensures Selection(empty.items.value, ColumnKey(col)) == Selection(none.items.value, ColumnKey(col)) {
      }
    }
    FilterCongruent(query, MatcherFor(empty), MatcherFor(none));
  }

  /** Selecting only `scheduled` keeps exactly the scheduled entries; selecting
      only `unscheduled` keeps exactly the others. */
  lemma StatusOnlySelection(query: seq<Contribution>, scheduled: bool)
    ensures Kept(query, Filters(Some(map[StatusKey := {if scheduled then Scheduled else Unscheduled}])))
         == Filter(query, (c: Contribution) => IsScheduled(c) == scheduled)
  {
    var f := Filters(Some(map[StatusKey := {if scheduled then Scheduled else Unscheduled}]));
    forall c | c in query ensures MatcherFor(f)(c) <==> IsScheduled(c) == scheduled {
      forall col: Column ensures Selection(f.items.value, ColumnKey(col)) == {} {
      }
    }
    FilterCongruent(query, MatcherFor(f), (c: Contribution) => IsScheduled(c) == scheduled);
  }

  /** For a column, a present but empty selection is the same as an absent key. */
  lemma EmptyColumnSelectionLikeNone(query: seq<Contribution>, items: FilterItems, col: Column)
    ensures Kept(query, Filters(Some(items[ColumnKey(col) := {}])))
         == Kept(query, Filters(Some(items - {ColumnKey(col)})))
  {
    var empty := Filters(Some(items[ColumnKey(col) := {}]));
    var none := Filters(Some(items - {ColumnKey(col)}));
    forall c | c in query ensures MatcherFor(empty)(c) <==> MatcherFor(none)(c) {
      assert Selection(empty.items.value, StatusKey) == Selection(none.items.value, StatusKey);
      forall col': Column ensures Selection(empty.items.value, ColumnKey(col')) == Selection(none.items.value, ColumnKey(col')) {
      }
    }
    FilterCongruent(query, MatcherFor(empty), MatcherFor(none));
  }

  /** Selecting only the `None` sentinel for a column keeps exactly the entries
      whose column is null. */
  lemma OnlyNoValueKeepsNullColumn(query: seq<Contribution>, col: Column)
    ensures Kept(query, Filters(Some(map[ColumnKey(col) := {NoValue}])))
         == Filter(query, (c: Contribution) => ColumnValue(c, col).None?)
  {
    var f := Filters(Some(map[ColumnKey(col) := {NoValue}]));
    forall c | c in query ensures MatcherFor(f)(c) <==> ColumnValue(c, col).None? {
      assert Selection(f.items.value, StatusKey) == {};
      forall col': Column | col' != col ensures Selection(f.items.value, ColumnKey(col')) == {} {
      }
    }
    FilterCongruent(query, MatcherFor(f), (c: Contribution) => ColumnValue(c, col).None?);
  }

  /** For a non-empty column selection, an entry matches iff its column is null
      and `None` is selected, or its column holds a selected value. */
  lemma ColumnCondition(items: FilterItems, col: Column, c: Contribution)
    requires Selection(items, ColumnKey(col)) != {}
    ensures ColumnSelected(items, col, c) <==>
      if ColumnValue(c, col).None? then NoValue in Selection(items, ColumnKey(col))
      else ColumnValue(c, col).value in NonNullKeys(Selection(items, ColumnKey(col)))
  {
  }

  /** Adding a value to a selection that already constrains its key never
      removes a match: the old result is the new result filtered once more,
      so it is an ordered sub-list of it and no longer. (Adding a value to an
      empty selection does restrict the list.) */
  lemma AddingChoiceKeepsMatches(query: seq<Contribution>, items: FilterItems, key: string, v: Choice)
    requires key in items && items[key] != {}
    requires key == StatusKey ==> Scheduled in items[key] || Unscheduled in items[key]
    ensures var wider := Filters(Some(items[key := items[key] + {v}]));
      && Kept(Kept(query, wider), Filters(Some(items))) == Kept(query, Filters(Some(items)))
      && SubsequenceOf(Kept(query, Filters(Some(items))), Kept(query, wider))
      && |Kept(query, Filters(Some(items)))| <= |Kept(query, wider)|
  {
    var narrow := Filters(Some(items));
    var wider := Filters(Some(items[key := items[key] + {v}]));
    forall c ensures MatcherFor(narrow)(c) ==> MatcherFor(wider)(c) {
      assert forall k :: Selection(items, k) <= Selection(wider.items.value, k);
      if key != StatusKey {
        assert Selection(items, StatusKey) == Selection(wider.items.value, StatusKey);
      }
      forall col: Column | ColumnKey(col) != key
        ensures Selection(items, ColumnKey(col)) == Selection(wider.items.value, ColumnKey(col)) {
      }
    }
    FilterOfWeakerFilter(query, MatcherFor(narrow), MatcherFor(wider));
    FilterIsSubsequence(Kept(query, wider), MatcherFor(narrow));
  }

  /** Five contributions, two in session 1 and three without a session:
      selecting `None` keeps the three, selecting "1" keeps the two. */
  lemma SessionScenario(a: Contribution, b: Contribution, x: Contribution, y: Contribution, z: Contribution)
    requires a.session == Some(Session("1", "Session A")) && b.session == Some(Session("1", "Session A"))
    requires x.session.None? && y.session.None? && z.session.None?
    ensures Kept([a, x, b, y, z], Filters(Some(map["session" := {NoValue}]))) == [x, y, z]
    ensures Kept([a, x, b, y, z], Filters(Some(map["session" := {Value("1")}]))) == [a, b]
  {
    var fNone := Filters(Some(map["session" := {NoValue}]));
    var fOne := Filters(Some(map["session" := {Value("1")}]));
    assert Selection(fNone.items.value, StatusKey) == {} && Selection(fNone.items.value, "track") == {} && Selection(fNone.items.value, "type") == {};
    assert Selection(fOne.items.value, StatusKey) == {} && Selection(fOne.items.value, "track") == {} && Selection(fOne.items.value, "type") == {};
    var pN, p1 := MatcherFor(fNone), MatcherFor(fOne);
    assert pN(x) && pN(y) && pN(z) && !pN(a) && !pN(b);
    assert p1(a) && p1(b) && !p1(x) && !p1(y) && !p1(z);
    FilterFiveOfTwoKinds(a, x, b, y, z, pN);
    FilterFiveOfTwoKinds(a, x, b, y, z, p1);
  }

  // ---------------------------------------------------------------------------
  // Duration totals and the hidden-contribution check

  function DurationOf(c: Contribution): nat
  {
    c.duration
  }


  /** `total_duration`: the summed duration of all listed contributions, and of
      those that have a timetable entry; the second never exceeds the first. */
  function TotalDuration(contribs: seq<Contribution>): (r: (nat, nat))
    ensures r.1 <= r.0
  {
    SumOfFilterAtMost(contribs, IsScheduled, DurationOf);
    (SumBy(contribs, DurationOf), SumBy(Filter(contribs, IsScheduled), DurationOf))
  }

  /** The all-contributions total is the scheduled total plus the durations of
      the contributions without a timetable entry. */
  lemma TotalDurationSplits(contribs: seq<Contribution>)
    ensures TotalDuration(contribs).0 ==
      TotalDuration(contribs).1 + SumBy(Filter(contribs, (c: Contribution) => !IsScheduled(c)), DurationOf)
  {
    SumSplits(contribs, IsScheduled, (c: Contribution) => !IsScheduled(c), DurationOf);
  }

  /** Three scheduled contributions of 30, 45 and 60 minutes and two
      unscheduled ones of 20 and 25 give totals of 180 and 135 minutes. */
  lemma TotalDurationScenario(a: Contribution, b: Contribution, c: Contribution, d: Contribution, e: Contribution)
    requires a.duration == 30 * 60 && b.duration == 45 * 60 && c.duration == 60 * 60
    requires d.duration == 20 * 60 && e.duration == 25 * 60
    requires a.timetableEntry.Some? && b.timetableEntry.Some? && c.timetableEntry.Some?
    requires d.timetableEntry.None? && e.timetableEntry.None?
    ensures TotalDuration([a, d, b, e, c]) == (180 * 60, 135 * 60)
  {
    FilterFiveKeepsOddPlaces(a, d, b, e, c, IsScheduled);
    SumFive(a, d, b, e, c, DurationOf);
    SumThree(a, b, c, DurationOf);
  }

  /** `hide_contrib`: `None` when no contribution is given, otherwise whether
      it is absent from the listed contributions. */
  function HideContrib(contrib: Option<Contribution>, contribs: seq<Contribution>): (r: Option<bool>)
    ensures r.None? <==> contrib.None?
    ensures contrib.Some? ==> r.value == (contrib.value !in contribs)
  {
    if contrib.Some? then Some(contrib.value !in contribs) else None
  }

  /** The edited contribution is reported hidden exactly when the filter
      rejects it or it is no longer part of the list. */
  lemma HiddenIffFilteredOut(query: seq<Contribution>, filters: Filters, c: Contribution)
    ensures HideContrib(Some(c), Kept(query, filters)) == Some(!(c in query && Matches(filters, c)))
  {
    KeptMembership(query, filters, c);
  }

  // ---------------------------------------------------------------------------
  // The filter options offered for the list

  /** One filter key shown to the manager, with its choices in display order. */
  datatype FilterItem = FilterItem(key: string, title: string, choices: seq<(Choice, string)>)

  /** A column's choices: the `None` sentinel with its label first, then one
      choice per existing entity. */
  function ColumnChoices(emptyLabel: string, entities: seq<(string, string)>): (r: seq<(Choice, string)>)
    ensures |r| == |entities| + 1 && r[0] == (NoValue, emptyLabel)
    ensures forall i :: 0 <= i < |entities| ==> r[i + 1] == (Value(entities[i].0), entities[i].1)
  {
    [(NoValue, emptyLabel)] + seq(|entities|, i requires 0 <= i < |entities| => (Value(entities[i].0), entities[i].1))
  }

  /** The static filter items: session, track and type with a null choice each,
      and the two status choices. */
  function StaticItems(sessions: seq<Session>, tracks: seq<Track>, types: seq<ContributionType>): (r: seq<FilterItem>)
    ensures |r| == 4
    ensures r[0].key == "session" && r[1].key == "track" && r[2].key == "type" && r[3].key == StatusKey
    ensures |r[0].choices| == |sessions| + 1 && |r[1].choices| == |tracks| + 1 && |r[2].choices| == |types| + 1
    ensures r[0].choices[0] == (NoValue, "No session") && r[1].choices[0] == (NoValue, "No track")
    ensures r[2].choices[0] == (NoValue, "No type")
    ensures forall i :: 0 <= i < |sessions| ==> r[0].choices[i + 1] == (Value(sessions[i].id), sessions[i].title)
    ensures forall i :: 0 <= i < |tracks| ==> r[1].choices[i + 1] == (Value(tracks[i].id), tracks[i].title)
    ensures forall i :: 0 <= i < |types| ==> r[2].choices[i + 1] == (Value(types[i].id), types[i].name)
    ensures r[3].choices == [(Scheduled, "Scheduled"), (Unscheduled, "Not scheduled")]
  {
    [ FilterItem("session", "Session", ColumnChoices("No session", seq(|sessions|, i requires 0 <= i < |sessions| => (sessions[i].id, sessions[i].title)))),
      FilterItem("track", "Track", ColumnChoices("No track", seq(|tracks|, i requires 0 <= i < |tracks| => (tracks[i].id, tracks[i].title)))),
      FilterItem("type", "Type", ColumnChoices("No type", seq(|types|, i requires 0 <= i < |types| => (types[i].id, types[i].name)))),
      FilterItem(StatusKey, "Status", [(Scheduled, "Scheduled"), (Unscheduled, "Not scheduled")]) ]
  }

  /** The choice values an item offers. */
  function ChoiceValues(item: FilterItem): set<Choice>
  {
    set i | 0 <= i < |item.choices| :: item.choices[i].0
  }

  /** Selecting every offered session choice keeps every contribution whose
      session is one of the event's sessions or absent. */
  lemma AllSessionChoicesKeepEverything(sessions: seq<Session>, tracks: seq<Track>, types: seq<ContributionType>,
                                        items: FilterItems, c: Contribution)
    requires items == map["session" := ChoiceValues(StaticItems(sessions, tracks, types)[0])]
    requires c.session.None? || c.session.value in sessions
    ensures Selected(items, c)
  {
    var item := StaticItems(sessions, tracks, types)[0];
    assert item.choices[0].0 == NoValue;
    if c.session.Some? {
      var i :| 0 <= i < |sessions| && sessions[i] == c.session.value;
      assert item.choices[i + 1].0 == Value(c.session.value.id);
    }
    assert Selection(items, StatusKey) == {} && Selection(items, "track") == {} && Selection(items, "type") == {};
  }

  // ---------------------------------------------------------------------------
  // Spreadsheet export

  /** A spreadsheet cell. Dates and durations are kept as numbers; their
      human-readable formatting is not part of this model. */
  datatype Cell = Null | Text(text: string) | Number(number: int)

  const Headers: seq<string> :=
    ["Id", "Title", "Description", "Date", "Duration", "Type", "Session", "Track", "Presenters", "Materials"]

  /** The URLs a contribution's materials list: its files, then the files of its folders in order. */
  function AttachmentUrls(items: AttachedItems): seq<string>
  {
    items.files + Flatten(items.folders)
  }

  /** The row of a contribution before its materials are collected:
      `Materials` is still null. */
  function BaseRow(c: Contribution): map<string, Cell>
  {
    map[
      "Id" := Number(c.friendlyId),
      "Title" := Text(c.title),
      "Description" := Text(c.description),
      "Duration" := Number(c.duration),
      "Date" := (if c.timetableEntry.Some? then Number(c.timetableEntry.value.startDt) else Null),
      "Type" := (if c.contribType.Some? then Text(c.contribType.value.name) else Null),
      "Session" := (if c.session.Some? then Text(c.session.value.title) else Null),
      "Track" := (if c.track.Some? then Text(c.track.value.title) else Null),
      "Materials" := Null,
      "Presenters" := Text(Join(", ", c.speakers))]
  }

  /** The export row of one contribution, keyed by header: `Materials` lists
      the URLs joined by commas, and stays null when there are none. */
  function RowFor(c: Contribution): map<string, Cell>
  {
    var urls := AttachmentUrls(c.attached);
    if urls == [] then BaseRow(c) else BaseRow(c)["Materials" := Text(Join(", ", urls))]
  }

  function FriendlyIdOf(c: Contribution): int
  {
    c.friendlyId
  }

  predicate IntLe(a: int, b: int)
  {
    a <= b
  }

  /** The contributions in export order: ascending `friendly_id`. */
  function ExportOrder(contributions: seq<Contribution>): (r: seq<Contribution>)
    ensures multiset(r) == multiset(contributions) && |r| == |contributions|
    ensures forall i, j :: 0 <= i < j < |r| ==> r[i].friendlyId <= r[j].friendlyId
  {
    var r := SortByKey(contributions, FriendlyIdOf, IntLe);
    assert forall i, j :: 0 <= i < j < |r| ==> IntLe(FriendlyIdOf(r[i]), FriendlyIdOf(r[j]));
    r
  }

  /** The materials of a contribution collected as the export loops do:
      every top-level file, then every file of every folder. */
  method CollectAttachmentUrls(items: AttachedItems) returns (attachments: seq<string>)
    ensures attachments == items.files + Flatten(items.folders)
  {
    attachments := [];
    for i := 0 to |items.files|
      invariant attachments == items.files[..i]
    {
      attachments := attachments + [items.files[i]];
      assert items.files[..i + 1] == items.files[..i] + [items.files[i]];
    }
    assert items.files[..|items.files|] == items.files;
    for k := 0 to |items.folders|
      invariant attachments == items.files + Flatten(items.folders[..k])
    {
      var folder := items.folders[k];
      ghost var before := attachments;
      for j := 0 to |folder|
        invariant attachments == before + folder[..j]
      {
        attachments := attachments + [folder[j]];
        assert folder[..j + 1] == folder[..j] + [folder[j]];
      }
      assert folder[..|folder|] == folder;
      assert items.folders[..k + 1] == items.folders[..k] + [folder];
      FlattenSnoc(items.folders[..k], folder);
    }
    assert items.folders[..|items.folders|] == items.folders;
  }

  /** `generate_spreadsheet_from_contributions`: the fixed headers and one row
      per contribution, in ascending `friendly_id` order. */
  method GenerateSpreadsheet(contributions: seq<Contribution>) returns (headers: seq<string>, rows: seq<map<string, Cell>>)
    ensures headers == Headers
    ensures |rows| == |contributions|
    ensures forall i :: 0 <= i < |rows| ==> rows[i] == RowFor(ExportOrder(contributions)[i])
  {
    headers := Headers;
    var sorted := ExportOrder(contributions);
    rows := [];
    for i := 0 to |sorted|
      invariant |rows| == i
      invariant forall k :: 0 <= k < i ==> rows[k] == RowFor(sorted[k])
    {
      var contribData := BuildRow(sorted[i]);
      rows := rows + [contribData];
    }
  }

  /** One spreadsheet row: the fixed cells, then `Materials` when some file
      URL was collected. */
  method BuildRow(c: Contribution) returns (contribData: map<string, Cell>)
    ensures contribData == RowFor(c)
  {
    contribData := BaseRow(c);
    var attachments := CollectAttachmentUrls(c.attached);
    if attachments != [] {
      contribData := contribData["Materials" := Text(Join(", ", attachments))];
    }
  }

  /** Every row has exactly the header keys, whatever the contribution lacks. */
  lemma RowHasEveryHeader(c: Contribution)
    ensures RowFor(c).Keys == set h | h in Headers
  {
  }

  lemma {:induction false} TotalLengthZero<T>(ss: seq<seq<T>>)
    ensures TotalLength(ss) == 0 <==> forall i :: 0 <= i < |ss| ==> ss[i] == []
  {
    if ss != [] {
      TotalLengthZero(ss[1..]);
      assert forall i :: 1 <= i < |ss| ==> ss[i] == ss[1..][i - 1];
    }
  }

  /** Absent associations give null cells; `Materials` is null exactly when
      neither the contribution nor any of its folders holds a file. */
  lemma RowNullCells(c: Contribution)
    ensures RowFor(c)["Type"] == Null <==> c.contribType.None?
    ensures RowFor(c)["Session"] == Null <==> c.session.None?
    ensures RowFor(c)["Track"] == Null <==> c.track.None?
    ensures RowFor(c)["Date"] == Null <==> c.timetableEntry.None?
    ensures RowFor(c)["Materials"] == Null <==>
      c.attached.files == [] && forall i :: 0 <= i < |c.attached.folders| ==> c.attached.folders[i] == []
  {
    TotalLengthZero(c.attached.folders);
  }

  // ---------------------------------------------------------------------------
  // The contribution form with custom fields

  /** A custom contribution field; `fieldImpl` is the form field its
      management implementation creates, `None` when that definition is no
      longer available. */
  datatype CustomField = CustomField(id: nat, fieldImpl: Option<string>)

  /** The attribute name a custom field gets on the form: `custom_<id>`. */
  function CustomFieldName(id: nat): string
  {
    "custom_" + NatToDecimal(id)
  }

  /** The attribute names of the first `k` custom fields whose definition is available. */
  function NamesUpTo(customFields: seq<CustomField>, k: nat): set<string>
    requires k <= |customFields|
  {
    if k == 0 then {}
    else
      var f := customFields[k - 1];
      NamesUpTo(customFields, k - 1) + (if f.fieldImpl.Some? then {CustomFieldName(f.id)} else {})
  }

  /** The names are exactly those of the available fields among the first `k`. */
  lemma {:induction false} NamesUpToMembers(customFields: seq<CustomField>, k: nat, name: string)
    requires k <= |customFields|
    ensures name in NamesUpTo(customFields, k) <==>
      exists i :: 0 <= i < k && customFields[i].fieldImpl.Some? && CustomFieldName(customFields[i].id) == name
  {
    if k > 0 {
      NamesUpToMembers(customFields, k - 1, name);
    }
  }

  /** `make_contribution_form`: the base form's fields plus one `custom_<id>`
      field per custom field whose definition is available; the base form
      itself is left as it is. Custom field ids are primary keys, so distinct. */
  method MakeContributionForm(base: map<string, string>, customFields: seq<CustomField>) returns (form: map<string, string>)
    requires forall i, j :: 0 <= i < j < |customFields| ==> customFields[i].id != customFields[j].id
    ensures form.Keys == base.Keys + NamesUpTo(customFields, |customFields|)
    ensures forall i :: (0 <= i < |customFields| && customFields[i].fieldImpl.Some?) ==>
      CustomFieldName(customFields[i].id) in form && form[CustomFieldName(customFields[i].id)] == customFields[i].fieldImpl.value
    ensures forall name :: (name in base && name !in NamesUpTo(customFields, |customFields|)) ==> form[name] == base[name]
  {
    form := base;
    for k := 0 to |customFields|
      invariant form.Keys == base.Keys + NamesUpTo(customFields, k)
      invariant forall i :: (0 <= i < k && customFields[i].fieldImpl.Some?) ==>
        CustomFieldName(customFields[i].id) in form && form[CustomFieldName(customFields[i].id)] == customFields[i].fieldImpl.value
      invariant forall name :: (name in base && name !in NamesUpTo(customFields, k)) ==> form[name] == base[name]
    {
      var customField := customFields[k];
      if customField.fieldImpl.None? {
        assert NamesUpTo(customFields, k + 1) == NamesUpTo(customFields, k);
        continue;
      }
      var name := CustomFieldName(customField.id);
      forall i | 0 <= i < k ensures CustomFieldName(customFields[i].id) != name {
        CustomFieldNamesDistinct(customFields[i].id, customField.id);
      }
      form := form[name := customField.fieldImpl.value];
      assert NamesUpTo(customFields, k + 1) == NamesUpTo(customFields, k) + {name};
    }
  }

  /** Distinct custom fields get distinct attribute names. */
  lemma CustomFieldNamesDistinct(a: nat, b: nat)
    requires a != b
    ensures CustomFieldName(a) != CustomFieldName(b)
  {
    if CustomFieldName(a) == CustomFieldName(b) {
      assert NatToDecimal(a) == CustomFieldName(a)[7..];
      assert NatToDecimal(b) == CustomFieldName(b)[7..];
      NatToDecimalInjective(a, b);
    }
  }
}
