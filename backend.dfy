/** The Flask service's deterministic rules: the time-of-day helpers, Python's
    `strptime` field rules for the formats the service parses, the grouping of joined
    goal/timeline rows, request validation, the invitation-status rule, the profile
    picture update, the last-timeline guard and the unread count. Database access is
    replaced by the values the queries would return, and password hashing by the
    boolean the hash check would give. */
module Backend {
  import opened Common
  import opened Calendar

  // ---------------------------------------------------------------------------
  // Python strings

  /** `s.split(sep)`: the pieces between separators, always at least one. */
  function Split(s: string, sep: char): (r: seq<string>)
    ensures |r| >= 1
    ensures forall i | 0 <= i < |r| :: sep !in r[i]
    decreases |s|
  {
    match AfterFirst(s, sep)
    case None => [s]
    case Some(rest) =>
      assert |rest| < |s|;
      [BeforeFirst(s, sep)] + Split(rest, sep)
  }

  /** `sep.join(parts)`. */
  function Join(parts: seq<string>, sep: char): string
    requires |parts| >= 1
  {
    if |parts| == 1 then parts[0] else parts[0] + [sep] + Join(parts[1..], sep)
  }

  /** Joining the pieces gives back the text. */
  lemma {:induction false} JoinSplit(s: string, sep: char)
    ensures Join(Split(s, sep), sep) == s
    decreases |s|
  {
    match AfterFirst(s, sep)
    case None =>
    case Some(rest) =>
      JoinSplit(rest, sep);
      assert Split(s, sep)[1..] == Split(rest, sep);
  }

  /** A text with one separator splits into the two sides. */
  lemma SplitTwo(a: string, sep: char, b: string)
    requires sep !in a && sep !in b
    ensures Split(a + [sep] + b, sep) == [a, b]
  {
    SplitAtFirst(a, sep, b);
    assert AfterFirst(b, sep).None?;
  }

  // ---------------------------------------------------------------------------
  // Times of day

  /** A `datetime.time` as the database returns it. */
  datatype Clock = Clock(hour: nat, minute: nat, second: nat)

  type TimeOfDay = c: Clock | c.hour < 24 && c.minute < 60 && c.second < 60 witness Clock(0, 0, 0)

  /** What a time column or a request field holds: SQL NULL, a text, or a time object. */
  datatype TimeValue = NullTime | TimeText(text: string) | TimeObject(clock: TimeOfDay)

  /** A `strptime` numeric field of one or two ASCII digits whose value is at most `max`
      (the `%H`, `%M` and `%S` patterns, with seconds 60 and 61 refused by `time`). */
  predicate ClockField(p: string, max: nat) {
    1 <= |p| <= 2 && AllDigits(p) && DigitsValue(p) <= max
  }

  /** `datetime.strptime(s, '%H:%M:%S').time()`, or with `withSeconds` false,
      `datetime.strptime(s, '%H:%M').time()`; None where Python raises `ValueError`. */
  function StrpClock(s: string, withSeconds: bool): (r: Option<TimeOfDay>)
    ensures r.Some? ==> |Split(s, ':')| == (if withSeconds then 3 else 2)
    ensures r.Some? && !withSeconds ==> r.value.second == 0
  {
    var p := Split(s, ':');
    if withSeconds then
      if |p| == 3 && ClockField(p[0], 23) && ClockField(p[1], 59) && ClockField(p[2], 59)
      then Some(Clock(DigitsValue(p[0]), DigitsValue(p[1]), DigitsValue(p[2])))
      else None
    else
      if |p| == 2 && ClockField(p[0], 23) && ClockField(p[1], 59)
      then Some(Clock(DigitsValue(p[0]), DigitsValue(p[1]), 0))
      else None
  }

  /** `t.strftime('%H:%M')`. */
  function StrfHHMM(c: TimeOfDay): (r: string)
    ensures |r| == 5 && r[2] == ':'
  {
    Pad2(c.hour) + ":" + Pad2(c.minute)
  }

  /** `format_time_to_hhmm`: NULL stays NULL, a time object and a text that parses as
      `%H:%M:%S` or `%H:%M` become zero-padded "HH:MM", any other text is kept. */
  function FormatTimeToHHMM(v: TimeValue): (r: Option<string>)
    ensures r.None? <==> v.NullTime?
  {
    match v
    case NullTime => None
    case TimeObject(c) => Some(StrfHHMM(c))
    case TimeText(s) =>
      match StrpClock(s, true)
      case Some(c) => Some(StrfHHMM(c))
      case None =>
        match StrpClock(s, false)
        case Some(c) => Some(StrfHHMM(c))
        case None => Some(s)
  }

  /** `parse_time_from_hhmm`: an empty or missing text gives None; a text with one
      colon is parsed as `%H:%M`, any other as `%H:%M:%S`; a parse failure gives None. */
  function ParseTimeFromHHMM(s: Option<string>): (r: Option<TimeOfDay>)
    ensures !Present(s) ==> r.None?
    ensures r.Some? && |Split(s.value, ':')| == 2 ==> r.value.second == 0
    ensures r.Some? ==> |Split(s.value, ':')| in {2, 3}
  {
    if !Present(s) then None
    else if |Split(s.value, ':')| == 2 then StrpClock(s.value, false)
    else StrpClock(s.value, true)
  }

  /** A two-digit text is the zero-padded form of its own value. */
  lemma Pad2OfDigits(s: string)
    requires |s| == 2 && AllDigits(s)
    ensures DigitsValue(s) < 100 && Pad2(DigitsValue(s)) == s
  {
    assert s[..1][..0] == [];
    assert DigitsValue(s[..1]) == DigitValue(s[0]);
  }

  /** Arguments of the two round trips: two-digit hour and minute texts in range. */
  predicate CanonicalPieces(hh: string, mm: string) {
    |hh| == 2 && |mm| == 2 && AllDigits(hh) && AllDigits(mm)
    && DigitsValue(hh) < 24 && DigitsValue(mm) < 60
  }

  lemma ClockTextSplits(hh: string, mm: string)
    requires CanonicalPieces(hh, mm)
    ensures Split(hh + ":" + mm, ':') == [hh, mm]
  {
    assert ':' !in hh by {
      assert forall i | 0 <= i < |hh| :: IsDigit(hh[i]);
    }
    assert ':' !in mm by {
      assert forall i | 0 <= i < |mm| :: IsDigit(mm[i]);
    }
    SplitTwo(hh, ':', mm);
    assert hh + ":" + mm == hh + [':'] + mm;
  }

  /** Storing a canonical "HH:MM" and reading it back gives the same text. */
  lemma {:induction false} FormatAfterParse(hh: string, mm: string)
    requires CanonicalPieces(hh, mm)
    ensures ParseTimeFromHHMM(Some(hh + ":" + mm)) == Some(Clock(DigitsValue(hh), DigitsValue(mm), 0))
    ensures FormatTimeToHHMM(TimeObject(Clock(DigitsValue(hh), DigitsValue(mm), 0))) == Some(hh + ":" + mm)
  {
    ClockTextSplits(hh, mm);
    Pad2OfDigits(hh);
    Pad2OfDigits(mm);
  }

  /** Formatting a time and parsing the text again keeps the hour and the minute. */
  lemma {:induction false} ParseAfterFormat(c: TimeOfDay)
    ensures ParseTimeFromHHMM(FormatTimeToHHMM(TimeObject(c))) == Some(Clock(c.hour, c.minute, 0))
  {
    ClockTextSplits(Pad2(c.hour), Pad2(c.minute));
  }

  lemma DigitsHaveNoColon(s: string)
    requires AllDigits(s)
    ensures ':' !in s
  {
    assert forall i | 0 <= i < |s| :: IsDigit(s[i]);
  }

  /** "HH:MM:SS" loses its seconds. */
  lemma {:induction false} FormatDropsSeconds(hh: string, mm: string, ss: string)
    requires CanonicalPieces(hh, mm) && |ss| == 2 && AllDigits(ss) && DigitsValue(ss) < 60
    ensures FormatTimeToHHMM(TimeText(hh + ":" + mm + ":" + ss)) == Some(hh + ":" + mm)
  {
    DigitsHaveNoColon(hh);
    DigitsHaveNoColon(mm);
    DigitsHaveNoColon(ss);
    var rest := mm + ":" + ss;
    SplitTwo(mm, ':', ss);
    assert mm + ":" + ss == mm + [':'] + ss;
    SplitAtFirst(hh, ':', rest);
    assert hh + ":" + mm + ":" + ss == hh + [':'] + rest;
    assert Split(hh + ":" + mm + ":" + ss, ':') == [hh, mm, ss];
    Pad2OfDigits(hh);
    Pad2OfDigits(mm);
  }

  /** "H:MM" with a one-digit hour gains its leading zero. */
  lemma {:induction false} FormatPadsHour(h: char, mm: string)
    requires IsDigit(h) && |mm| == 2 && AllDigits(mm) && DigitsValue(mm) < 60
    ensures FormatTimeToHHMM(TimeText([h] + ":" + mm)) == Some("0" + [h] + ":" + mm)
  {
    DigitsHaveNoColon(mm);
    SplitTwo([h], ':', mm);
    assert [h] + ":" + mm == [h] + [':'] + mm;
    assert [h][..0] == [];
    assert DigitsValue([h]) == DigitValue(h);
    Pad2OfDigits(mm);
    assert Pad2(DigitValue(h)) == "0" + [h];
  }

  /** A text that is neither form is returned as it is. */
  lemma FormatKeepsOtherText(s: string)
    requires StrpClock(s, true).None? && StrpClock(s, false).None?
    ensures FormatTimeToHHMM(TimeText(s)) == Some(s)
  {
  }

  /** A formatted text is read back as the same hour and minute and printed unchanged. */
  lemma {:induction false} FormatOfFormatted(c: TimeOfDay)
    ensures FormatTimeToHHMM(TimeText(StrfHHMM(c))) == Some(StrfHHMM(c))
  {
    var s := StrfHHMM(c);
    ClockTextSplits(Pad2(c.hour), Pad2(c.minute));
    assert Split(s, ':') == [Pad2(c.hour), Pad2(c.minute)];
    assert StrpClock(s, true).None?;
    assert StrpClock(s, false) == Some(Clock(c.hour, c.minute, 0));
  }

  /** Formatting is idempotent: a formatted value formats to itself. */
  lemma {:induction false} FormatIdempotent(v: TimeValue)
    requires v.TimeText? || v.TimeObject?
    ensures FormatTimeToHHMM(TimeText(FormatTimeToHHMM(v).value)) == FormatTimeToHHMM(v)
  {
    match v
    case TimeObject(c) => FormatOfFormatted(c);
    case TimeText(s) =>
      match StrpClock(s, true)
      case Some(c) => FormatOfFormatted(c);
      case None =>
        match StrpClock(s, false)
        case Some(c) => FormatOfFormatted(c);
        case None =>
  }

  // ---------------------------------------------------------------------------
  // Goals with their timelines

  /** The timeline columns of a joined row; all NULL when the goal has no timeline. */
  datatype TimelineColumns = TimelineColumns(id: Option<int>, title: Option<string>,
    startDate: Option<int>, endDate: Option<int>, startTime: TimeValue, endTime: TimeValue)

  /** A row of the goal/timeline LEFT JOIN. */
  datatype GoalRow = GoalRow(goalId: int, title: Option<string>, description: Option<string>,
    category: Option<string>, progress: Option<int>, timeline: TimelineColumns)

  datatype TimelineRecord = TimelineRecord(id: int, title: Option<string>, startDate: Option<int>,
    endDate: Option<int>, startTime: Option<string>, endTime: Option<string>)

  datatype GoalRecord = GoalRecord(id: int, title: Option<string>, description: Option<string>,
    category: Option<string>, progress: Option<int>, timelines: seq<TimelineRecord>)

  /** `if row[5]:` the timeline id is neither NULL nor 0. */
  predicate HasTimeline(r: GoalRow) {
    r.timeline.id.Some? && r.timeline.id.value != 0
  }

  function TimelineRecordOf(r: GoalRow): TimelineRecord
    requires HasTimeline(r)
  {
    var t := r.timeline;
    TimelineRecord(t.id.value, t.title, t.startDate, t.endDate, FormatTimeToHHMM(t.startTime), FormatTimeToHHMM(t.endTime))
  }

  /** The goal entry made from the first row of a goal, before any timeline is added. */
  function GoalHeader(r: GoalRow): GoalRecord {
    GoalRecord(r.goalId, r.title, r.description, r.category, r.progress, [])
  }

  function RowIds(rows: seq<GoalRow>): (ids: seq<int>)
    ensures |ids| == |rows| && forall i | 0 <= i < |rows| :: ids[i] == rows[i].goalId
  {
    seq(|rows|, i requires 0 <= i < |rows| => rows[i].goalId)
  }

  /** The distinct values of `s` in order of first appearance. */
  function Dedup(s: seq<int>): (r: seq<int>)
    ensures forall x :: x in r <==> x in s
    ensures forall i, j | 0 <= i < j < |r| :: r[i] != r[j]
  {
    if s == [] then []
    else
      var d := Dedup(s[..|s| - 1]);
      if s[|s| - 1] in d then d else d + [s[|s| - 1]]
  }

  /** Position of the first occurrence of `x` in `s`. */
  function FirstIndex(s: seq<int>, x: int): (k: nat)
    requires x in s
    ensures k < |s| && s[k] == x && forall j | 0 <= j < k :: s[j] != x
  {
    if s[|s| - 1] == x && x !in s[..|s| - 1] then |s| - 1
    else FirstIndex(s[..|s| - 1], x)
  }

  /** The distinct values keep the order in which they first appear. */
  lemma {:induction false} DedupFirstAppearance(s: seq<int>)
    ensures forall i, j | 0 <= i < j < |Dedup(s)| :: FirstIndex(s, Dedup(s)[i]) < FirstIndex(s, Dedup(s)[j])
  {
    if s != [] {
      var init := s[..|s| - 1];
      var last := s[|s| - 1];
      DedupFirstAppearance(init);
      var d := Dedup(init);
      var r := Dedup(s);
      assert r == if last in d then d else d + [last];
      forall i, j | 0 <= i < j < |r| ensures FirstIndex(s, r[i]) < FirstIndex(s, r[j]) {
        assert r[i] == d[i] && d[i] in init;
        FirstIndexOfPrefix(s, d[i]);
        if j < |d| {
          assert r[j] == d[j] && d[j] in init;
          FirstIndexOfPrefix(s, d[j]);
          assert FirstIndex(init, d[i]) < FirstIndex(init, d[j]);
        } else {
          assert last !in init;
          assert FirstIndex(s, last) == |s| - 1;
          assert r[j] == last;
          assert FirstIndex(init, d[i]) < |init|;
        }
      }
    }
  }

  lemma FirstIndexOfPrefix(s: seq<int>, x: int)
    requires s != [] && x in s[..|s| - 1]
    ensures FirstIndex(s, x) == FirstIndex(s[..|s| - 1], x)
  {
    var k := FirstIndex(s[..|s| - 1], x);
    var k' := FirstIndex(s, x);
    assert s[..|s| - 1][k] == s[k];
    assert k' < |s| - 1 ==> s[..|s| - 1][k'] == s[k'];
  }

  /** The first row of goal `id`, if there is one. */
  function FirstRowOf(rows: seq<GoalRow>, id: int): (r: Option<GoalRow>)
    ensures r.None? <==> forall j | 0 <= j < |rows| :: rows[j].goalId != id
    ensures r.Some? ==> exists j | 0 <= j < |rows| ::
      (rows[j] == r.value && r.value.goalId == id && forall k | 0 <= k < j :: rows[k].goalId != id)
  {
    if rows == [] then None
    else
      var init := rows[..|rows| - 1];
      match FirstRowOf(init, id)
      case Some(r) =>
        assert forall j | 0 <= j < |init| :: rows[j] == init[j];
        Some(r)
      case None =>
        if rows[|rows| - 1].goalId == id then
          assert forall k | 0 <= k < |rows| - 1 :: rows[k] == init[k];
          Some(rows[|rows| - 1])
        else
          assert forall j | 0 <= j < |rows| - 1 :: rows[j] == init[j];
          None
  }

  /** The timelines of goal `id`: one per row of that goal with a timeline, in row order. */
  function TimelinesOf(rows: seq<GoalRow>, id: int): seq<TimelineRecord> {
    FlatMap(rows, (r: GoalRow) => if r.goalId == id && HasTimeline(r) then [TimelineRecordOf(r)] else [])
  }

  /** The entry of goal `id`: the columns of its first row and all its timelines. */
  function GoalOf(rows: seq<GoalRow>, id: int): GoalRecord {
    match FirstRowOf(rows, id)
    case None => GoalRecord(id, None, None, None, None, [])
    case Some(r) => GoalHeader(r).(timelines := TimelinesOf(rows, id))
  }

  /** A timeline belongs to the list of goal `id` exactly when a row of that goal carries it. */
  lemma TimelinesOfMembers(rows: seq<GoalRow>, id: int, t: TimelineRecord)
    ensures t in TimelinesOf(rows, id) <==>
      exists r | r in rows :: r.goalId == id && HasTimeline(r) && t == TimelineRecordOf(r)
  {
    FlatMapMembers(rows, (r: GoalRow) => if r.goalId == id && HasTimeline(r) then [TimelineRecordOf(r)] else [], t);
  }

  /** A goal whose rows carry no timeline (the NULL side of the join) gets an empty list. */
  lemma {:induction false} TimelinesOfEmpty(rows: seq<GoalRow>, id: int)
    requires forall r | r in rows && r.goalId == id :: !HasTimeline(r)
    ensures TimelinesOf(rows, id) == []
  {
    if rows != [] {
      TimelinesOfEmpty(rows[..|rows| - 1], id);
      assert rows[|rows| - 1] in rows;
    }
  }

  lemma GoalOfStep(rows: seq<GoalRow>, r: GoalRow, id: int)
    ensures var rows' := rows + [r];
      GoalOf(rows', id) ==
        if id != r.goalId then GoalOf(rows, id)
        else if FirstRowOf(rows, id).Some? then
          GoalOf(rows, id).(timelines := GoalOf(rows, id).timelines + (if HasTimeline(r) then [TimelineRecordOf(r)] else []))
        else GoalHeader(r).(timelines := if HasTimeline(r) then [TimelineRecordOf(r)] else [])
  {
    var rows' := rows + [r];
    assert rows'[..|rows'| - 1] == rows;
    if id == r.goalId && FirstRowOf(rows, id).None? {
      TimelinesOfEmpty(rows, id);
    }
  }

  /** The dictionary after the rows `rows`: its keys in insertion order are the distinct
      goal ids in order of first appearance, and each entry is that goal's record. */
  ghost predicate DictAfter(rows: seq<GoalRow>, order: seq<int>, byId: map<int, GoalRecord>) {
    && order == Dedup(RowIds(rows))
    && (forall id :: id in byId <==> id in order)
    && (forall id | id in byId :: byId[id] == GoalOf(rows, id))
  }

  /** An entry with the row's timeline appended, when the row has one. */
  function WithRowTimeline(g: GoalRecord, row: GoalRow): GoalRecord {
    if HasTimeline(row) then g.(timelines := g.timelines + [TimelineRecordOf(row)]) else g
  }

  lemma OrderStep(rows: seq<GoalRow>, order: seq<int>, row: GoalRow)
    requires order == Dedup(RowIds(rows))
    ensures Dedup(RowIds(rows + [row])) == if row.goalId in RowIds(rows) then order else order + [row.goalId]
  {
    var ids := RowIds(rows + [row]);
    assert ids == RowIds(rows) + [row.goalId];
    assert ids[..|ids| - 1] == RowIds(rows);
  }

  /** The entry one row leaves for its goal in the dictionary. */
  lemma EntryStep(rows: seq<GoalRow>, order: seq<int>, byId: map<int, GoalRecord>, row: GoalRow)
    requires DictAfter(rows, order, byId)
    ensures GoalOf(rows + [row], row.goalId)
      == WithRowTimeline(if row.goalId in byId then byId[row.goalId] else GoalHeader(row), row)
  {
    var id := row.goalId;
    GoalOfStep(rows, row, id);
    if id in byId {
      var k :| 0 <= k < |rows| && RowIds(rows)[k] == id;
      assert rows[k].goalId == id;
    } else {
      forall j | 0 <= j < |rows| ensures rows[j].goalId != id {
        assert RowIds(rows)[j] == rows[j].goalId;
      }
    }
  }

  /** The keys after one more row: its goal id joins the order the first time it is seen. */
  lemma DictKeysStep(rows: seq<GoalRow>, order: seq<int>, byId: map<int, GoalRecord>, row: GoalRow,
                     order': seq<int>, byId': map<int, GoalRecord>)
    requires DictAfter(rows, order, byId)
    requires order' == if row.goalId in byId then order else order + [row.goalId]
    requires byId'.Keys == byId.Keys + {row.goalId}
    ensures order' == Dedup(RowIds(rows + [row]))
    ensures forall id :: id in byId' <==> id in order'
  {
    OrderStep(rows, order, row);
    assert row.goalId in RowIds(rows) <==> row.goalId in byId;
  }

  /** The entries after one more row: only the row's goal changes. */
  lemma DictEntriesStep(rows: seq<GoalRow>, order: seq<int>, byId: map<int, GoalRecord>, row: GoalRow,
                        byId': map<int, GoalRecord>)
    requires DictAfter(rows, order, byId)
    requires byId' == byId[row.goalId := WithRowTimeline(if row.goalId in byId then byId[row.goalId] else GoalHeader(row), row)]
    ensures forall id | id in byId' :: byId'[id] == GoalOf(rows + [row], id)
  {
    EntryStep(rows, order, byId, row);
    forall id | id in byId' && id != row.goalId ensures byId'[id] == GoalOf(rows + [row], id) {
      GoalOfStep(rows, row, id);
    }
  }

  /** The dictionary stays the one of the rows read so far. */
  lemma DictStep(rows: seq<GoalRow>, order: seq<int>, byId: map<int, GoalRecord>, row: GoalRow,
                 order': seq<int>, byId': map<int, GoalRecord>)
    requires DictAfter(rows, order, byId)
    requires order' == if row.goalId in byId then order else order + [row.goalId]
    requires byId' == byId[row.goalId := WithRowTimeline(if row.goalId in byId then byId[row.goalId] else GoalHeader(row), row)]
    ensures DictAfter(rows + [row], order', byId')
  {
    DictKeysStep(rows, order, byId, row, order', byId');
    DictEntriesStep(rows, order, byId, row, byId');
  }

  /** One iteration of the row loop. */
  method AddGoalRow(ghost rows: seq<GoalRow>, order: seq<int>, byId: map<int, GoalRecord>, row: GoalRow)
    returns (order': seq<int>, byId': map<int, GoalRecord>)
    requires DictAfter(rows, order, byId)
    ensures DictAfter(rows + [row], order', byId')
  {
    order', byId' := order, byId;
    if row.goalId !in byId {
      byId' := byId'[row.goalId := GoalHeader(row)];
      order' := order' + [row.goalId];
    }
    if HasTimeline(row) {
      var g := byId'[row.goalId];
      byId' := byId'[row.goalId := g.(timelines := g.timelines + [TimelineRecordOf(row)])];
    }
    DictStep(rows, order, byId, row, order', byId');
  }

  /** `get_goals`: folds the joined rows into a dictionary keyed by goal id, creating
      an entry at a goal's first row and appending each row's timeline to it, and
      returns the dictionary's values in insertion order. */
  method GroupGoalRows(rows: seq<GoalRow>) returns (goals: seq<GoalRecord>)
    ensures var ids := Dedup(RowIds(rows));
      |goals| == |ids| && forall k | 0 <= k < |goals| :: goals[k] == GoalOf(rows, ids[k])
  {
    var order: seq<int> := [];
    var byId: map<int, GoalRecord> := map[];
    var i := 0;
    while i < |rows|
      invariant 0 <= i <= |rows|
      invariant DictAfter(rows[..i], order, byId)
    {
      assert rows[..i + 1] == rows[..i] + [rows[i]];
      order, byId := AddGoalRow(rows[..i], order, byId, rows[i]);
      i := i + 1;
    }
    assert rows[..i] == rows;
    assert forall k | 0 <= k < |order| :: order[k] in order;
    goals := seq(|order|, k requires 0 <= k < |order| => byId[order[k]]);
  }

  // ---------------------------------------------------------------------------
  // Dates of birth

  /** A `%m` field: one or two digits naming a month. */
  predicate MonthField(p: string) {
    1 <= |p| <= 2 && AllDigits(p) && 1 <= DigitsValue(p) <= 12
  }

  /** A `%d` field: one or two digits from 1 to 31, or a space and a digit 1-9. */
  function DayField(p: string): (r: Option<nat>)
    ensures r.Some? ==> 1 <= r.value <= 31
  {
    if 1 <= |p| <= 2 && AllDigits(p) && 1 <= DigitsValue(p) <= 31 then Some(DigitsValue(p))
    else if |p| == 2 && p[0] == ' ' && '1' <= p[1] <= '9' then Some(DigitValue(p[1]))
    else None
  }

  /** `datetime.strptime(s, '%Y-%m-%d').date()` as a day ordinal, or None where Python
      raises `ValueError`: the three fields must have the `strptime` shapes, the year
      must be at least 1 and the day must exist in that month. */
  function StrpDate(s: string): (r: Option<int>)
    ensures r.Some? ==> |Split(s, '-')| == 3
  {
    var p := Split(s, '-');
    if |p| != 3 || |p[0]| != 4 || !AllDigits(p[0]) || DigitsValue(p[0]) < 1 || !MonthField(p[1]) then None
    else
      var y := DigitsValue(p[0]);
      var m := DigitsValue(p[1]);
      match DayField(p[2])
      case None => None
      case Some(d) => if d <= DaysInMonth(y, m) then Some(DayOrdinal(y, m, d)) else None
  }

  lemma DigitsHaveNoDash(s: string)
    requires AllDigits(s)
    ensures '-' !in s
  {
    assert forall i | 0 <= i < |s| :: IsDigit(s[i]);
  }

  /** Fields without '-' joined by '-' split back into those fields. */
  lemma SplitDateFields(yyyy: string, mm: string, dd: string)
    requires '-' !in yyyy && '-' !in mm && '-' !in dd
    ensures Split(yyyy + "-" + mm + "-" + dd, '-') == [yyyy, mm, dd]
  {
    var rest := mm + ['-'] + dd;
    var whole := yyyy + ['-'] + rest;
    assert yyyy + "-" + mm + "-" + dd == whole;
    SplitTwo(mm, '-', dd);
    SplitAtFirst(yyyy, '-', rest);
    assert Split(whole, '-') == [yyyy] + Split(rest, '-');
  }

  /** A zero-padded "YYYY-MM-DD" of an existing day parses to that day. */
  lemma {:induction false} StrpDateOfCanonical(yyyy: string, mm: string, dd: string)
    requires |yyyy| == 4 && |mm| == 2 && |dd| == 2 && AllDigits(yyyy) && AllDigits(mm) && AllDigits(dd)
    requires DigitsValue(yyyy) >= 1 && 1 <= DigitsValue(mm) <= 12
    requires 1 <= DigitsValue(dd) <= DaysInMonth(DigitsValue(yyyy), DigitsValue(mm))
    ensures StrpDate(yyyy + "-" + mm + "-" + dd) == Some(DayOrdinal(DigitsValue(yyyy), DigitsValue(mm), DigitsValue(dd)))
  {
    DigitsHaveNoDash(yyyy);
    DigitsHaveNoDash(mm);
    DigitsHaveNoDash(dd);
    SplitDateFields(yyyy, mm, dd);
  }

  /** A day past the end of its month does not parse. */
  lemma {:induction false} StrpDateRejectsMissingDay(yyyy: string, mm: string, dd: string)
    requires |yyyy| == 4 && |mm| == 2 && |dd| == 2 && AllDigits(yyyy) && AllDigits(mm) && AllDigits(dd)
    requires DigitsValue(yyyy) >= 1 && 1 <= DigitsValue(mm) <= 12
    requires DigitsValue(dd) > DaysInMonth(DigitsValue(yyyy), DigitsValue(mm))
    ensures StrpDate(yyyy + "-" + mm + "-" + dd).None?
  {
    DigitsHaveNoDash(yyyy);
    DigitsHaveNoDash(mm);
    DigitsHaveNoDash(dd);
    SplitDateFields(yyyy, mm, dd);
  }

  // ---------------------------------------------------------------------------
  // Registration and login

  datatype RegisterRequest = RegisterRequest(username: Option<string>, email: Option<string>,
    password: Option<string>, dob: Option<string>, googleId: Option<string>, imageUrl: Option<string>)

  /** The user row inserted by a registration. */
  datatype NewUser = NewUser(username: string, email: string, hasPassword: bool, dob: Option<int>,
    googleId: Option<string>, picture: Option<string>)

  datatype RegisterOutcome = RegisterRefused(status: nat, message: string) | Registered(userId: int, user: NewUser)

  /** `register`, given whether the e-mail and the Google id are already on file and the
      id the insert returns. */
  function Register(req: RegisterRequest, emailTaken: bool, googleTaken: bool, newId: int): (r: RegisterOutcome)
    ensures r.Registered? <==>
      Present(req.username) && Present(req.email) && (Present(req.googleId) || Present(req.password))
      && (Present(req.dob) ==> StrpDate(req.dob.value).Some?)
      && !emailTaken && !(Present(req.googleId) && googleTaken)
    ensures r.Registered? ==> r.userId == newId && r.user.username == req.username.value && r.user.email == req.email.value
    ensures r.Registered? ==> (r.user.hasPassword <==> !Present(req.googleId))
    ensures r.Registered? && Present(req.googleId) ==> r.user.googleId == req.googleId && r.user.picture == req.imageUrl
    ensures r.Registered? && !Present(req.googleId) ==> r.user.googleId.None? && r.user.picture.None?
    ensures r.Registered? ==> r.user.dob == if Present(req.dob) then StrpDate(req.dob.value) else None
    ensures r.RegisterRefused? ==> r.status in {400, 409}
  {
    if !Present(req.username) || !Present(req.email) then RegisterRefused(400, "Username and email are required")
    else if !Present(req.googleId) && !Present(req.password) then RegisterRefused(400, "Password is required for non-Google users")
    else if Present(req.dob) && StrpDate(req.dob.value).None? then RegisterRefused(400, "Invalid date format for date of birth")
    else if emailTaken then RegisterRefused(409, "Email already registered")
    else if Present(req.googleId) && googleTaken then RegisterRefused(409, "Google account already registered")
    else
      var dob := if Present(req.dob) then StrpDate(req.dob.value) else None;
      if Present(req.googleId) then
        Registered(newId, NewUser(req.username.value, req.email.value, false, dob, req.googleId, req.imageUrl))
      else
        Registered(newId, NewUser(req.username.value, req.email.value, true, dob, None, None))
  }

  datatype LoginRequest = LoginRequest(email: Option<string>, password: Option<string>,
    googleId: Option<string>, imageUrl: Option<string>, rememberMe: bool)

  /** The user row the login query returns. */
  datatype Account = Account(userId: int, username: Option<string>, email: string,
    passwordHash: Option<string>, picture: Option<string>)

  datatype LoginOutcome =
    | LoginRefused(status: nat, message: string)
    | LoggedIn(userId: int, username: Option<string>, email: string, picture: Option<string>,
        isGoogleUser: bool, sessionDays: nat)

  /** `login`, given the row found (by Google id when one is given, otherwise by e-mail)
      and the result of checking the password against the stored hash. A Google login
      fills in the picture only when none is stored. */
  function Login(req: LoginRequest, account: Option<Account>, passwordMatches: bool): (r: LoginOutcome)
    ensures !Present(req.email) ==> r == LoginRefused(400, "Email is required")
    ensures Present(req.email) && Present(req.googleId) && Present(req.password) ==>
      r == LoginRefused(400, "Cannot provide both Google ID and password")
    ensures Present(req.email) && !Present(req.googleId) && !Present(req.password) ==>
      r == LoginRefused(400, "Either Google authentication or password is required")
    ensures r.LoggedIn? <==>
      Present(req.email) && (Present(req.googleId) != Present(req.password)) && account.Some?
      && (Present(req.googleId) || (Present(account.value.passwordHash) && passwordMatches))
    ensures r.LoggedIn? ==> r.userId == account.value.userId && r.sessionDays == (if req.rememberMe then 30 else 1)
    ensures r.LoggedIn? && account.value.picture.Some? ==> r.picture == account.value.picture
    ensures r.LoggedIn? ==> (r.isGoogleUser <==> req.googleId.Some?)
  {
    if !Present(req.email) then LoginRefused(400, "Email is required")
    else if Present(req.googleId) && Present(req.password) then LoginRefused(400, "Cannot provide both Google ID and password")
    else if !Present(req.googleId) && !Present(req.password) then LoginRefused(400, "Either Google authentication or password is required")
    else if account.None? then LoginRefused(401, "Account is not registered")
    else
      var a := account.value;
      var authenticated := Present(req.googleId) || (Present(a.passwordHash) && passwordMatches);
      if !authenticated then LoginRefused(401, "Invalid credentials")
      else
        var picture :=
          if Present(req.googleId) && Present(req.imageUrl) && a.picture.None? then req.imageUrl else a.picture;
        LoggedIn(a.userId, a.username, a.email, picture, req.googleId.Some?, if req.rememberMe then 30 else 1)
  }

  /** The Google flag of the reply tests whether the key was sent, not whether it is
      empty: a password login that also sends an empty Google id is reported as a
      Google user. */
  lemma LoginGoogleFlagOfEmptyId(hash: string)
    requires hash != []
    ensures Login(LoginRequest(Some("a@b"), Some("pw"), Some(""), None, false),
                  Some(Account(1, None, "a@b", Some(hash), None)), true).isGoogleUser
  {
  }

  // ---------------------------------------------------------------------------
  // Profile updates

  datatype PictureChange = ClearPicture | SetPicture(url: string) | KeepPicture

  /** The picture field of `update_user`: absent clears the picture, a non-empty text
      replaces it, an empty text leaves it as stored. */
  function PictureChangeOf(p: Option<string>): (c: PictureChange)
    ensures c == ClearPicture <==> p.None?
    ensures c.SetPicture? <==> Present(p)
    ensures c.SetPicture? ==> c.url == p.value
    ensures c == KeepPicture <==> p == Some("")
  {
    if p.None? then ClearPicture else if p.value != [] then SetPicture(p.value) else KeepPicture
  }

  datatype Profile = Profile(username: string, bio: Option<string>, dob: Option<int>, picture: Option<string>)

  datatype ProfileRequest = ProfileRequest(username: Option<string>, bio: Option<string>,
    dob: Option<string>, picture: Option<string>)

  /** `update_user` on the stored profile (None when no user has that id). The name,
      the biography and the date of birth are always replaced (an unparseable date by
      NULL); the picture follows the three-way rule. */
  function UpdateUser(stored: Option<Profile>, req: ProfileRequest): (r: Result<Profile, (nat, string)>)
    ensures !Present(req.username) ==> r == Err((400, "Username is required"))
    ensures Present(req.username) && stored.None? ==> r == Err((404, "User not found"))
    ensures r.Ok? <==> Present(req.username) && stored.Some?
    ensures r.Ok? ==> r.value.username == req.username.value && r.value.bio == req.bio
    ensures r.Ok? ==> r.value.dob == if Present(req.dob) then StrpDate(req.dob.value) else None
    ensures r.Ok? && req.picture.None? ==> r.value.picture.None?
    ensures r.Ok? && Present(req.picture) ==> r.value.picture == req.picture
    ensures r.Ok? && req.picture == Some("") ==> r.value.picture == stored.value.picture
  {
    if !Present(req.username) then Err((400, "Username is required"))
    else if stored.None? then Err((404, "User not found"))
    else
      var dob := if Present(req.dob) then StrpDate(req.dob.value) else None;
      var picture := match PictureChangeOf(req.picture)
        case ClearPicture => None
        case SetPicture(url) => Some(url)
        case KeepPicture => stored.value.picture;
      Ok(Profile(req.username.value, req.bio, dob, picture))
  }

  datatype PasswordAccount = PasswordAccount(passwordHash: Option<string>, googleId: Option<string>)

  /** `change_password`, given the stored row and the result of checking the current
      password against its hash. */
  function ChangePassword(currentPassword: Option<string>, newPassword: Option<string>, account: Option<PasswordAccount>,
                          currentMatches: bool): (r: Result<string, (nat, string)>)
    ensures r.Ok? <==>
      Present(currentPassword) && Present(newPassword) && |newPassword.value| >= 6 && account.Some?
      && !Present(account.value.googleId) && Present(account.value.passwordHash) && currentMatches
    ensures r.Ok? ==> r.value == newPassword.value
    ensures Present(currentPassword) && Present(newPassword) && |newPassword.value| < 6 ==>
      r == Err((400, "Password must be at least 6 characters long"))
    ensures Present(currentPassword) && Present(newPassword) && |newPassword.value| >= 6 && account.Some? && Present(account.value.googleId) ==>
      r == Err((400, "Cannot change password for Google users"))
  {
    if !Present(currentPassword) || !Present(newPassword) then Err((400, "Current password and new password are required"))
    else if |newPassword.value| < 6 then Err((400, "Password must be at least 6 characters long"))
    else if account.None? then Err((404, "User not found"))
    else if Present(account.value.googleId) then Err((400, "Cannot change password for Google users"))
    else if !Present(account.value.passwordHash) || !currentMatches then Err((401, "Current password is incorrect"))
    else Ok(newPassword.value)
  }

  // ---------------------------------------------------------------------------
  // Meeting invitations

  datatype Invitation = Invitation(meetingId: int, userId: int, kind: string, status: string)

  datatype Notice = Notice(id: int, userId: int, kind: string, relatedId: Option<int>, isRead: bool)

  /** The status a new invitation is stored with, at each of the three places that
      create invitations: mandatory meetings are accepted on the invitee's behalf. */
  function InitialStatus(kind: string): (status: string)
    ensures status == "accepted" <==> kind == "mandatory"
    ensures status == "pending" <==> kind != "mandatory"
  {
    if kind == "mandatory" then "accepted" else "pending"
  }

  function NewInvitation(meetingId: int, userId: int, kind: string): (inv: Invitation)
    ensures inv.meetingId == meetingId && inv.userId == userId && inv.kind == kind
    ensures inv.status == "pending" <==> kind != "mandatory"
  {
    Invitation(meetingId, userId, kind, InitialStatus(kind))
  }

  predicate InvitationOf(inv: Invitation, meetingId: int, userId: int) {
    inv.meetingId == meetingId && inv.userId == userId
  }

  predicate NoticeOf(n: Notice, meetingId: int, userId: int) {
    n.relatedId == Some(meetingId) && n.kind == "meeting_invitation" && n.userId == userId
  }

  /** `respond_to_invitation`: the response must be "accepted" or "declined" and a user
      id must be given; when the user has an invitation to the meeting, its status
      becomes the response and the user's notifications about it are marked read. */
  function RespondToInvitation(invitations: seq<Invitation>, notices: seq<Notice>, meetingId: int,
                               response: Option<string>, userId: Option<int>)
    : (r: Result<(seq<Invitation>, seq<Notice>), (nat, string)>)
    ensures response != Some("accepted") && response != Some("declined") ==>
      r == Err((400, "Invalid response. Must be \"accepted\" or \"declined\""))
    ensures r.Ok? <==> (
      (response == Some("accepted") || response == Some("declined"))
      && userId.Some? && userId.value != 0
      && exists i | 0 <= i < |invitations| :: InvitationOf(invitations[i], meetingId, userId.value))
    ensures r.Ok? ==> var (invs, ns) := r.value;
      |invs| == |invitations| && |ns| == |notices|
      && (forall i | 0 <= i < |invs| ::
            invs[i] == if InvitationOf(invitations[i], meetingId, userId.value)
                       then invitations[i].(status := response.value) else invitations[i])
      && (forall i | 0 <= i < |ns| ::
            ns[i] == if NoticeOf(notices[i], meetingId, userId.value)
                     then notices[i].(isRead := true) else notices[i])
  {
    if response != Some("accepted") && response != Some("declined") then
      Err((400, "Invalid response. Must be \"accepted\" or \"declined\""))
    else if userId.None? || userId.value == 0 then Err((400, "User ID is required"))
    else if forall i | 0 <= i < |invitations| :: !InvitationOf(invitations[i], meetingId, userId.value) then
      Err((404, "Invitation not found"))
    else
      var u := userId.value;
      Ok((seq(|invitations|, i requires 0 <= i < |invitations| =>
            if InvitationOf(invitations[i], meetingId, u) then invitations[i].(status := response.value) else invitations[i]),
          seq(|notices|, i requires 0 <= i < |notices| =>
            if NoticeOf(notices[i], meetingId, u) then notices[i].(isRead := true) else notices[i])))
  }

  // ---------------------------------------------------------------------------
  // Deleting a timeline

  datatype TimelineRow = TimelineRow(id: int, goalId: int)

  function TimelineCount(ts: seq<TimelineRow>, goalId: int): nat {
    CountWhere(ts, (t: TimelineRow) => t.goalId == goalId)
  }

  /** Timeline ids are the table's primary key. */
  predicate UniqueTimelineIds(ts: seq<TimelineRow>) {
    forall i, j | 0 <= i < j < |ts| :: ts[i].id != ts[j].id
  }

  function Without(ts: seq<TimelineRow>, id: int): (r: seq<TimelineRow>)
    ensures |r| <= |ts|
  {
    Filter(ts, (t: TimelineRow) => t.id != id)
  }

  /** The row the id subquery finds. */
  function FindTimeline(ts: seq<TimelineRow>, id: int): (k: Option<nat>)
    ensures k.None? <==> forall i | 0 <= i < |ts| :: ts[i].id != id
    ensures k.Some? ==> k.value < |ts| && ts[k.value].id == id
  {
    if ts == [] then None
    else
      var init := ts[..|ts| - 1];
      match FindTimeline(init, id)
      case Some(k) => Some(k)
      case None =>
        assert forall i | 0 <= i < |init| :: ts[i] == init[i];
        if ts[|ts| - 1].id == id then Some(|ts| - 1) else None
  }

  /** `delete_timeline`: not found when no timeline has the id, refused when the
      timeline's goal has at most one timeline, otherwise the row is removed. */
  function DeleteTimeline(ts: seq<TimelineRow>, id: int): (r: Result<seq<TimelineRow>, (nat, string)>)
    ensures (forall i | 0 <= i < |ts| :: ts[i].id != id) ==> r == Err((404, "Timeline not found"))
    ensures r.Ok? ==> exists i | 0 <= i < |ts| :: ts[i].id == id && TimelineCount(ts, ts[i].goalId) > 1
    ensures r.Ok? ==> r.value == Without(ts, id)
  {
    match FindTimeline(ts, id)
    case None => Err((404, "Timeline not found"))
    case Some(k) =>
      if TimelineCount(ts, ts[k].goalId) <= 1 then
        Err((400, "Cannot delete the last timeline. A goal must have at least one timeline."))
      else Ok(Without(ts, id))
  }

  /** With unique ids, a deletion goes through exactly when the row exists and its goal
      has another timeline. */
  lemma DeleteTimelineOkIff(ts: seq<TimelineRow>, id: int)
    requires UniqueTimelineIds(ts)
    ensures DeleteTimeline(ts, id).Ok? <==>
      exists i | 0 <= i < |ts| :: ts[i].id == id && TimelineCount(ts, ts[i].goalId) > 1
  {
    var found := FindTimeline(ts, id);
    if found.Some? && exists i | 0 <= i < |ts| :: ts[i].id == id && TimelineCount(ts, ts[i].goalId) > 1 {
      var i :| 0 <= i < |ts| && ts[i].id == id && TimelineCount(ts, ts[i].goalId) > 1;
      var k := found.value;
      assert !(i < k) && !(k < i);
      assert ts[k].goalId == ts[i].goalId;
    }
  }

  /** Rows with that id and that goal. */
  function MatchCount(ts: seq<TimelineRow>, id: int, goalId: int): nat {
    CountWhere(ts, (t: TimelineRow) => t.id == id && t.goalId == goalId)
  }

  /** Removing the rows with an id takes exactly those rows off each goal's count. */
  lemma {:induction false} CountWithoutAll(ts: seq<TimelineRow>, id: int, goalId: int)
    ensures TimelineCount(Without(ts, id), goalId) + MatchCount(ts, id, goalId) == TimelineCount(ts, goalId)
  {
    if ts != [] {
      var init := ts[..|ts| - 1];
      var last := ts[|ts| - 1];
      CountWithoutAll(init, id, goalId);
      var w := Without(ts, id);
      if last.id != id {
        assert w == Without(init, id) + [last];
        assert w[..|w| - 1] == Without(init, id);
      } else {
        assert w == Without(init, id);
      }
    }
  }

  /** With unique ids at most one row matches, and one does exactly when it exists. */
  lemma {:induction false} MatchCountUnique(ts: seq<TimelineRow>, id: int, goalId: int)
    requires UniqueTimelineIds(ts)
    ensures MatchCount(ts, id, goalId) ==
      (if exists i | 0 <= i < |ts| :: ts[i].id == id && ts[i].goalId == goalId then 1 else 0)
  {
    if ts != [] {
      var init := ts[..|ts| - 1];
      var last := ts[|ts| - 1];
      assert UniqueTimelineIds(init) by {
        forall i, j | 0 <= i < j < |init| ensures init[i].id != init[j].id {
          assert init[i] == ts[i] && init[j] == ts[j];
        }
      }
      MatchCountUnique(init, id, goalId);
      if last.id == id && last.goalId == goalId {
        forall i | 0 <= i < |init| ensures !(init[i].id == id && init[i].goalId == goalId) {
          assert init[i] == ts[i];
        }
        assert ts[|ts| - 1].id == id && ts[|ts| - 1].goalId == goalId;
      } else {
        if exists i | 0 <= i < |ts| :: ts[i].id == id && ts[i].goalId == goalId {
          var i :| 0 <= i < |ts| && ts[i].id == id && ts[i].goalId == goalId;
          assert i < |init| && init[i] == ts[i];
        }
        if exists i | 0 <= i < |init| :: init[i].id == id && init[i].goalId == goalId {
          var i :| 0 <= i < |init| && init[i].id == id && init[i].goalId == goalId;
          assert ts[i] == init[i];
        }
      }
    }
  }

  /** Removing one row lowers the count of its goal by one and leaves the others. */
  lemma CountWithout(ts: seq<TimelineRow>, id: int, goalId: int)
    requires UniqueTimelineIds(ts)
    ensures TimelineCount(Without(ts, id), goalId) ==
      TimelineCount(ts, goalId) - (if exists i | 0 <= i < |ts| :: ts[i].id == id && ts[i].goalId == goalId then 1 else 0)
  {
    CountWithoutAll(ts, id, goalId);
    MatchCountUnique(ts, id, goalId);
  }

  /** Deleting an id no row has leaves the rows as they are. */
  lemma {:induction false} WithoutAbsent(ts: seq<TimelineRow>, id: int)
    requires forall i | 0 <= i < |ts| :: ts[i].id != id
    ensures Without(ts, id) == ts
  {
    if ts != [] {
      var init := ts[..|ts| - 1];
      assert forall i | 0 <= i < |init| :: init[i] == ts[i];
      WithoutAbsent(init, id);
      assert ts == init + [ts[|ts| - 1]];
    }
  }

  /** With unique ids, deleting an id some row has removes exactly one row. */
  lemma {:induction false} WithoutPresentLength(ts: seq<TimelineRow>, id: int)
    requires UniqueTimelineIds(ts)
    requires exists i | 0 <= i < |ts| :: ts[i].id == id
    ensures |Without(ts, id)| == |ts| - 1
  {
    var init := ts[..|ts| - 1];
    var last := ts[|ts| - 1];
    assert forall i | 0 <= i < |init| :: init[i] == ts[i];
    if last.id == id {
      assert forall i | 0 <= i < |init| :: init[i].id != id by {
        forall i | 0 <= i < |init| ensures init[i].id != id {
          assert ts[i].id != ts[|ts| - 1].id;
        }
      }
      WithoutAbsent(init, id);
    } else {
      var i :| 0 <= i < |ts| && ts[i].id == id;
      assert i < |init| && init[i].id == id;
      assert UniqueTimelineIds(init);
      WithoutPresentLength(init, id);
    }
  }

  /** A goal never loses its last timeline: every goal that has a timeline before a
      deletion still has one after it, and exactly one row goes. */
  lemma KeepsLastTimeline(ts: seq<TimelineRow>, id: int, goalId: int)
    requires UniqueTimelineIds(ts)
    requires DeleteTimeline(ts, id).Ok?
    ensures TimelineCount(ts, goalId) >= 1 ==> TimelineCount(DeleteTimeline(ts, id).value, goalId) >= 1
    ensures |DeleteTimeline(ts, id).value| == |ts| - 1
  {
    CountWithout(ts, id, goalId);
    WithoutPresentLength(ts, id);
    var i :| 0 <= i < |ts| && ts[i].id == id && TimelineCount(ts, ts[i].goalId) > 1;
    if exists j | 0 <= j < |ts| :: ts[j].id == id && ts[j].goalId == goalId {
      var j :| 0 <= j < |ts| && ts[j].id == id && ts[j].goalId == goalId;
      assert i == j;
    }
  }

  // ---------------------------------------------------------------------------
  // Notifications

  datatype NotificationRow = NotificationRow(id: int, kind: string, title: Option<string>,
    message: Option<string>, relatedId: Option<int>, isRead: bool, createdAt: Option<int>,
    invitationStatus: Option<string>, invitationType: Option<string>)

  function UnreadOf(rows: seq<NotificationRow>): nat {
    CountWhere(rows, (n: NotificationRow) => !n.isRead)
  }

  /** The unread count is zero exactly when every notification is read, and equals the
      number of notifications exactly when none is. */
  lemma {:induction false} UnreadOfBounds(rows: seq<NotificationRow>)
    ensures UnreadOf(rows) <= |rows|
    ensures UnreadOf(rows) == 0 <==> forall i | 0 <= i < |rows| :: rows[i].isRead
    ensures UnreadOf(rows) == |rows| <==> forall i | 0 <= i < |rows| :: !rows[i].isRead
  {
    if rows != [] {
      var init := rows[..|rows| - 1];
      UnreadOfBounds(init);
      assert forall i | 0 <= i < |init| :: init[i] == rows[i];
    }
  }

  /** `get_notifications`: lists the rows as they come and counts those not yet read. */
  method ListNotifications(rows: seq<NotificationRow>) returns (notifications: seq<NotificationRow>, unread: nat)
    ensures notifications == rows
    ensures unread == UnreadOf(rows)
  {
    notifications := [];
    unread := 0;
    var i := 0;
    while i < |rows|
      invariant 0 <= i <= |rows|
      invariant notifications == rows[..i]
      invariant unread == UnreadOf(rows[..i])
    {
      assert rows[..i + 1][..i] == rows[..i];
      notifications := notifications + [rows[i]];
      if !rows[i].isRead {
        unread := unread + 1;
      }
      i := i + 1;
    }
    assert rows[..i] == rows;
  }
}
