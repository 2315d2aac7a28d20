/** `GET /api/reports/export` of src/app/api/reports/export/route.ts: the
    sessions of the last `days` days with their attendance counts, as CSV. Every
    field is quoted and every `"` inside it doubled (section 2, rules 5 to 7 of
    RFC 4180); records are separated by a bare line feed rather than the CRLF of
    rule 1, and there is no line break after the last record. The module also
    holds a reader for exactly this dialect, and proves that reading the export
    gives back the header and the rows field by field. */
module CsvExport {
  import opened Js
  import opened Schema
  import opened Sql
  import opened Auth
  import opened Access
  import TrainingSessions

  const Forbidden: string := "Forbidden."
  const DayMs: int := 24 * 60 * 60 * 1000

  // ---------------------------------------------------------------------------
  // Writing

  /** `.replace(/"/g, '""')`. */
  function DoubleQuotes(s: string): (r: string)
    ensures |r| >= |s|
    ensures forall c :: c in s <==> c in r
  {
    if s == [] then []
    else (if s[0] == '"' then "\"\"" else [s[0]]) + DoubleQuotes(s[1..])
  }

  /** `csvEscape`: `String(value ?? "")` with its quotes doubled, between quotes. */
  function CsvEscape(value: Option<string>): (r: string)
    ensures |r| >= 2 && r[0] == '"' && r[|r| - 1] == '"'
    ensures value.None? ==> r == "\"\""
    ensures r[1..|r| - 1] == DoubleQuotes(if value.Some? then value.value else "")
  {
    var s := if value.Some? then value.value else "";
    var r := "\"" + DoubleQuotes(s) + "\"";
    assert r[1..|r| - 1] == DoubleQuotes(s);
    r
  }

  function Escaped(s: string): string { CsvEscape(Some(s)) }

  /** `parts.join(sep)`. */
  function Join(parts: seq<string>, sep: string): string {
    if parts == [] then "" else if |parts| == 1 then parts[0] else parts[0] + sep + Join(parts[1..], sep)
  }

  /** `fields.map(csvEscape).join(",")`. */
  function Record(fields: seq<string>): string {
    Join(seq(|fields|, i requires 0 <= i < |fields| => Escaped(fields[i])), ",")
  }

  /** `[header, ...lines].join("\n")`. */
  function Document(records: seq<seq<string>>): string {
    Join(seq(|records|, i requires 0 <= i < |records| => Record(records[i])), "\n")
  }

  // ---------------------------------------------------------------------------
  // Reading

  /** The contents of a quoted field up to its closing quote (the opening one
      already consumed), with each `""` read as one `"`; and what follows the
      closing quote. None when the closing quote is missing. */
  function ScanQuoted(s: string): (r: Option<(string, string)>)
    ensures r.Some? ==> |r.value.1| < |s|
  {
    if s == [] then None
    else if s[0] == '"' then
      if |s| >= 2 && s[1] == '"' then
        match ScanQuoted(s[2..])
        case None => None
        case Some((text, rest)) => Some(("\"" + text, rest))
      else Some(("", s[1..]))
    else
      match ScanQuoted(s[1..])
      case None => None
      case Some((text, rest)) => Some(([s[0]] + text, rest))
  }

  /** The quoted fields of one record, separated by commas; and what follows the
      record. */
  function ParseFields(s: string): (r: Option<(seq<string>, string)>)
    ensures r.Some? ==> |r.value.1| < |s|
    decreases |s|
  {
    if s == [] || s[0] != '"' then None
    else
      match ScanQuoted(s[1..])
      case None => None
      case Some((field, rest)) =>
        if rest != [] && rest[0] == ',' then
          match ParseFields(rest[1..])
          case None => None
          case Some((fields, rest')) => Some(([field] + fields, rest'))
        else Some(([field], rest))
  }

  /** The records of a document, separated by line feeds. */
  function ParseDocument(s: string): (r: Option<seq<seq<string>>>)
    decreases |s|
  {
    match ParseFields(s)
    case None => None
    case Some((fields, rest)) =>
      if rest == [] then Some([fields])
      else if rest[0] == '\n' then
        match ParseDocument(rest[1..])
        case None => None
        case Some(records) => Some([fields] + records)
      else None
  }

  // ---------------------------------------------------------------------------
  // Round trip

  /** Removing the outer quotes and halving the doubled ones recovers the field. */
  lemma {:induction false} ScanDoubled(x: string, rest: string)
    requires rest == [] || rest[0] != '"'
    ensures ScanQuoted(DoubleQuotes(x) + "\"" + rest) == Some((x, rest))
  {
    var s := DoubleQuotes(x) + "\"" + rest;
    if x == [] {
      assert s == "\"" + rest;
      assert s[1..] == rest;
    } else if x[0] == '"' {
      ScanDoubled(x[1..], rest);
      assert s == "\"\"" + (DoubleQuotes(x[1..]) + "\"" + rest);
      assert s[2..] == DoubleQuotes(x[1..]) + "\"" + rest;
      assert "\"" + x[1..] == x;
    } else {
      ScanDoubled(x[1..], rest);
      assert s == [x[0]] + (DoubleQuotes(x[1..]) + "\"" + rest);
      assert s[1..] == DoubleQuotes(x[1..]) + "\"" + rest;
      assert [x[0]] + x[1..] == x;
    }
  }

  /** `csvEscape` round-trips through the reader of a single field. */
  lemma EscapeRoundTrip(x: string)
    ensures ParseFields(Escaped(x)) == Some(([x], ""))
  {
    ScanDoubled(x, "");
    assert Escaped(x) == "\"" + (DoubleQuotes(x) + "\"" + "");
    assert Escaped(x)[1..] == DoubleQuotes(x) + "\"" + "";
  }

  lemma JoinTail(parts: seq<string>, sep: string)
    requires |parts| >= 2
    ensures Join(parts, sep) == parts[0] + sep + Join(parts[1..], sep)
  {
  }

  /** The last field of a record. */
  lemma FieldLast(x: string, tail: string)
    requires tail == [] || tail[0] == '\n'
    ensures ParseFields(Escaped(x) + tail) == Some(([x], tail))
  {
    var s := Escaped(x) + tail;
    assert s == "\"" + (DoubleQuotes(x) + "\"" + tail);
    assert s[1..] == DoubleQuotes(x) + "\"" + tail;
    ScanDoubled(x, tail);
  }

  /** A field followed by a comma and further fields. */
  lemma FieldThenMore(x: string, more: string)
    ensures ParseFields(Escaped(x) + "," + more)
            == match ParseFields(more)
               case None => None
               case Some((fields, rest)) => Some(([x] + fields, rest))
  {
    var s := Escaped(x) + "," + more;
    assert s == "\"" + (DoubleQuotes(x) + "\"" + ("," + more));
    assert s[1..] == DoubleQuotes(x) + "\"" + ("," + more);
    ScanDoubled(x, "," + more);
    assert ("," + more)[1..] == more;
  }

  lemma RecordCons(fields: seq<string>)
    requires |fields| >= 2
    ensures Record(fields) == Escaped(fields[0]) + "," + Record(fields[1..])
  {
    var parts := seq(|fields|, i requires 0 <= i < |fields| => Escaped(fields[i]));
    assert parts[1..] == seq(|fields[1..]|, i requires 0 <= i < |fields[1..]| => Escaped(fields[1..][i]));
    JoinTail(parts, ",");
  }

  /** Reading a record that is followed by nothing or by a line feed gives back its
      fields. */
  lemma {:induction false} RecordRoundTrip(fields: seq<string>, tail: string)
    requires fields != []
    requires tail == [] || tail[0] == '\n'
    ensures ParseFields(Record(fields) + tail) == Some((fields, tail))
    decreases |fields|
  {
    if |fields| == 1 {
      assert Record(fields) == Escaped(fields[0]);
      FieldLast(fields[0], tail);
      assert [fields[0]] == fields;
    } else {
      RecordCons(fields);
      var more := Record(fields[1..]) + tail;
      assert Record(fields) + tail == Escaped(fields[0]) + "," + more;
      FieldThenMore(fields[0], more);
      RecordRoundTrip(fields[1..], tail);
      assert [fields[0]] + fields[1..] == fields;
    }
  }

  lemma DocumentCons(records: seq<seq<string>>)
    requires |records| >= 2
    ensures Document(records) == Record(records[0]) + "\n" + Document(records[1..])
  {
    var lines := seq(|records|, i requires 0 <= i < |records| => Record(records[i]));
    assert lines[1..] == seq(|records[1..]|, i requires 0 <= i < |records[1..]| => Record(records[1..][i]));
    JoinTail(lines, "\n");
  }

  /** A record followed by a line feed and further lines. */
  lemma RecordThenLines(fields: seq<string>, more: string)
    requires fields != []
    ensures ParseDocument(Record(fields) + "\n" + more)
            == match ParseDocument(more)
               case None => None
               case Some(records) => Some([fields] + records)
  {
    RecordRoundTrip(fields, "\n" + more);
    assert Record(fields) + "\n" + more == Record(fields) + ("\n" + more);
    assert ("\n" + more)[1..] == more;
  }

  /** Reading a document gives back its records, provided each has a field. */
  lemma {:induction false} DocumentRoundTrip(records: seq<seq<string>>)
    requires records != []
    requires forall i :: 0 <= i < |records| ==> records[i] != []
    ensures ParseDocument(Document(records)) == Some(records)
    decreases |records|
  {
    if |records| == 1 {
      assert Document(records) == Record(records[0]) + "";
      RecordRoundTrip(records[0], "");
      assert [records[0]] == records;
    } else {
      DocumentCons(records);
      RecordThenLines(records[0], Document(records[1..]));
      DocumentRoundTrip(records[1..]);
      assert [records[0]] + records[1..] == records;
    }
  }

  // ---------------------------------------------------------------------------
  // The report

  /** One row of the report query. */
  datatype ReportRow = ReportRow(id: string, title: string, startsAt: int, clubName: string,
                                 sportName: string, coachName: Option<string>, attendanceCount: Option<int>)

  const Header: seq<string> := ["Session ID", "Title", "Sport", "Club", "Coach", "Starts At", "Attendance Count"]

  /** `days`: 30 by default and when not finite, otherwise clamped into [7, 365]. */
  function ReportDays(days: Option<JsNumber>): (n: int)
    ensures 7 <= n <= 365
    ensures days.None? || !days.value.Finite? ==> n == 30
    ensures days.Some? && days.value.Finite? ==> n == Min(Max(days.value.value, 7), 365)
  {
    ClampParam(days, 30, 7, 365)
  }

  /** The sessions the query reports: started since `since`, with a club and a
      sport (inner joins), and, for an admin, in a club the caller administers. */
  function Reported(access: AccessContext, clubs: seq<Club>, sports: seq<Sport>, ms: seq<Membership>,
                    since: int): TrainingSession -> bool {
    (s: TrainingSession) =>
      && s.startsAt >= since
      && TrainingSessions.FindClub(clubs, s.clubId).Some?
      && TrainingSessions.FindSport(sports, s.sportId).Some?
      && (access.role == Superadmin || HoldsRoleIn(ms, access.userId, s.clubId, {Admin}))
  }

  /** `since.setDate(since.getDate() - days)`, counted in whole days. */
  function WindowStart(now: int, days: int): int { now - days * DayMs }

  function StartsAt(s: TrainingSession): int { s.startsAt }

  function ForSession(id: string): Attendance -> bool {
    (a: Attendance) => a.sessionId == id
  }

  /** The row `r` reports the session `s`: its id, title and start, the names of
      its club and sport found by the inner joins, its coach's name found by the
      left join (none without a profile), and its attendance count. */
  predicate Reports(r: ReportRow, s: TrainingSession, clubs: seq<Club>, sports: seq<Sport>, profiles: seq<Profile>,
                    attendance: seq<Attendance>) {
    && r.id == s.id && r.title == s.title && r.startsAt == s.startsAt
    && TrainingSessions.FindClub(clubs, s.clubId).Some?
    && r.clubName == TrainingSessions.FindClub(clubs, s.clubId).value.name
    && TrainingSessions.FindSport(sports, s.sportId).Some?
    && r.sportName == TrainingSessions.FindSport(sports, s.sportId).value.name
    && r.coachName == (if FindProfile(profiles, s.coachId).Some? then FindProfile(profiles, s.coachId).value.fullName else None)
    && r.attendanceCount == Some(Count(attendance, ForSession(s.id)))
  }

  /** The columns of one reported session; `left join profiles` gives no coach name
      when the coach has no profile. */
  function ToReportRow(s: TrainingSession, clubs: seq<Club>, sports: seq<Sport>, profiles: seq<Profile>,
                       attendance: seq<Attendance>): (r: ReportRow)
    requires TrainingSessions.FindClub(clubs, s.clubId).Some? && TrainingSessions.FindSport(sports, s.sportId).Some?
    ensures Reports(r, s, clubs, sports, profiles, attendance)
  {
    var coach := FindProfile(profiles, s.coachId);
    ReportRow(s.id, s.title, s.startsAt, TrainingSessions.FindClub(clubs, s.clubId).value.name,
              TrainingSessions.FindSport(sports, s.sportId).value.name, if coach.Some? then coach.value.fullName else None,
              Some(Count(attendance, ForSession(s.id))))
  }

  /** The report query: the reported sessions, latest start first, each with its
      attendance count. */
  function ReportRows(access: AccessContext, sessions: seq<TrainingSession>, clubs: seq<Club>,
                      sports: seq<Sport>, profiles: seq<Profile>, ms: seq<Membership>,
                      attendance: seq<Attendance>, since: int): (rows: seq<ReportRow>)
    ensures var picked := Select(sessions, Reported(access, clubs, sports, ms, since), StartsAt);
            && |rows| == |picked|
            && forall i :: 0 <= i < |rows| ==> Reports(rows[i], picked[i], clubs, sports, profiles, attendance)
  {
    var picked := Select(sessions, Reported(access, clubs, sports, ms, since), StartsAt);
    assert forall i :: 0 <= i < |picked| ==> picked[i] in picked;
    seq(|picked|, i requires 0 <= i < |picked| => ToReportRow(picked[i], clubs, sports, profiles, attendance))
  }

  lemma ReportSorted(access: AccessContext, sessions: seq<TrainingSession>, clubs: seq<Club>,
                    sports: seq<Sport>, profiles: seq<Profile>, ms: seq<Membership>,
                    attendance: seq<Attendance>, since: int)
    ensures var rows := ReportRows(access, sessions, clubs, sports, profiles, ms, attendance, since);
            && |rows| == Count(sessions, Reported(access, clubs, sports, ms, since))
            && forall i, j :: 0 <= i < j < |rows| ==> rows[i].startsAt >= rows[j].startsAt
  {
    var p := Reported(access, clubs, sports, ms, since);
    var picked := Select(sessions, p, StartsAt);
    var rows := ReportRows(access, sessions, clubs, sports, profiles, ms, attendance, since);
    forall i, j | 0 <= i < j < |rows|
      ensures rows[i].startsAt >= rows[j].startsAt
    {
      assert StartsAt(picked[i]) >= StartsAt(picked[j]);
    }
  }

  lemma ReportInScope(access: AccessContext, sessions: seq<TrainingSession>, clubs: seq<Club>,
                    sports: seq<Sport>, profiles: seq<Profile>, ms: seq<Membership>,
                    attendance: seq<Attendance>, since: int)
    ensures forall r :: r in ReportRows(access, sessions, clubs, sports, profiles, ms, attendance, since) ==>
              exists s :: s in sessions && Reported(access, clubs, sports, ms, since)(s)
                          && Reports(r, s, clubs, sports, profiles, attendance)
  {
    var p := Reported(access, clubs, sports, ms, since);
    var picked := Select(sessions, p, StartsAt);
    var rows := ReportRows(access, sessions, clubs, sports, profiles, ms, attendance, since);
    forall r | r in rows
      ensures exists s :: s in sessions && p(s) && Reports(r, s, clubs, sports, profiles, attendance)
    {
      var i :| 0 <= i < |rows| && rows[i] == r;
      assert picked[i] in picked;
    }
  }

  lemma ReportComplete(access: AccessContext, sessions: seq<TrainingSession>, clubs: seq<Club>,
                    sports: seq<Sport>, profiles: seq<Profile>, ms: seq<Membership>,
                    attendance: seq<Attendance>, since: int)
    ensures forall s :: s in sessions && Reported(access, clubs, sports, ms, since)(s) ==>
              exists r :: r in ReportRows(access, sessions, clubs, sports, profiles, ms, attendance, since)
                          && Reports(r, s, clubs, sports, profiles, attendance)
  {
    var p := Reported(access, clubs, sports, ms, since);
    var picked := Select(sessions, p, StartsAt);
    var rows := ReportRows(access, sessions, clubs, sports, profiles, ms, attendance, since);
    forall s | s in sessions && p(s)
      ensures exists r :: r in rows && Reports(r, s, clubs, sports, profiles, attendance)
    {
      assert s in picked;
      var i :| 0 <= i < |picked| && picked[i] == s;
      assert rows[i] in rows;
    }
  }

  /** The seven fields of one line: a falsy coach name reads "Unassigned" and a
      null count 0. `render` is `String()` of the start time. */
  function Fields(row: ReportRow, render: int -> string): (fields: seq<string>)
    ensures |fields| == |Header|
    ensures fields[4] == if Truthy(row.coachName) then row.coachName.value else "Unassigned"
    ensures fields[6] == IntToString(if row.attendanceCount.Some? then row.attendanceCount.value else 0)
  {
    [row.id, row.title, row.sportName, row.clubName,
     if Truthy(row.coachName) then row.coachName.value else "Unassigned",
     render(row.startsAt),
     IntToString(if row.attendanceCount.Some? then row.attendanceCount.value else 0)]
  }

  /** The records of the export: the header, then one record per row. */
  function Records(rows: seq<ReportRow>, render: int -> string): (records: seq<seq<string>>)
    ensures |records| == |rows| + 1 && records[0] == Header
    ensures forall i :: 0 <= i < |rows| ==> records[i + 1] == Fields(rows[i], render)
    ensures forall i :: 0 <= i < |records| ==> |records[i]| == |Header|
  {
    var lines := seq(|rows|, i requires 0 <= i < |rows| => Fields(rows[i], render));
    assert forall i :: 0 <= i < |lines| ==> |lines[i]| == |Header|;
    [Header] + lines
  }

  /** `[header.map(csvEscape).join(","), ...lines].join("\n")`. */
  function Csv(rows: seq<ReportRow>, render: int -> string): string {
    Document(Records(rows, render))
  }

  /** The export reads back as the header followed by the rows' fields. */
  lemma CsvReadsBack(rows: seq<ReportRow>, render: int -> string)
    ensures ParseDocument(Csv(rows, render)) == Some(Records(rows, render))
  {
    DocumentRoundTrip(Records(rows, render));
  }

  /** The `GET` handler, with `now` the clock and `since` the start of the window
      `days` days back. */
  function Export(access: Option<AccessContext>, days: Option<JsNumber>, now: int, render: int -> string,
                  sessions: seq<TrainingSession>, clubs: seq<Club>, sports: seq<Sport>,
                  profiles: seq<Profile>, ms: seq<Membership>, attendance: seq<Attendance>)
    : (reply: Reply<string>)
    ensures reply.Fail? <==> access.None? || (access.value.role != Superadmin && access.value.role != Admin)
    ensures reply.Fail? ==> reply == Fail(403, Forbidden)
    ensures reply.Ok? ==>
              var rows := ReportRows(access.value, sessions, clubs, sports, profiles, ms, attendance,
                                     WindowStart(now, ReportDays(days)));
              ParseDocument(reply.body) == Some(Records(rows, render))
  {
    if access.None? || (access.value.role != Superadmin && access.value.role != Admin) then Fail(403, Forbidden)
    else
      var since := WindowStart(now, ReportDays(days));
      var rows := ReportRows(access.value, sessions, clubs, sports, profiles, ms, attendance, since);
      CsvReadsBack(rows, render);
      Ok(Csv(rows, render))
  }
}
