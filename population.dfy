/**
 * Citizen reports: the report table, its status workflow (the conditional
 * status patch), the statistics, and the two-phase aging pass that moves
 * stale reports forward.
 */
module Population {
  import opened Wrappers
  import opened Tables

  datatype ReportType = Infrastructure | Security | Environment | Traffic | Emergency | Suggestion

  datatype ReportStatus = Pending | InProgress | Resolved | Rejected

  datatype Priority = Low | Medium | High | Urgent

  /** A row of the report table. */
  datatype Report = Report(
    id: int,
    title: string,
    description: string,
    reportType: ReportType,
    priority: Priority,
    status: ReportStatus,
    latitude: real,
    longitude: real,
    location: string,
    citizenName: Option<string>,
    citizenContact: Option<string>,
    adminNotes: Option<string>,
    createdAt: int,
    resolvedAt: Option<int>)

  /** What a caller hands to `create`; priority defaults to MEDIUM and status to PENDING. */
  datatype ReportData = ReportData(
    title: string,
    description: string,
    reportType: ReportType,
    priority: Option<Priority>,
    status: Option<ReportStatus>,
    latitude: real,
    longitude: real,
    location: string,
    citizenName: Option<string>,
    citizenContact: Option<string>,
    adminNotes: Option<string>)

  /** A partial update: `None` leaves a column alone, `Some(v)` writes `v` (which may be null). */
  datatype ReportPatch = ReportPatch(
    title: Option<string>,
    description: Option<string>,
    reportType: Option<ReportType>,
    priority: Option<Priority>,
    status: Option<ReportStatus>,
    latitude: Option<real>,
    longitude: Option<real>,
    location: Option<string>,
    citizenName: Option<Option<string>>,
    citizenContact: Option<Option<string>>,
    adminNotes: Option<Option<string>>,
    resolvedAt: Option<Option<int>>)

  const NoChange := ReportPatch(None, None, None, None, None, None, None, None, None, None, None, None)

  function ReportId(r: Report): int {
    r.id
  }

  function CreatedAt(r: Report): int {
    r.createdAt
  }

  function StatusOf(r: Report): ReportStatus {
    r.status
  }

  function TypeOf(r: Report): ReportType {
    r.reportType
  }

  function PriorityOf(r: Report): Priority {
    r.priority
  }

  /** The row `create` stores. */
  function NewReport(d: ReportData, id: int, now: int): (r: Report)
    ensures r.id == id && r.createdAt == now && r.resolvedAt == None
    ensures r.priority == (if d.priority.Some? then d.priority.value else Medium)
    ensures r.status == (if d.status.Some? then d.status.value else Pending)
  {
    Report(id, d.title, d.description, d.reportType, d.priority.GetOr(Medium), d.status.GetOr(Pending),
           d.latitude, d.longitude, d.location, d.citizenName, d.citizenContact, d.adminNotes, now, None)
  }

  /** What the storage layer's `update(id, patch)` does to the row. */
  function ApplyPatch(r: Report, p: ReportPatch): Report {
    Report(r.id, p.title.GetOr(r.title), p.description.GetOr(r.description), p.reportType.GetOr(r.reportType),
           p.priority.GetOr(r.priority), p.status.GetOr(r.status), p.latitude.GetOr(r.latitude),
           p.longitude.GetOr(r.longitude), p.location.GetOr(r.location), p.citizenName.GetOr(r.citizenName),
           p.citizenContact.GetOr(r.citizenContact), p.adminNotes.GetOr(r.adminNotes), r.createdAt,
           p.resolvedAt.GetOr(r.resolvedAt))
  }

  /** The patch `updateStatus` builds: the status always, the notes when non-empty, resolvedAt on RESOLVED. */
  function StatusPatch(status: ReportStatus, adminNotes: Option<string>, now: int): ReportPatch {
    NoChange.(
      status := Some(status),
      adminNotes := if TruthyText(adminNotes) then Some(adminNotes) else None,
      resolvedAt := if status == Resolved then Some(Some(now)) else None)
  }

  /**
   * A status change sets the status; it writes the notes only when they are non-empty and the
   * resolution time only when the new status is RESOLVED; every other column keeps its value.
   * So moving to IN_PROGRESS, REJECTED or PENDING never touches resolvedAt, and applying the
   * same change twice is applying it once.
   */
  lemma StatusPatchEffect(r: Report, status: ReportStatus, adminNotes: Option<string>, now: int)
    ensures var u := ApplyPatch(r, StatusPatch(status, adminNotes, now));
      && u.status == status
      && (u.adminNotes == if adminNotes.Some? && adminNotes.value != "" then adminNotes else r.adminNotes)
      && (u.resolvedAt == if status == Resolved then Some(now) else r.resolvedAt)
      && u.(status := r.status, adminNotes := r.adminNotes, resolvedAt := r.resolvedAt) == r
    ensures status != Resolved ==> ApplyPatch(r, StatusPatch(status, adminNotes, now)).resolvedAt == r.resolvedAt
    ensures var u := ApplyPatch(r, StatusPatch(status, adminNotes, now));
      ApplyPatch(u, StatusPatch(status, adminNotes, now)) == u
  {
  }

  // ---------------------------------------------------------------------
  // Queries

  /** `findByStatus`: exactly the reports with that status, newest first. */
  function ByStatus(rows: seq<Report>, status: ReportStatus): (r: seq<Report>)
    ensures forall x :: x in r <==> x in rows && x.status == status
    ensures multiset(r) == multiset(Filter(rows, x => StatusOf(x) == status))
    ensures forall x :: multiset(r)[x] <= multiset(rows)[x]
    ensures SortedDesc(r, CreatedAt)
  {
    var matching := Filter(rows, x => StatusOf(x) == status);
    forall x ensures multiset(matching)[x] <= multiset(rows)[x] {
      FilterMultiset(rows, x => StatusOf(x) == status, x);
    }
    assert forall x :: x in matching <==> x in rows && x.status == status;
    var found := SortDesc(matching, CreatedAt);
    assert forall x :: x in found <==> x in multiset(matching);
    found
  }

  /** `findByType`: exactly the reports of that type, newest first. */
  function ByType(rows: seq<Report>, reportType: ReportType): (r: seq<Report>)
    ensures forall x :: x in r <==> x in rows && x.reportType == reportType
    ensures multiset(r) == multiset(Filter(rows, x => TypeOf(x) == reportType))
    ensures forall x :: multiset(r)[x] <= multiset(rows)[x]
    ensures SortedDesc(r, CreatedAt)
  {
    var matching := Filter(rows, x => TypeOf(x) == reportType);
    forall x ensures multiset(matching)[x] <= multiset(rows)[x] {
      FilterMultiset(rows, x => TypeOf(x) == reportType, x);
    }
    assert forall x :: x in matching <==> x in rows && x.reportType == reportType;
    var found := SortDesc(matching, CreatedAt);
    assert forall x :: x in found <==> x in multiset(matching);
    found
  }

  /** The result of `getStatistics`. */
  datatype Statistics = Statistics(
    total: nat,
    pending: nat,
    inProgress: nat,
    resolved: nat,
    rejected: nat,
    byType: map<ReportType, nat>,
    byPriority: map<Priority, nat>)

  /** `getStatistics` over the rows of the table. */
  function GetStatistics(rows: seq<Report>): (st: Statistics)
    ensures st.total == |rows|
    ensures forall k :: k in st.byType ==> st.byType[k] >= 1
    ensures forall k :: k in st.byPriority ==> st.byPriority[k] >= 1
  {
    Statistics(
      |rows|,
      Occurrences(rows, StatusOf, Pending),
      Occurrences(rows, StatusOf, InProgress),
      Occurrences(rows, StatusOf, Resolved),
      Occurrences(rows, StatusOf, Rejected),
      CountBy(rows, TypeOf),
      CountBy(rows, PriorityOf))
  }

  /** Every report has exactly one of the four statuses. */
  lemma {:induction false} StatusCountsPartition(rows: seq<Report>)
    ensures Occurrences(rows, StatusOf, Pending) + Occurrences(rows, StatusOf, InProgress)
      + Occurrences(rows, StatusOf, Resolved) + Occurrences(rows, StatusOf, Rejected) == |rows|
  {
    if rows != [] {
      var init, last := rows[..|rows| - 1], rows[|rows| - 1];
      StatusCountsPartition(init);
      assert init == rows[..|rows| - 1];
      assert forall st ::
          Occurrences(rows, StatusOf, st) == Occurrences(init, StatusOf, st) + (if StatusOf(last) == st then 1 else 0);
    }
  }

  /**
   * The four status counts add up to the total, and so do the per-type and the per-priority
   * counts; each group count is the number of reports of that type or priority.
   */
  lemma StatisticsAddUp(rows: seq<Report>)
    ensures var st := GetStatistics(rows);
      && st.pending + st.inProgress + st.resolved + st.rejected == st.total
      && MapSum(st.byType) == st.total
      && MapSum(st.byPriority) == st.total
      && (forall k :: k in st.byType ==> st.byType[k] == Occurrences(rows, TypeOf, k))
      && (forall k :: k in st.byPriority ==> st.byPriority[k] == Occurrences(rows, PriorityOf, k))
  {
    StatusCountsPartition(rows);
    CountBySum(rows, TypeOf);
    CountBySum(rows, PriorityOf);
    forall k | k in CountBy(rows, TypeOf) ensures CountBy(rows, TypeOf)[k] == Occurrences(rows, TypeOf, k) {
      CountByCounts(rows, TypeOf, k);
    }
    forall k | k in CountBy(rows, PriorityOf) ensures CountBy(rows, PriorityOf)[k] == Occurrences(rows, PriorityOf, k) {
      CountByCounts(rows, PriorityOf, k);
    }
  }

  // ---------------------------------------------------------------------
  // The aging pass

  /** One hour in milliseconds. */
  const HOUR: int := 60 * 60 * 1000

  /** The two phases of the aging pass: review moves PENDING forward, closing moves IN_PROGRESS forward. */
  datatype Phase = Review | Close

  /** The reports a phase looks at: PENDING older than an hour, or IN_PROGRESS older than two. */
  predicate Stale(ph: Phase, r: Report, now: int) {
    match ph
    case Review => r.status == Pending && r.createdAt < now - HOUR
    case Close => r.status == InProgress && r.createdAt < now - 2 * HOUR
  }

  /** Where a draw sends a stale report. */
  function Target(ph: Phase, draw: real): Option<ReportStatus> {
    match ph
    case Review => if draw < 0.6 then Some(InProgress) else None
    case Close => if draw < 0.4 then Some(Resolved) else if draw < 0.5 then Some(Rejected) else None
  }

  /** The note written with each automatic move. */
  function NoteFor(status: ReportStatus): string {
    match status
    case InProgress => "Reporte em análise pela equipe responsável"
    case Resolved => "Problema solucionado pela equipe de manutenção"
    case Rejected => "Reporte não procede após verificação"
    case Pending => ""
  }

  /** One automatic move: `updateStatus` to that status with its note. */
  function Move(r: Report, status: ReportStatus, now: int): Report {
    ApplyPatch(r, StatusPatch(status, Some(NoteFor(status)), now))
  }

  /** Whether the draw of report `id` picks a target in that phase. */
  predicate Picks(ph: Phase, draw: int -> real, id: int) {
    Target(ph, draw(id)).Some?
  }

  /** What a phase's loop does to a report it has queried, given its draw `d`: move it if the draw picks a target. */
  function Outcome(r: Report, ph: Phase, d: real, now: int): Report {
    if Target(ph, d).Some? then Move(r, Target(ph, d).value, now) else r
  }

  /** One phase over the whole table: every stale report whose draw picks a target moves there. */
  function Aged(t: map<int, Report>, ph: Phase, draw: int -> real, now: int): map<int, Report> {
    map id | id in t :: if Stale(ph, t[id], now) then Outcome(t[id], ph, draw(id), now) else t[id]
  }

  /** `updateReportStatuses`: the review phase and then the closing phase, which sees its result. */
  function Pass(t: map<int, Report>, pendingDraw: int -> real, progressDraw: int -> real, now: int): map<int, Report> {
    Aged(Aged(t, Review, pendingDraw, now), Close, progressDraw, now)
  }

  /** The ids a phase moves. */
  ghost function Movers(t: map<int, Report>, ph: Phase, draw: int -> real, now: int): set<int> {
    set id | id in t && Stale(ph, t[id], now) && Picks(ph, draw, id)
  }

  /** How far along the workflow a status is; RESOLVED and REJECTED are both final. */
  function Rank(s: ReportStatus): nat {
    match s
    case Pending => 0
    case InProgress => 1
    case Resolved => 2
    case Rejected => 2
  }

  /**
   * The review phase: a PENDING report older than an hour moves to IN_PROGRESS, with its note,
   * exactly when its draw is below 0.6; every other report is left as it was.
   */
  lemma ReviewPhase(t: map<int, Report>, draw: int -> real, now: int, id: int)
    requires id in t
    ensures Aged(t, Review, draw, now).Keys == t.Keys
    ensures var u := Aged(t, Review, draw, now)[id];
      if t[id].status == Pending && t[id].createdAt < now - HOUR && draw(id) < 0.6
      then u == t[id].(status := InProgress, adminNotes := Some(NoteFor(InProgress)))
      else u == t[id]
  {
  }

  /**
   * The closing phase: an IN_PROGRESS report older than two hours becomes RESOLVED (with the
   * resolution time) on a draw below 0.4, REJECTED on a draw in [0.4, 0.5), and stays as it was
   * otherwise; every other report is left as it was.
   */
  lemma ClosePhase(t: map<int, Report>, draw: int -> real, now: int, id: int)
    requires id in t
    ensures Aged(t, Close, draw, now).Keys == t.Keys
    ensures var u := Aged(t, Close, draw, now)[id];
      if t[id].status == InProgress && t[id].createdAt < now - 2 * HOUR then
        if draw(id) < 0.4 then u == t[id].(status := Resolved, adminNotes := Some(NoteFor(Resolved)), resolvedAt := Some(now))
        else if draw(id) < 0.5 then u == t[id].(status := Rejected, adminNotes := Some(NoteFor(Rejected)))
        else u == t[id]
      else u == t[id]
  {
  }

  /**
   * The aging pass keeps the same reports, never moves one backwards, never touches a RESOLVED
   * or REJECTED report, changes only status, notes and resolution time, and leaves alone every
   * report created within the last hour.
   */
  lemma PassForwardOnly(t: map<int, Report>, pendingDraw: int -> real, progressDraw: int -> real, now: int, id: int)
    requires id in t
    ensures Pass(t, pendingDraw, progressDraw, now).Keys == t.Keys
    ensures var u := Pass(t, pendingDraw, progressDraw, now)[id];
      && Rank(t[id].status) <= Rank(u.status)
      && u.(status := t[id].status, adminNotes := t[id].adminNotes, resolvedAt := t[id].resolvedAt) == t[id]
    ensures t[id].status == Resolved || t[id].status == Rejected ==> Pass(t, pendingDraw, progressDraw, now)[id] == t[id]
    ensures t[id].createdAt >= now - HOUR ==> Pass(t, pendingDraw, progressDraw, now)[id] == t[id]
  {
    ReviewPhase(t, pendingDraw, now, id);
    ClosePhase(Aged(t, Review, pendingDraw, now), progressDraw, now, id);
  }

  /**
   * Because the closing query runs after the review loop, a PENDING report older than two hours
   * can go to IN_PROGRESS and on to RESOLVED in a single pass.
   */
  lemma PassDoubleAdvance(t: map<int, Report>, pendingDraw: int -> real, progressDraw: int -> real, now: int, id: int)
    requires id in t && t[id].status == Pending && t[id].createdAt < now - 2 * HOUR
    requires pendingDraw(id) < 0.6 && progressDraw(id) < 0.4
    ensures id in Movers(t, Review, pendingDraw, now)
    ensures id in Movers(Aged(t, Review, pendingDraw, now), Close, progressDraw, now)
    ensures Pass(t, pendingDraw, progressDraw, now)[id].status == Resolved
    ensures Pass(t, pendingDraw, progressDraw, now)[id].resolvedAt == Some(now)
  {
    ReviewPhase(t, pendingDraw, now, id);
    ClosePhase(Aged(t, Review, pendingDraw, now), progressDraw, now, id);
  }

  /** Each move changes the status of the report moved. */
  lemma MoversChangeStatus(t: map<int, Report>, ph: Phase, draw: int -> real, now: int, id: int)
    requires id in Movers(t, ph, draw, now)
    ensures id in t && Aged(t, ph, draw, now)[id].status != t[id].status
    ensures Rank(Aged(t, ph, draw, now)[id].status) == Rank(t[id].status) + 1
  {
  }

  /** Handling a report a second time in the same phase changes nothing more. */
  lemma OutcomeIdempotent(r: Report, ph: Phase, d: real, now: int)
    ensures Outcome(Outcome(r, ph, d, now), ph, d, now) == Outcome(r, ph, d, now)
  {
  }

  /** One iteration of a phase's loop over the table: the report `id`, if still there, gets its outcome. */
  function Step(t: map<int, Report>, id: int, ph: Phase, draw: int -> real, now: int): map<int, Report> {
    if id in t && Target(ph, draw(id)).Some? then t[id := Move(t[id], Target(ph, draw(id)).value, now)] else t
  }

  /** The table once the first `n` of `ids` have been handled one after the other, as the loop of a phase does. */
  ghost function AgedFor(t: map<int, Report>, ids: seq<int>, n: nat, ph: Phase, draw: int -> real, now: int): map<int, Report>
    requires n <= |ids|
  {
    if n == 0 then t
    else Step(AgedFor(t, ids, n - 1, ph, draw, now), ids[n - 1], ph, draw, now)
  }

  /**
   * Handling the first `n` of `ids` one by one handles each of them once, however often it
   * is listed, and leaves the other reports alone.
   */
  lemma {:induction false} AgedForEach(t: map<int, Report>, ids: seq<int>, n: nat, ph: Phase, draw: int -> real, now: int)
    requires n <= |ids|
    ensures AgedFor(t, ids, n, ph, draw, now).Keys == t.Keys
    ensures forall id :: id in t ==>
      AgedFor(t, ids, n, ph, draw, now)[id] == if id in ids[..n] then Outcome(t[id], ph, draw(id), now) else t[id]
  {
    if n > 0 {
      var last := ids[n - 1];
      AgedForEach(t, ids, n - 1, ph, draw, now);
      if last in t {
        OutcomeIdempotent(t[last], ph, draw(last), now);
      }
      assert ids[..n] == ids[..n - 1] + [last];
      assert forall id :: id in ids[..n] <==> id in ids[..n - 1] || id == last;
    }
  }

  /** When `ids` lists exactly the stale reports, handling them all one by one is the phase. */
  lemma AgedForPhase(t: map<int, Report>, ids: seq<int>, ph: Phase, draw: int -> real, now: int)
    requires forall id :: id in ids <==> id in t && Stale(ph, t[id], now)
    ensures AgedFor(t, ids, |ids|, ph, draw, now) == Aged(t, ph, draw, now)
  {
    AgedForEach(t, ids, |ids|, ph, draw, now);
    assert ids[..|ids|] == ids;
    var r, s := AgedFor(t, ids, |ids|, ph, draw, now), Aged(t, ph, draw, now);
    forall id | id in r ensures r[id] == s[id] {
      assert id in ids <==> Stale(ph, t[id], now);
    }
  }

  /** How many of the first `n` of `ids` a phase's draws move: the counter the loop of a phase keeps. */
  function MoveCount(ids: seq<int>, n: nat, ph: Phase, draw: int -> real): (count: nat)
    requires n <= |ids|
    ensures count <= n
  {
    if n == 0 then 0
    else MoveCount(ids, n - 1, ph, draw) + (if Picks(ph, draw, ids[n - 1]) then 1 else 0)
  }

  /** The ids among `ids` whose draw picks a target. */
  ghost function Picked(ids: seq<int>, ph: Phase, draw: int -> real): set<int> {
    set id | id in ids && Picks(ph, draw, id)
  }

  lemma PickedSnoc(init: seq<int>, last: int, ph: Phase, draw: int -> real)
    ensures Picked(init + [last], ph, draw) == Picked(init, ph, draw) + (if Picks(ph, draw, last) then {last} else {})
  {
    assert forall id :: id in init + [last] <==> id in init || id == last;
  }

  /** Over ids listed once each, the counter is the number of distinct ids whose draw picks a target. */
  lemma {:induction false} MoveCountDistinct(ids: seq<int>, n: nat, ph: Phase, draw: int -> real)
    requires n <= |ids| && Increasing(ids)
    ensures MoveCount(ids, n, ph, draw) == |Picked(ids[..n], ph, draw)|
  {
    if n == 0 {
      assert Picked(ids[..n], ph, draw) == {};
    } else {
      var last := ids[n - 1];
      assert ids[..n] == ids[..n - 1] + [last];
      MoveCountDistinct(ids, n - 1, ph, draw);
      assert last !in ids[..n - 1];
      PickedSnoc(ids[..n - 1], last, ph, draw);
    }
  }

  /** A phase's loop over all the stale ids performs the phase. */
  lemma PhaseTable(t: map<int, Report>, nextId: int, ph: Phase, draw: int -> real, now: int, ids: seq<int>)
    requires WellFormed(t, nextId, ReportId) && ids == StaleList(t, nextId, ph, now)
    ensures AgedFor(t, ids, |ids|, ph, draw, now) == Aged(t, ph, draw, now)
  {
    StaleListComplete(t, nextId, ph, now);
    AgedForPhase(t, ids, ph, draw, now);
  }

  /** A phase's loop over the stale ids, in id order, counts the reports the phase moves. */
  lemma PhaseCount(t: map<int, Report>, nextId: int, ph: Phase, draw: int -> real, now: int, ids: seq<int>)
    requires WellFormed(t, nextId, ReportId) && ids == StaleList(t, nextId, ph, now)
    ensures MoveCount(ids, |ids|, ph, draw) == |Movers(t, ph, draw, now)|
  {
    StaleListComplete(t, nextId, ph, now);
    MoveCountDistinct(ids, |ids|, ph, draw);
    assert ids[..|ids|] == ids;
    assert Picked(ids, ph, draw) == Movers(t, ph, draw, now);
  }

  /** The ids a phase's query returns: stale reports only, in id order. */
  function StaleList(t: map<int, Report>, nextId: int, ph: Phase, now: int): (ids: seq<int>)
    ensures forall id :: id in ids ==> id in t && Stale(ph, t[id], now)
  {
    KeysWhere(t, KeysFrom(t, 1, nextId), r => Stale(ph, r, now))
  }

  /** Over a well-formed table the query lists every stale report, once each, in id order. */
  lemma StaleListComplete(t: map<int, Report>, nextId: int, ph: Phase, now: int)
    requires WellFormed(t, nextId, ReportId)
    ensures forall id :: id in t && Stale(ph, t[id], now) ==> id in StaleList(t, nextId, ph, now)
    ensures Increasing(StaleList(t, nextId, ph, now))
  {
  }

  /** The report table and its id counter. */
  class ReportTable {
    var table: map<int, Report>
    var nextId: int

    ghost predicate Valid()
      reads this
    {
      WellFormed(table, nextId, ReportId)
    }

    constructor ()
      ensures Valid() && table == map[] && nextId == 1
    {
      table := map[];
      nextId := 1;
    }

    /** `findAll`: every report, newest first. */
    function FindAll(): (r: seq<Report>)
      reads this
      requires Valid()
      ensures |r| == |table|
      ensures forall x :: x in r ==> x.id in table && table[x.id] == x
      ensures forall id :: id in table ==> table[id] in r
      ensures SortedDesc(r, CreatedAt)
    {
      var rows := Listing(table, nextId, ReportId);
      ListingHolds(table, nextId, ReportId);
      var r := SortDesc(rows, CreatedAt);
      assert |r| == |rows| by { assert |multiset(r)| == |multiset(rows)|; }
      assert forall x :: x in r <==> x in multiset(rows);
      r
    }

    /** `findByStatus`: the reports of the table with that status, newest first. */
    function FindByStatus(status: ReportStatus): (r: seq<Report>)
      reads this
      requires Valid()
      ensures forall x :: x in r ==> x.id in table && table[x.id] == x && x.status == status
      ensures forall id :: id in table && table[id].status == status ==> table[id] in r
      ensures forall i, j :: 0 <= i < j < |r| ==> r[i].id != r[j].id
      ensures SortedDesc(r, CreatedAt)
    {
      ListingHolds(table, nextId, ReportId);
      ListingDistinct(table, nextId, ReportId, ByStatus(Listing(table, nextId, ReportId), status));
      ByStatus(Listing(table, nextId, ReportId), status)
    }

    /** `findByType`: the reports of the table of that type, newest first. */
    function FindByType(reportType: ReportType): (r: seq<Report>)
      reads this
      requires Valid()
      ensures forall x :: x in r ==> x.id in table && table[x.id] == x && x.reportType == reportType
      ensures forall id :: id in table && table[id].reportType == reportType ==> table[id] in r
      ensures forall i, j :: 0 <= i < j < |r| ==> r[i].id != r[j].id
      ensures SortedDesc(r, CreatedAt)
    {
      ListingHolds(table, nextId, ReportId);
      ListingDistinct(table, nextId, ReportId, ByType(Listing(table, nextId, ReportId), reportType));
      ByType(Listing(table, nextId, ReportId), reportType)
    }

    /** `getStatistics` over the whole table: the four status counts add up to the number of reports. */
    function Statistics(): (st: Statistics)
      reads this
      requires Valid()
      ensures st.total == |table|
      ensures st.pending + st.inProgress + st.resolved + st.rejected == |table|
    {
      StatisticsAddUp(Listing(table, nextId, ReportId));
      GetStatistics(Listing(table, nextId, ReportId))
    }

    /** `findOne`: the report with that id, or null. */
    function FindOne(id: int): (r: Option<Report>)
      reads this
      requires Valid()
      ensures r.Some? <==> id in table
      ensures r.Some? ==> r.value == table[id] && r.value.id == id
    {
      Lookup(table, nextId, ReportId, id)
    }

    /** `create`: stores the new row under the next id. */
    method Create(data: ReportData, now: int) returns (r: Report)
      requires Valid()
      modifies this
      ensures Valid()
      ensures r == NewReport(data, old(nextId), now) && old(nextId) !in old(table)
      ensures table == old(table)[old(nextId) := r] && nextId == old(nextId) + 1
    {
      r := NewReport(data, nextId, now);
      table := table[nextId := r];
      nextId := nextId + 1;
    }

    /** `update`: writes the patch to the row with that id, if any, and returns the re-read row or null. */
    method Update(id: int, patch: ReportPatch) returns (r: Option<Report>)
      requires Valid()
      modifies this
      ensures Valid() && nextId == old(nextId)
      ensures table == if id in old(table) then old(table)[id := ApplyPatch(old(table)[id], patch)] else old(table)
      ensures r == FindOne(id)
    {
      if id in table {
        table := table[id := ApplyPatch(table[id], patch)];
      }
      r := FindOne(id);
    }

    /** `updateStatus`: writes the status patch to the row with that id, if any. */
    method UpdateStatus(id: int, status: ReportStatus, adminNotes: Option<string>, now: int) returns (r: Option<Report>)
      requires Valid()
      modifies this
      ensures Valid() && nextId == old(nextId)
      ensures table == if id in old(table) then old(table)[id := ApplyPatch(old(table)[id], StatusPatch(status, adminNotes, now))]
                       else old(table)
      ensures r == FindOne(id)
    {
      r := Update(id, StatusPatch(status, adminNotes, now));
    }

    /** `delete`: removes that id and only that id. */
    method Delete(id: int)
      requires Valid()
      modifies this
      ensures Valid() && nextId == old(nextId)
      ensures table == old(table) - {id}
    {
      table := table - {id};
    }

    /** The body of a phase's loop: draw for the report and, if the draw picks a target, move it there. */
    method HandleStale(id: int, ph: Phase, draw: int -> real, now: int) returns (updated: bool)
      requires Valid()
      modifies this
      ensures Valid() && nextId == old(nextId)
      ensures table == Step(old(table), id, ph, draw, now)
      ensures updated == Picks(ph, draw, id)
    {
      var target := Target(ph, draw(id));
      updated := target.Some?;
      if updated {
        var _ := UpdateStatus(id, target.value, Some(NoteFor(target.value)), now);
      }
    }

    /** The loop of a phase: handles the listed reports one after the other and counts the moves. */
    method HandleAll(ids: seq<int>, ph: Phase, draw: int -> real, now: int) returns (moved: nat)
      requires Valid()
      modifies this
      ensures Valid() && nextId == old(nextId)
      ensures table == AgedFor(old(table), ids, |ids|, ph, draw, now)
      ensures moved == MoveCount(ids, |ids|, ph, draw)
    {
      moved := 0;
      for i := 0 to |ids|
        invariant Valid() && nextId == old(nextId)
        invariant table == AgedFor(old(table), ids, i, ph, draw, now)
        invariant moved == MoveCount(ids, i, ph, draw)
      {
        var updated := HandleStale(ids[i], ph, draw, now);
        if updated {
          moved := moved + 1;
        }
      }
    }

    /** One phase of the aging pass: query the stale reports, then draw for each and move it. */
    method RunPhase(ph: Phase, draw: int -> real, now: int) returns (moved: nat)
      requires Valid()
      modifies this
      ensures Valid() && nextId == old(nextId)
      ensures table == Aged(old(table), ph, draw, now)
      ensures moved == |Movers(old(table), ph, draw, now)|
    {
      var ids := StaleList(table, nextId, ph, now);
      PhaseTable(table, nextId, ph, draw, now, ids);
      PhaseCount(table, nextId, ph, draw, now, ids);
      moved := HandleAll(ids, ph, draw, now);
    }

    /**
     * `updateReportStatuses`: the review phase, then the closing phase over the table the
     * review left; returns the number of status updates made, one per move.
     */
    method UpdateReportStatuses(pendingDraw: int -> real, progressDraw: int -> real, now: int) returns (updatedCount: nat)
      requires Valid()
      modifies this
      ensures Valid() && nextId == old(nextId)
      ensures table == Pass(old(table), pendingDraw, progressDraw, now)
      ensures updatedCount == |Movers(old(table), Review, pendingDraw, now)|
        + |Movers(Aged(old(table), Review, pendingDraw, now), Close, progressDraw, now)|
    {
      var reviewed := RunPhase(Review, pendingDraw, now);
      var closed := RunPhase(Close, progressDraw, now);
      updatedCount := reviewed + closed;
    }
  }
}
