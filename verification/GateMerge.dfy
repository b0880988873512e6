/**
  The release gate's verdict: each leg's plan and report are merged into one report,
  and the merged report is decided on.  Zero-skip is the theorem that nothing planned
  or reported can be missing from a green one.
 */
module GateMerge {
  import opened Wrappers

  datatype Json =
    | Null
    | Bool(b: bool)
    | Number(n: int)
    | Text(s: string)
    | List(items: seq<Json>)
    | Object(fields: map<string, Json>)

  function Get(j: Json, key: string): (r: Json) {
    if j.Object? && key in j.fields then j.fields[key] else Null
  }

  /** A truth value counts as a number, as in Python. */
  function AsNumber(j: Json): (r: Option<int>) {
    match j
    case Number(n) => Some(n)
    case Bool(b) => Some(if b then 1 else 0)
    case _ => None
  }

  // ---------------------------------------------------------------------
  // Cell ids

  function Split(s: string): (parts: seq<string>)
    ensures |parts| >= 1
  {
    if s == "" then [""]
    else
      var rest := Split(s[1..]);
      if s[0] == '/' then [""] + rest else [[s[0]] + rest[0]] + rest[1..]
  }

  predicate WellFormedId(id: string) {
    var parts := Split(id);
    |parts| == 5 && forall i :: 0 <= i < 5 ==> parts[i] != ""
  }

  /** An id of a provider's leg and flavour. */
  predicate Belongs(id: string, provider: string, client: string) {
    WellFormedId(id) && Split(id)[1] == provider && Split(id)[3] == client
  }

  // ---------------------------------------------------------------------
  // Reports

  /** A cell of the merged report; `made` is one merge failed itself. */
  datatype Cell = Cell(id: string, passed: bool, known: string, made: bool)

  function CellOf(j: Json): (c: Cell) {
    Cell(if Get(j, "id").Text? then Get(j, "id").s else "",
         Get(j, "status") == Text("pass"),
         if Get(j, "known").Text? then Get(j, "known").s else "",
         false)
  }

  function Failed(id: string): (c: Cell) {
    Cell(id, false, "", true)
  }

  predicate CellOk(j: Json, provider: string, client: string) {
    && j.Object? && Get(j, "id").Text? && Belongs(Get(j, "id").s, provider, client)
    && (Get(j, "status") == Text("pass") || Get(j, "status") == Text("fail"))
    && ("known" in j.fields ==> j.fields["known"].Text?)
  }

  predicate HeaderOk(report: Json, commit: string) {
    && report.Object?
    && AsNumber(Get(report, "schema")) == Some(1)
    && Get(report, "engine_commit") == Text(commit)
    && Get(report, "target") == Text("local")
    && Get(report, "cells").List?
  }

  predicate CountsOk(report: Json) {
    && AsNumber(Get(report, "planned")).Some? && AsNumber(Get(report, "executed")).Some?
    && AsNumber(Get(report, "passed")).Some? && AsNumber(Get(report, "failed")).Some?
  }

  /** A report that can be trusted: of this engine, this leg and this flavour, with
      every cell named once. */
  ghost predicate Acceptable(report: Json, provider: string, client: string, commit: string) {
    && HeaderOk(report, commit)
    && FirstAreFine(Get(report, "cells").items, |Get(report, "cells").items|, provider, client)
    && CountsOk(report)
  }

  ghost predicate FirstAreFine(cells: seq<Json>, n: nat, provider: string, client: string)
    requires n <= |cells|
  {
    && (forall i :: 0 <= i < n ==> CellOk(cells[i], provider, client))
    && (forall i, j :: 0 <= i < j < n ==> CellOf(cells[i]).id != CellOf(cells[j]).id)
  }

  ghost function FirstIds(cells: seq<Json>, n: nat): (ids: set<string>)
    requires n <= |cells|
  {
    set i | 0 <= i < n :: CellOf(cells[i]).id
  }

  lemma OneMoreIsFine(cells: seq<Json>, n: nat, provider: string, client: string)
    requires n < |cells| && FirstAreFine(cells, n, provider, client)
    ensures FirstAreFine(cells, n + 1, provider, client) <==>
            CellOk(cells[n], provider, client) && CellOf(cells[n]).id !in FirstIds(cells, n)
    ensures FirstIds(cells, n + 1) == FirstIds(cells, n) + {CellOf(cells[n]).id}
  {
  }

  lemma FewerAreFine(cells: seq<Json>, n: nat, provider: string, client: string)
    requires n <= |cells| && FirstAreFine(cells, |cells|, provider, client)
    ensures FirstAreFine(cells, n, provider, client)
  {
  }

  method Accept(report: Json, provider: string, client: string, commit: string) returns (ok: bool)
    ensures ok <==> Acceptable(report, provider, client, commit)
  {
    ok := HeaderOk(report, commit);
    if ok {
      var cells := Get(report, "cells").items;
      ok := AcceptCells(cells, provider, client);
      ok := ok && CountsOk(report);
    }
  }

  method AcceptCells(cells: seq<Json>, provider: string, client: string) returns (ok: bool)
    ensures ok <==> FirstAreFine(cells, |cells|, provider, client)
  {
    ok := true;
    var seen: set<string> := {};
    var i := 0;
    while ok && i < |cells|
      invariant 0 <= i <= |cells|
      invariant ok ==> FirstAreFine(cells, i, provider, client) && seen == FirstIds(cells, i)
      invariant !ok ==> !FirstAreFine(cells, i, provider, client)
    {
      OneMoreIsFine(cells, i, provider, client);
      ok := CellOk(cells[i], provider, client) && CellOf(cells[i]).id !in seen;
      seen := seen + {CellOf(cells[i]).id};
      i := i + 1;
    }
    if !ok && FirstAreFine(cells, |cells|, provider, client) {
      FewerAreFine(cells, i, provider, client);
    }
  }

  // ---------------------------------------------------------------------
  // Merging

  /** What an accepted report says. */
  datatype Report = Report(cells: seq<Cell>, executed: int)

  function ReportOf(j: Json): (r: Report)
    requires Get(j, "cells").List? && AsNumber(Get(j, "executed")).Some?
  {
    var items := Get(j, "cells").items;
    Report(seq(|items|, i requires 0 <= i < |items| => CellOf(items[i])), AsNumber(Get(j, "executed")).value)
  }

  /** One flavour of one leg: its plan, if it left one, and its report, if it left one
      that was accepted. */
  datatype Leg = Leg(provider: string, client: string, plan: Option<seq<string>>, report: Option<Report>)

  type Cells = map<string, Cell>

  function Ids(cells: seq<Cell>): (ids: set<string>)
    ensures forall id :: id in ids <==> exists i :: 0 <= i < |cells| && cells[i].id == id
  {
    set i | 0 <= i < |cells| :: cells[i].id
  }

  /** The planned cells no valid report accounts for, failed. */
  function NotRun(plan: seq<string>, listed: set<string>): (r: seq<Cell>)
    ensures forall c :: c in r ==> c == Failed(c.id) && c.id in plan && c.id !in listed
    ensures forall id :: id in plan && id !in listed ==> Failed(id) in r
  {
    if plan == [] then []
    else
      assert plan == [plan[0]] + plan[1..];
      if plan[0] in listed then NotRun(plan[1..], listed)
      else [Failed(plan[0])] + NotRun(plan[1..], listed)
  }

  function Planned(l: Leg): (plan: seq<string>) {
    if l.plan.Some? then l.plan.value else []
  }

  /** A leg's own cells. */
  function Own(l: Leg, platform: string): (own: seq<Cell>) {
    if l.report.Some? then l.report.value.cells + NotRun(Planned(l), Ids(l.report.value.cells))
    else if Planned(l) != [] then NotRun(Planned(l), {})
    else [Failed(platform + "/" + l.provider + "/*/" + l.client + "/*")]
  }

  /** A cell whose id is there already is failed in its place. */
  function Put(cells: Cells, c: Cell): (r: Cells) {
    cells[c.id := if c.id in cells then Failed(c.id) else c]
  }

  function PutAll(cells: Cells, own: seq<Cell>): (r: Cells) {
    if own == [] then cells else Put(PutAll(cells, own[..|own| - 1]), own[|own| - 1])
  }

  function Merged(legs: seq<Leg>, platform: string): (cells: Cells) {
    if legs == [] then map[]
    else PutAll(Merged(legs[..|legs| - 1], platform), Own(legs[|legs| - 1], platform))
  }

  function Executed(legs: seq<Leg>): (n: int) {
    if legs == [] then 0
    else
      var l := legs[|legs| - 1];
      Executed(legs[..|legs| - 1]) + (if l.report.Some? then l.report.value.executed else 0)
  }

  method PutCells(before: Cells, own: seq<Cell>) returns (cells: Cells)
    ensures cells == PutAll(before, own)
  {
    cells := before;
    for k := 0 to |own|
      invariant cells == PutAll(before, own[..k])
    {
      assert own[..k + 1][..k] == own[..k];
      var c := own[k];
      if c.id in cells {
        c := Failed(c.id);
      }
      cells := cells[c.id := c];
    }
    assert own[..|own|] == own;
  }

  /** What the merged report says of a leg: the length of its plan, if it left one, whether
      its report was accepted, and how its own cells went. */
  datatype Record = Record(provider: string, client: string, plan: Option<nat>, accepted: bool,
                           planned: nat, passed: nat, failed: nat, known: nat)

  function PassedIn(cells: seq<Cell>): (n: nat) {
    if cells == [] then 0 else PassedIn(cells[..|cells| - 1]) + if cells[|cells| - 1].passed then 1 else 0
  }

  function FailedIn(cells: seq<Cell>): (n: nat) {
    if cells == [] then 0 else FailedIn(cells[..|cells| - 1]) + if !cells[|cells| - 1].passed then 1 else 0
  }

  function KnownIn(cells: seq<Cell>): (n: nat) {
    if cells == [] then 0
    else
      var last := cells[|cells| - 1];
      KnownIn(cells[..|cells| - 1]) + if !last.passed && last.known != "" then 1 else 0
  }

  function RecordOf(l: Leg, platform: string): (r: Record) {
    var own := Own(l, platform);
    Record(l.provider, l.client, if l.plan.Some? then Some(|l.plan.value|) else None, l.report.Some?,
           |own|, PassedIn(own), FailedIn(own), KnownIn(own))
  }

  function RecordsOf(legs: seq<Leg>, platform: string): (r: seq<Record>)
    ensures |r| == |legs|
  {
    if legs == [] then []
    else RecordsOf(legs[..|legs| - 1], platform) + [RecordOf(legs[|legs| - 1], platform)]
  }

  method CountCells(own: seq<Cell>) returns (passed: nat, failed: nat, known: nat)
    ensures passed == PassedIn(own) && failed == FailedIn(own) && known == KnownIn(own)
  {
    passed, failed, known := 0, 0, 0;
    for k := 0 to |own|
      invariant passed == PassedIn(own[..k]) && failed == FailedIn(own[..k]) && known == KnownIn(own[..k])
    {
      assert own[..k + 1][..k] == own[..k];
      if own[k].passed {
        passed := passed + 1;
      } else {
        failed := failed + 1;
        if own[k].known != "" {
          known := known + 1;
        }
      }
    }
    assert own[..|own|] == own;
  }

  method Note(l: Leg, platform: string, own: seq<Cell>) returns (r: Record)
    requires own == Own(l, platform)
    ensures r == RecordOf(l, platform)
  {
    var passed, failed, known := CountCells(own);
    var plan := if l.plan.Some? then Some(|l.plan.value|) else None;
    r := Record(l.provider, l.client, plan, l.report.Some?, |own|, passed, failed, known);
  }

  lemma OneMoreLeg(legs: seq<Leg>, platform: string, i: nat)
    requires i < |legs|
    ensures Merged(legs[..i + 1], platform) == PutAll(Merged(legs[..i], platform), Own(legs[i], platform))
    ensures Executed(legs[..i + 1]) ==
            Executed(legs[..i]) + if legs[i].report.Some? then legs[i].report.value.executed else 0
    ensures RecordsOf(legs[..i + 1], platform) == RecordsOf(legs[..i], platform) + [RecordOf(legs[i], platform)]
  {
    assert legs[..i + 1][..i] == legs[..i];
  }

  method Merge(legs: seq<Leg>, platform: string) returns (cells: Cells, executed: int, records: seq<Record>)
    ensures cells == Merged(legs, platform) && executed == Executed(legs)
    ensures records == RecordsOf(legs, platform)
  {
    cells, executed, records := map[], 0, [];
    for i := 0 to |legs|
      invariant cells == Merged(legs[..i], platform) && executed == Executed(legs[..i])
      invariant records == RecordsOf(legs[..i], platform)
    {
      OneMoreLeg(legs, platform, i);
      var l := legs[i];
      var own := Own(l, platform);
      cells := PutCells(cells, own);
      if l.report.Some? {
        executed := executed + l.report.value.executed;
      }
      var record := Note(l, platform, own);
      records := records + [record];
    }
    assert legs[..|legs|] == legs;
  }

  /** A leg's files: its plan, and its report as read. */
  datatype File = Missing | NotJson | Parsed(json: Json)

  datatype Part = Part(provider: string, client: string, plan: Option<seq<string>>, file: File)

  ghost predicate Trusted(p: Part, commit: string) {
    p.file.Parsed? && Acceptable(p.file.json, p.provider, p.client, commit)
  }

  ghost predicate LegIs(l: Leg, p: Part, commit: string) {
    && l.provider == p.provider && l.client == p.client && l.plan == p.plan
    && (l.report.Some? <==> Trusted(p, commit))
    && (l.report.Some? ==> l.report.value == ReportOf(p.file.json))
  }

  /** The platform cells without a report are named by: the one the last accepted report
      with a cell names its first cell by. */
  ghost function PlatformOf(parts: seq<Part>, commit: string): (platform: string) {
    if parts == [] then "engine-linux"
    else
      var p := parts[|parts| - 1];
      if Trusted(p, commit) && Get(p.file.json, "cells").items != []
      then Split(CellOf(Get(p.file.json, "cells").items[0]).id)[0]
      else PlatformOf(parts[..|parts| - 1], commit)
  }

  method ReadParts(parts: seq<Part>, commit: string) returns (legs: seq<Leg>, platform: string)
    ensures |legs| == |parts|
    ensures forall i :: 0 <= i < |parts| ==> LegIs(legs[i], parts[i], commit)
    ensures platform == PlatformOf(parts, commit)
  {
    legs, platform := [], "engine-linux";
    for i := 0 to |parts|
      invariant |legs| == i
      invariant forall j :: 0 <= j < i ==> LegIs(legs[j], parts[j], commit)
      invariant platform == PlatformOf(parts[..i], commit)
    {
      var p := parts[i];
      assert parts[..i + 1][..i] == parts[..i];
      var report: Option<Report> := None;
      if p.file.Parsed? {
        var ok := Accept(p.file.json, p.provider, p.client, commit);
        if ok {
          report := Some(ReportOf(p.file.json));
          if report.value.cells != [] {
            platform := Split(report.value.cells[0].id)[0];
          }
        }
      }
      legs := legs + [Leg(p.provider, p.client, p.plan, report)];
    }
    assert parts[..|parts|] == parts;
  }

  // ---------------------------------------------------------------------
  // What the merged cells are

  function AllOwn(legs: seq<Leg>, platform: string): (all: seq<Cell>) {
    if legs == [] then []
    else AllOwn(legs[..|legs| - 1], platform) + Own(legs[|legs| - 1], platform)
  }

  lemma {:induction false} PutAppend(cells: Cells, a: seq<Cell>, b: seq<Cell>)
    ensures PutAll(cells, a + b) == PutAll(PutAll(cells, a), b)
    decreases |b|
  {
    if b == [] {
      assert a + b == a;
    } else {
      var front := b[..|b| - 1];
      PutAppend(cells, a, front);
      assert (a + b)[..|a + b| - 1] == a + front;
      assert (a + b)[|a + b| - 1] == b[|b| - 1];
    }
  }

  lemma {:induction false} MergedIsFlat(legs: seq<Leg>, platform: string)
    ensures Merged(legs, platform) == PutAll(map[], AllOwn(legs, platform))
  {
    if legs != [] {
      var front := legs[..|legs| - 1];
      MergedIsFlat(front, platform);
      PutAppend(map[], AllOwn(front, platform), Own(legs[|legs| - 1], platform));
    }
  }

  ghost predicate DistinctIds(all: seq<Cell>) {
    forall i, j :: 0 <= i < j < |all| ==> all[i].id != all[j].id
  }

  ghost predicate NoneMade(all: seq<Cell>) {
    forall i :: 0 <= i < |all| ==> !all[i].made
  }

  ghost predicate Clean(cells: Cells) {
    forall id :: id in cells ==> !cells[id].made
  }

  ghost predicate IdsAreThose(cells: Cells, all: seq<Cell>) {
    && (forall id :: id in cells <==> exists i :: 0 <= i < |all| && all[i].id == id)
    && (forall id :: id in cells ==> cells[id].id == id)
  }

  ghost predicate HoldsEach(cells: Cells, all: seq<Cell>) {
    forall i :: 0 <= i < |all| ==> all[i].id in cells && cells[all[i].id] == all[i]
  }

  /** Every id put in is there; and no cell merge failed is ever hidden: the result is
      free of them exactly when none was put in and no id came twice, and then it holds
      each cell as it was put in. */
  ghost predicate NothingHidden(cells: Cells, all: seq<Cell>) {
    && IdsAreThose(cells, all)
    && (Clean(cells) <==> NoneMade(all) && DistinctIds(all))
    && (Clean(cells) ==> HoldsEach(cells, all))
  }

  lemma {:induction false} PutAllIs(all: seq<Cell>)
    ensures NothingHidden(PutAll(map[], all), all)
  {
    if all != [] {
      var front, last := all[..|all| - 1], all[|all| - 1];
      PutAllIs(front);
      PutOne(PutAll(map[], front), front, last);
      assert all == front + [last];
    }
  }

  lemma PutOneIds(cells: Cells, front: seq<Cell>, last: Cell)
    requires IdsAreThose(cells, front)
    ensures IdsAreThose(Put(cells, last), front + [last])
  {
    var all, r := front + [last], Put(cells, last);
    assert forall i :: 0 <= i < |front| ==> all[i] == front[i];
    assert all[|front|] == last;
    forall id ensures id in r <==> exists i :: 0 <= i < |all| && all[i].id == id {
      if id in cells {
        var i :| 0 <= i < |front| && front[i].id == id;
        assert all[i].id == id;
      }
    }
  }

  lemma PutOne(cells: Cells, front: seq<Cell>, last: Cell)
    requires NothingHidden(cells, front)
    ensures NothingHidden(Put(cells, last), front + [last])
  {
    var all, r := front + [last], Put(cells, last);
    assert forall i :: 0 <= i < |front| ==> all[i] == front[i];
    assert all[|front|] == last;
    PutOneIds(cells, front, last);
    if last.id in cells {
      assert r[last.id].made;
      var i :| 0 <= i < |front| && front[i].id == last.id;
      assert all[i].id == all[|front|].id;
    } else {
      assert forall id :: id in cells ==> r[id] == cells[id];
      assert Clean(r) <==> Clean(cells) && !last.made;
    }
  }

  // ---------------------------------------------------------------------
  // The legs' records and the merged cells

  function SumPlanned(records: seq<Record>): (n: nat) {
    if records == [] then 0 else SumPlanned(records[..|records| - 1]) + records[|records| - 1].planned
  }

  lemma {:induction false} PassedOrFailed(cells: seq<Cell>)
    ensures PassedIn(cells) + FailedIn(cells) == |cells| && KnownIn(cells) <= FailedIn(cells)
  {
    if cells != [] {
      PassedOrFailed(cells[..|cells| - 1]);
    }
  }

  lemma {:induction false} SumPlannedIs(legs: seq<Leg>, platform: string)
    ensures SumPlanned(RecordsOf(legs, platform)) == |AllOwn(legs, platform)|
  {
    if legs != [] {
      var front := legs[..|legs| - 1];
      SumPlannedIs(front, platform);
      var records := RecordsOf(legs, platform);
      assert records[..|records| - 1] == RecordsOf(front, platform);
    }
  }

  /** There are as many ids as cells exactly when no id comes twice. */
  lemma {:induction false} FewerIds(all: seq<Cell>)
    ensures |Ids(all)| <= |all| && (|Ids(all)| == |all| <==> DistinctIds(all))
  {
    if all == [] {
      assert Ids(all) == {};
    } else {
      var front, last := all[..|all| - 1], all[|all| - 1];
      FewerIds(front);
      assert all == front + [last];
      IdsSnoc(front, last);
      OneMoreDistinct(front, last);
    }
  }

  lemma OneMoreDistinct(front: seq<Cell>, last: Cell)
    ensures DistinctIds(front + [last]) <==> DistinctIds(front) && last.id !in Ids(front)
  {
    var all := front + [last];
    assert forall i :: 0 <= i < |front| ==> all[i] == front[i];
    assert all[|front|] == last;
  }

  /** What the legs' records count adds up to what the merged report counts, and more where
      cells fell together: exactly when no id comes twice is nothing lost. */
  lemma RecordsAddUp(legs: seq<Leg>, platform: string)
    ensures var sum, merged := SumPlanned(RecordsOf(legs, platform)), Merged(legs, platform);
            |merged| <= sum && (|merged| == sum <==> DistinctIds(AllOwn(legs, platform)))
  {
    var all := AllOwn(legs, platform);
    SumPlannedIs(legs, platform);
    MergedIsFlat(legs, platform);
    PutAllIs(all);
    FewerIds(all);
    assert Merged(legs, platform).Keys == Ids(all);
  }

  // ---------------------------------------------------------------------
  // Deciding

  /** What the merged report counts. */
  datatype Gate = Gate(planned: int, executed: int, passed: int, failed: int, known: int, skipped: bool)

  ghost function PassedIds(cells: Cells): (r: set<string>) {
    set id | id in cells && cells[id].passed
  }

  ghost function FailedIds(cells: Cells): (r: set<string>) {
    set id | id in cells && !cells[id].passed
  }

  ghost function KnownIds(cells: Cells): (r: set<string>) {
    set id | id in cells && !cells[id].passed && cells[id].known != ""
  }

  ghost function GateOf(cells: Cells, executed: int): (g: Gate) {
    Gate(|cells|, executed, |PassedIds(cells)|, |cells| - |PassedIds(cells)|, |KnownIds(cells)|, false)
  }

  /** Planned is passed and failed together. */
  lemma CountsAddUp(cells: Cells, executed: int)
    ensures var g := GateOf(cells, executed);
            g.failed == |FailedIds(cells)| && g.planned == g.passed + g.failed
  {
    assert cells.Keys == PassedIds(cells) + FailedIds(cells);
    assert PassedIds(cells) !! FailedIds(cells);
  }

  /** What the verdict job passes on: whether the gate was skipped by request, the outcomes
      of its own steps, of the unit tests and of the suite, and whether a regression fails
      the gate. */
  datatype Args = Args(skip: bool, steps: seq<string>, unitResult: string, suiteResult: string, regression: bool,
      severityFail: bool)

  /** The gate's verdict; no report where it cannot be read. */
  method Decide(args: Args, report: Option<Gate>) returns (green: bool)
    ensures green <==> Green(args, report)
  {
    green := true;
    for i := 0 to |args.steps|
      invariant green <==> forall j :: 0 <= j < i ==> args.steps[j] == "success"
    {
      if args.steps[i] != "success" {
        green := false;
      }
    }
    if report.None? {
      green := false;
    }
    if args.skip {
      if report.Some? && !report.value.skipped {
        green := false;
      }
    } else {
      if args.unitResult != "success" || args.suiteResult != "success" {
        green := false;
      }
      if report.Some? {
        var g := report.value;
        if g.planned == 0 || g.failed - g.known > 0 || g.executed < g.planned {
          green := false;
        }
      }
      if args.regression && args.severityFail {
        green := false;
      }
    }
  }

  predicate StepsOk(args: Args) {
    forall j :: 0 <= j < |args.steps| ==> args.steps[j] == "success"
  }

  /** A job of a gate that was not skipped, with nothing but the report left to ask. */
  predicate JobOk(args: Args) {
    && !args.skip && StepsOk(args)
    && args.unitResult == "success" && args.suiteResult == "success"
    && !(args.regression && args.severityFail)
  }

  /** A skipped gate is green on a report that says so; any other by its counts. */
  predicate Green(args: Args, report: Option<Gate>) {
    && report.Some?
    && (if args.skip then StepsOk(args) && report.value.skipped
        else
          && JobOk(args) && report.value.planned != 0
          && report.value.failed <= report.value.known && report.value.executed >= report.value.planned)
  }

  // ---------------------------------------------------------------------
  // Zero-skip

  lemma MissingMember<T>(a: set<T>, b: set<T>)
    requires a <= b && a != b
    ensures b - a != {}
  {
    assert !(b <= a);
    var x :| x in b && x !in a;
    assert x in b - a;
  }

  ghost predicate AllPassedOrKnown(cells: Cells) {
    forall id :: id in cells ==> cells[id].passed || cells[id].known != ""
  }

  /** No more failed than known failed: no cell failed unknown. */
  lemma FailuresAreKnown(cells: Cells, executed: int)
    ensures var g := GateOf(cells, executed);
            g.failed <= g.known <==> AllPassedOrKnown(cells)
  {
    CountsAddUp(cells, executed);
    SubsetSize(KnownIds(cells), FailedIds(cells));
    if KnownIds(cells) == FailedIds(cells) {
      forall id | id in cells ensures cells[id].passed || cells[id].known != "" {
        assert id in FailedIds(cells) ==> id in KnownIds(cells);
      }
    } else {
      MissingMember(KnownIds(cells), FailedIds(cells));
      var id :| id in FailedIds(cells) - KnownIds(cells);
    }
  }

  function AllReported(legs: seq<Leg>): (all: seq<Cell>) {
    if legs == [] then []
    else
      var l := legs[|legs| - 1];
      AllReported(legs[..|legs| - 1]) + (if l.report.Some? then l.report.value.cells else [])
  }

  /** A leg that left an accepted report with every planned cell in it. */
  predicate Complete(l: Leg) {
    l.report.Some? && ListsAll(l.report.value.cells, l.plan)
  }

  predicate ListsAll(cells: seq<Cell>, plan: Option<seq<string>>) {
    plan.Some? ==> forall i :: 0 <= i < |plan.value| ==> plan.value[i] in Ids(cells)
  }

  ghost predicate HonestReport(l: Leg) {
    l.report.Some? ==> NoneMade(l.report.value.cells)
  }

  lemma {:induction false} NothingMissing(plan: seq<string>, listed: set<string>)
    requires forall i :: 0 <= i < |plan| ==> plan[i] in listed
    ensures NotRun(plan, listed) == []
  {
    if plan != [] {
      NothingMissing(plan[1..], listed);
    }
  }

  lemma OwnIs(l: Leg, platform: string)
    requires HonestReport(l)
    ensures NoneMade(Own(l, platform)) <==> Complete(l)
    ensures Complete(l) ==> Own(l, platform) == l.report.value.cells
  {
    var own := Own(l, platform);
    var listed := if l.report.Some? then Ids(l.report.value.cells) else {};
    var missing := NotRun(Planned(l), listed);
    if l.report.Some? {
      assert own == l.report.value.cells + missing;
      if Complete(l) {
        NothingMissing(Planned(l), listed);
        assert own == l.report.value.cells;
      } else {
        var i :| 0 <= i < |Planned(l)| && Planned(l)[i] !in listed;
        assert Failed(Planned(l)[i]) in missing;
        var k :| 0 <= k < |missing| && missing[k] == Failed(Planned(l)[i]);
        assert own[|l.report.value.cells| + k].made;
      }
    } else if Planned(l) != [] {
      assert Planned(l)[0] in Planned(l);
      assert Failed(Planned(l)[0]) in own;
    } else {
      assert own[0].made;
    }
  }

  ghost predicate AllComplete(legs: seq<Leg>) {
    forall i :: 0 <= i < |legs| ==> Complete(legs[i])
  }

  lemma AllCompleteButLast(legs: seq<Leg>)
    requires legs != []
    ensures AllComplete(legs) <==> AllComplete(legs[..|legs| - 1]) && Complete(legs[|legs| - 1])
  {
    var n := |legs| - 1;
    assert forall i :: 0 <= i < n ==> legs[i] == legs[..n][i];
  }

  lemma {:induction false} AllOwnIs(legs: seq<Leg>, platform: string)
    requires forall i :: 0 <= i < |legs| ==> HonestReport(legs[i])
    ensures NoneMade(AllOwn(legs, platform)) <==> AllComplete(legs)
    ensures NoneMade(AllOwn(legs, platform)) ==> AllOwn(legs, platform) == AllReported(legs)
  {
    if legs != [] {
      var front, l := legs[..|legs| - 1], legs[|legs| - 1];
      AllOwnIs(front, platform);
      OwnIs(l, platform);
      NoneMadeAppend(AllOwn(front, platform), Own(l, platform));
      AllCompleteButLast(legs);
    }
  }

  lemma NoneMadeAppend(a: seq<Cell>, b: seq<Cell>)
    ensures NoneMade(a + b) <==> NoneMade(a) && NoneMade(b)
  {
    if NoneMade(a + b) {
      assert forall i :: 0 <= i < |a| ==> (a + b)[i] == a[i];
      assert forall i :: 0 <= i < |b| ==> (a + b)[|a| + i] == b[i];
    }
  }

  lemma {:induction false} IdsCount(all: seq<Cell>)
    requires DistinctIds(all)
    ensures |Ids(all)| == |all|
  {
    if all != [] {
      var front, last := all[..|all| - 1], all[|all| - 1];
      IdsCount(front);
      assert all == front + [last];
      IdsSnoc(front, last);
      assert last.id !in Ids(front);
    } else {
      assert Ids(all) == {};
    }
  }

  lemma IdsSnoc(front: seq<Cell>, last: Cell)
    ensures Ids(front + [last]) == Ids(front) + {last.id}
  {
    var all := front + [last];
    assert forall i :: 0 <= i < |front| ==> front[i] == all[i];
    assert all[|front|] == last;
  }

  /** What the gate is for, said of the legs themselves: every leg left an accepted
      report, every planned cell is in its leg's report, no cell is in two, every cell
      passed or failed with a known issue, and as many ran as there are, of which there
      are some. */
  ghost predicate NothingSkipped(legs: seq<Leg>) {
    var all := AllReported(legs);
    && AllComplete(legs)
    && DistinctIds(all)
    && NoneUnknown(all)
    && all != [] && Executed(legs) >= |all|
  }

  /** The gate is green exactly when nothing was skipped and nothing failed unknown. */
  lemma GreenMeansNothingSkipped(legs: seq<Leg>, platform: string, args: Args)
    requires forall i :: 0 <= i < |legs| ==> HonestReport(legs[i])
    ensures Green(args, Some(GateOf(Merged(legs, platform), Executed(legs)))) <==> JobOk(args) && NothingSkipped(legs)
  {
    var all := AllOwn(legs, platform);
    var cells := Merged(legs, platform);
    MergedIsFlat(legs, platform);
    PutAllIs(all);
    AllOwnIs(legs, platform);
    GreenIs(cells, Executed(legs), args);
    if Clean(cells) {
      CleanCells(cells, all);
    } else {
      MadeIsUnknown(legs, platform, cells);
    }
  }

  lemma GreenIs(cells: Cells, executed: int, args: Args)
    ensures Green(args, Some(GateOf(cells, executed))) <==>
            JobOk(args) && |cells| != 0 && executed >= |cells| && AllPassedOrKnown(cells)
  {
    FailuresAreKnown(cells, executed);
  }

  /** A cell merge failed itself is in the result, and is a failure nobody knows. */
  lemma MadeIsUnknown(legs: seq<Leg>, platform: string, cells: Cells)
    requires forall i :: 0 <= i < |legs| ==> HonestReport(legs[i])
    requires cells == PutAll(map[], AllOwn(legs, platform)) && !Clean(cells)
    ensures !AllPassedOrKnown(cells)
  {
    var id :| id in cells && cells[id].made;
    OwnMadeAreFailed(legs, platform);
    MadeAreFailed(AllOwn(legs, platform), id);
  }

  ghost predicate MadeByMerge(all: seq<Cell>) {
    forall i :: 0 <= i < |all| && all[i].made ==> all[i] == Failed(all[i].id)
  }

  lemma {:induction false} OwnMadeAreFailed(legs: seq<Leg>, platform: string)
    requires forall i :: 0 <= i < |legs| ==> HonestReport(legs[i])
    ensures MadeByMerge(AllOwn(legs, platform))
  {
    if legs != [] {
      var front, l := legs[..|legs| - 1], legs[|legs| - 1];
      OwnMadeAreFailed(front, platform);
      var own := Own(l, platform);
      if l.report.Some? {
        var missing := NotRun(Planned(l), Ids(l.report.value.cells));
        assert forall k :: 0 <= k < |missing| ==> missing[k] in missing;
      } else {
        assert forall k :: 0 <= k < |own| ==> own[k] in own;
      }
      assert MadeByMerge(own);
    }
  }

  lemma CleanCells(cells: Cells, all: seq<Cell>)
    requires IdsAreThose(cells, all) && DistinctIds(all) && HoldsEach(cells, all)
    ensures |cells| == |all|
    ensures AllPassedOrKnown(cells) <==>
            NoneUnknown(all)
  {
    IdsCount(all);
    assert cells.Keys == Ids(all);
  }

  lemma {:induction false} MadeAreFailed(all: seq<Cell>, id: string)
    requires MadeByMerge(all)
    requires id in PutAll(map[], all) && PutAll(map[], all)[id].made
    ensures PutAll(map[], all)[id] == Failed(id)
  {
    var front, last := all[..|all| - 1], all[|all| - 1];
    if id != last.id {
      MadeAreFailed(front, id);
    }
  }

  // ---------------------------------------------------------------------
  // From the legs' files to the verdict

  /** Each provider's flavour is one part. */
  ghost predicate DistinctParts(parts: seq<Part>) {
    forall i, j :: 0 <= i < j < |parts| ==> parts[i].provider != parts[j].provider || parts[i].client != parts[j].client
  }

  ghost predicate ReadFrom(legs: seq<Leg>, parts: seq<Part>, commit: string) {
    |legs| == |parts| && forall i :: 0 <= i < |parts| ==> LegIs(legs[i], parts[i], commit)
  }

  ghost predicate AllBelong(cells: seq<Cell>, provider: string, client: string) {
    forall i :: 0 <= i < |cells| ==> Belongs(cells[i].id, provider, client)
  }

  ghost predicate OfSomePart(id: string, parts: seq<Part>) {
    exists j :: 0 <= j < |parts| && Belongs(id, parts[j].provider, parts[j].client)
  }

  /** What an accepted report holds. */
  lemma TrustedReport(l: Leg, p: Part, commit: string)
    requires LegIs(l, p, commit)
    ensures HonestReport(l)
    ensures l.report.Some? ==> DistinctIds(l.report.value.cells)
    ensures l.report.Some? ==> AllBelong(l.report.value.cells, p.provider, p.client)
  {
    if l.report.Some? {
      var items := Get(p.file.json, "cells").items;
      assert |l.report.value.cells| == |items|;
      assert forall i :: 0 <= i < |items| ==> l.report.value.cells[i] == CellOf(items[i]);
      forall i | 0 <= i < |items| ensures Belongs(l.report.value.cells[i].id, p.provider, p.client) {
        assert CellOk(items[i], p.provider, p.client);
      }
    }
  }

  lemma DistinctAppend(a: seq<Cell>, b: seq<Cell>)
    requires DistinctIds(a) && DistinctIds(b)
    requires forall i, j :: 0 <= i < |a| && 0 <= j < |b| ==> a[i].id != b[j].id
    ensures DistinctIds(a + b)
  {
  }

  /** No cell two accepted reports list can be the same one. */
  lemma {:induction false} ReportsNeverClash(legs: seq<Leg>, parts: seq<Part>, commit: string)
    requires ReadFrom(legs, parts, commit) && DistinctParts(parts)
    ensures DistinctIds(AllReported(legs))
    ensures forall i :: 0 <= i < |AllReported(legs)| ==> OfSomePart(AllReported(legs)[i].id, parts)
  {
    if legs != [] {
      var n := |legs| - 1;
      var front, l, p := legs[..n], legs[n], parts[n];
      ReportsNeverClash(front, parts[..n], commit);
      TrustedReport(l, p, commit);
      var before := AllReported(front);
      var own := if l.report.Some? then l.report.value.cells else [];
      assert AllReported(legs) == before + own;
      forall i, j | 0 <= i < |before| && 0 <= j < |own| ensures before[i].id != own[j].id {
        NotOfAnother(before[i].id, parts, own[j].id);
      }
      DistinctAppend(before, own);
      forall i | 0 <= i < |before + own| ensures OfSomePart((before + own)[i].id, parts) {
        if i < |before| {
          StillOfSomePart(before[i].id, parts);
        } else {
          assert Belongs(own[i - |before|].id, parts[n].provider, parts[n].client);
        }
      }
    }
  }

  lemma NotOfAnother(id: string, parts: seq<Part>, other: string)
    requires parts != [] && DistinctParts(parts) && OfSomePart(id, parts[..|parts| - 1])
    requires Belongs(other, parts[|parts| - 1].provider, parts[|parts| - 1].client)
    ensures id != other
  {
  }

  lemma StillOfSomePart(id: string, parts: seq<Part>)
    requires parts != [] && OfSomePart(id, parts[..|parts| - 1])
    ensures OfSomePart(id, parts)
  {
    var front := parts[..|parts| - 1];
    var j :| 0 <= j < |front| && Belongs(id, front[j].provider, front[j].client);
    assert parts[j] == front[j];
  }

  /** Nothing in a report failed without a known issue. */
  ghost predicate NoneUnknown(cells: seq<Cell>) {
    forall i :: 0 <= i < |cells| ==> cells[i].passed || cells[i].known != ""
  }

  /** A part whose report was accepted, lists its whole plan, and lists nothing that
      failed without a known issue. */
  ghost predicate Sound(p: Part, commit: string) {
    && Trusted(p, commit)
    && ListsAll(ReportOf(p.file.json).cells, p.plan)
    && NoneUnknown(ReportOf(p.file.json).cells)
  }

  ghost predicate AllSound(parts: seq<Part>, commit: string) {
    forall i :: 0 <= i < |parts| ==> Sound(parts[i], commit)
  }

  lemma NoneUnknownAppend(a: seq<Cell>, b: seq<Cell>)
    ensures NoneUnknown(a + b) <==> NoneUnknown(a) && NoneUnknown(b)
  {
    if NoneUnknown(a + b) {
      assert forall i :: 0 <= i < |a| ==> (a + b)[i] == a[i];
      assert forall i :: 0 <= i < |b| ==> (a + b)[|a| + i] == b[i];
    }
  }

  lemma SoundPart(l: Leg, p: Part, commit: string)
    requires LegIs(l, p, commit)
    ensures Sound(p, commit) <==> Complete(l) && NoneUnknown(l.report.value.cells)
  {
  }

  lemma AllSoundButLast(parts: seq<Part>, commit: string)
    requires parts != []
    ensures AllSound(parts, commit) <==> AllSound(parts[..|parts| - 1], commit) && Sound(parts[|parts| - 1], commit)
  {
    var n := |parts| - 1;
    assert forall i :: 0 <= i < n ==> parts[i] == parts[..n][i];
  }

  lemma {:induction false} SoundPartsAreComplete(legs: seq<Leg>, parts: seq<Part>, commit: string)
    requires ReadFrom(legs, parts, commit)
    ensures AllSound(parts, commit) <==> AllComplete(legs) && NoneUnknown(AllReported(legs))
  {
    if legs != [] {
      var n := |legs| - 1;
      SoundPartsAreComplete(legs[..n], parts[..n], commit);
      AllSoundButLast(parts, commit);
      AllCompleteButLast(legs);
      SoundPart(legs[n], parts[n], commit);
      NoneUnknownAppend(AllReported(legs[..n]), if legs[n].report.Some? then legs[n].report.value.cells else []);
    }
  }

  /** The release gate, from the files the legs left: green exactly when every part left
      an accepted report that accounts for its whole plan and failed nothing unknown,
      some cell was reported, and the reports ran as many as they list. */
  lemma GreenMeansEveryPartIsSound(parts: seq<Part>, commit: string, legs: seq<Leg>, platform: string, args: Args)
    requires DistinctParts(parts) && ReadFrom(legs, parts, commit)
    ensures Green(args, Some(GateOf(Merged(legs, platform), Executed(legs)))) <==>
            && JobOk(args)
            && AllSound(parts, commit)
            && AllReported(legs) != [] && Executed(legs) >= |AllReported(legs)|
  {
    forall i | 0 <= i < |legs| ensures HonestReport(legs[i]) {
      TrustedReport(legs[i], parts[i], commit);
    }
    GreenMeansNothingSkipped(legs, platform, args);
    ReportsNeverClash(legs, parts, commit);
    SoundPartsAreComplete(legs, parts, commit);
  }

  // ---------------------------------------------------------------------
  // The same, said of the files' own text

  function Join(parts: seq<string>): (s: string)
    requires parts != []
  {
    if |parts| == 1 then parts[0] else parts[0] + ("/" + Join(parts[1..]))
  }

  ghost predicate NoSlashes(parts: seq<string>) {
    forall i :: 0 <= i < |parts| ==> '/' !in parts[i]
  }

  lemma {:induction false} SplitJoins(s: string)
    ensures Join(Split(s)) == s && NoSlashes(Split(s))
  {
    if s != "" {
      var rest := Split(s[1..]);
      SplitJoins(s[1..]);
      if s[0] == '/' {
        assert ([""] + rest)[1..] == rest;
        assert "" + ("/" + s[1..]) == s;
      } else {
        var parts := [[s[0]] + rest[0]] + rest[1..];
        assert parts[1..] == rest[1..];
        assert [s[0]] + s[1..] == s;
        if |rest| > 1 {
          var tail := "/" + Join(rest[1..]);
          assert [s[0]] + rest[0] + tail == [s[0]] + (rest[0] + tail);
        }
      }
    }
  }

  lemma SplitCons(c: char, s: string)
    ensures Split([c] + s) ==
            if c == '/' then [""] + Split(s) else [[c] + Split(s)[0]] + Split(s)[1..]
  {
    assert ([c] + s)[1..] == s;
  }

  /** A first part without a slash, and what follows it. */
  lemma {:induction false} SplitFirst(a: string, rest: string)
    requires '/' !in a
    ensures Split(a + ("/" + rest)) == [a] + Split(rest)
    decreases |a|
  {
    if a == "" {
      assert a + ("/" + rest) == "/" + rest;
      SplitCons('/', rest);
    } else {
      SplitFirst(a[1..], rest);
      assert a + ("/" + rest) == [a[0]] + (a[1..] + ("/" + rest));
      SplitCons(a[0], a[1..] + ("/" + rest));
      assert [a[0]] + a[1..] == a;
    }
  }

  lemma {:induction false} SplitWhole(a: string)
    requires '/' !in a
    ensures Split(a) == [a]
  {
    if a != "" {
      SplitWhole(a[1..]);
      assert [a[0]] + a[1..] == a && [a[1..]][1..] == [];
      assert Split(a) == [[a[0]] + a[1..]] + [];
    }
  }

  lemma {:induction false} JoinSplits(parts: seq<string>)
    requires parts != [] && NoSlashes(parts)
    ensures Split(Join(parts)) == parts
    decreases |parts|
  {
    if |parts| == 1 {
      SplitWhole(parts[0]);
    } else {
      JoinSplits(parts[1..]);
      SplitFirst(parts[0], Join(parts[1..]));
      assert parts == [parts[0]] + parts[1..];
    }
  }

  predicate IsField(s: string) {
    s != "" && '/' !in s
  }

  /** An id of five fields, the second the provider and the fourth the client. */
  ghost predicate IsIdOf(id: string, provider: string, client: string) {
    && IsField(provider) && IsField(client)
    && exists platform, transport, scenario ::
         && IsField(platform) && IsField(transport) && IsField(scenario)
         && id == platform + ("/" + (provider + ("/" + (transport + ("/" + (client + ("/" + scenario)))))))
  }

  lemma JoinUnfold(parts: seq<string>)
    requires |parts| > 1
    ensures Join(parts) == parts[0] + ("/" + Join(parts[1..]))
  {
  }

  lemma JoinFive(a: string, b: string, c: string, d: string, e: string)
    ensures Join([a, b, c, d, e]) == a + ("/" + (b + ("/" + (c + ("/" + (d + ("/" + e)))))))
  {
    JoinUnfold([d, e]);
    JoinUnfold([c, d, e]);
    JoinUnfold([b, c, d, e]);
    JoinUnfold([a, b, c, d, e]);
    assert [a, b, c, d, e][1..] == [b, c, d, e] && [b, c, d, e][1..] == [c, d, e];
    assert [c, d, e][1..] == [d, e] && [d, e][1..] == [e];
  }

  lemma BelongsIs(id: string, provider: string, client: string)
    ensures Belongs(id, provider, client) <==> IsIdOf(id, provider, client)
  {
    if Belongs(id, provider, client) {
      var f := Split(id);
      SplitJoins(id);
      assert f == [f[0], provider, f[2], client, f[4]];
      JoinFive(f[0], provider, f[2], client, f[4]);
      assert IsField(f[0]) && IsField(f[1]) && IsField(f[2]) && IsField(f[3]) && IsField(f[4]);
    }
    if IsIdOf(id, provider, client) {
      var a, c, e :| IsField(a) && IsField(c) && IsField(e)
        && id == a + ("/" + (provider + ("/" + (c + ("/" + (client + ("/" + e)))))));
      JoinFive(a, provider, c, client, e);
      JoinSplits([a, provider, c, client, e]);
    }
  }

  predicate IsCount(j: Json) {
    j.Number? || j.Bool?
  }

  ghost predicate ItemFine(c: Json, provider: string, client: string) {
    && c.Object? && Get(c, "id").Text? && IsIdOf(Get(c, "id").s, provider, client)
    && (Get(c, "status") == Text("pass") || Get(c, "status") == Text("fail"))
    && ("known" in c.fields ==> c.fields["known"].Text?)
  }

  /** A report as the engine writes it for this commit, leg and flavour: its header, its
      cells, each well formed and none named twice, and its four counts. */
  ghost predicate Reported(j: Json, provider: string, client: string, commit: string) {
    && j.Object?
    && (Get(j, "schema") == Number(1) || Get(j, "schema") == Bool(true))
    && Get(j, "engine_commit") == Text(commit) && Get(j, "target") == Text("local")
    && Get(j, "cells").List?
    && var items := Get(j, "cells").items;
    && (forall i :: 0 <= i < |items| ==> ItemFine(items[i], provider, client))
    && (forall i, k :: 0 <= i < k < |items| ==> Get(items[i], "id") != Get(items[k], "id"))
    && IsCount(Get(j, "planned")) && IsCount(Get(j, "executed"))
    && IsCount(Get(j, "passed")) && IsCount(Get(j, "failed"))
  }

  lemma ItemIs(c: Json, provider: string, client: string)
    ensures CellOk(c, provider, client) <==> ItemFine(c, provider, client)
  {
    if Get(c, "id").Text? {
      BelongsIs(Get(c, "id").s, provider, client);
    }
  }

  /** A report is accepted exactly when it is one. */
  lemma AcceptableIs(j: Json, provider: string, client: string, commit: string)
    ensures Acceptable(j, provider, client, commit) <==> Reported(j, provider, client, commit)
  {
    if Get(j, "cells").List? {
      var items := Get(j, "cells").items;
      forall i | 0 <= i < |items| ensures CellOk(items[i], provider, client) <==> ItemFine(items[i], provider, client) {
        ItemIs(items[i], provider, client);
      }
    }
  }

  ghost predicate PassedOrKnown(c: Json) {
    Get(c, "status") == Text("pass") || (Get(c, "known").Text? && Get(c, "known").s != "")
  }

  /** A part's file is a report that names every planned cell and none that failed without
      a known issue. */
  ghost predicate SoundFile(p: Part, commit: string) {
    && p.file.Parsed? && Reported(p.file.json, p.provider, p.client, commit)
    && var items := Get(p.file.json, "cells").items;
    && (forall i :: 0 <= i < |items| ==> PassedOrKnown(items[i]))
    && (p.plan.Some? ==> forall k :: 0 <= k < |p.plan.value| ==> Names(items, p.plan.value[k]))
  }

  ghost predicate Names(items: seq<Json>, id: string) {
    exists i :: 0 <= i < |items| && Get(items[i], "id") == Text(id)
  }

  /** How many cells the parts' files list, and how many they say ran. */
  function ItemsIn(parts: seq<Part>): (n: nat) {
    if parts == [] then 0
    else
      var file := parts[|parts| - 1].file;
      ItemsIn(parts[..|parts| - 1]) +
        if file.Parsed? && Get(file.json, "cells").List? then |Get(file.json, "cells").items| else 0
  }

  function CountIn(j: Json): (n: int) {
    match j
    case Number(n) => n
    case Bool(b) => if b then 1 else 0
    case _ => 0
  }

  function RanIn(parts: seq<Part>): (n: int) {
    if parts == [] then 0
    else
      var file := parts[|parts| - 1].file;
      RanIn(parts[..|parts| - 1]) + if file.Parsed? then CountIn(Get(file.json, "executed")) else 0
  }

  lemma NamesIs(j: Json, id: string, provider: string, client: string, commit: string)
    requires Reported(j, provider, client, commit) && AsNumber(Get(j, "executed")).Some?
    ensures id in Ids(ReportOf(j).cells) <==> Names(Get(j, "cells").items, id)
  {
    var items, cells := Get(j, "cells").items, ReportOf(j).cells;
    assert |cells| == |items|;
    forall i | 0 <= i < |items| ensures cells[i].id == id <==> Get(items[i], "id") == Text(id) {
      assert ItemFine(items[i], provider, client) && cells[i] == CellOf(items[i]);
    }
    if id in Ids(cells) {
      var i :| 0 <= i < |cells| && cells[i].id == id;
      assert Get(items[i], "id") == Text(id);
    }
    if Names(items, id) {
      var i :| 0 <= i < |items| && Get(items[i], "id") == Text(id);
      assert cells[i].id == id;
    }
  }

  lemma UnknownIs(j: Json, provider: string, client: string, commit: string)
    requires Reported(j, provider, client, commit) && AsNumber(Get(j, "executed")).Some?
    ensures NoneUnknown(ReportOf(j).cells) <==>
            forall i :: 0 <= i < |Get(j, "cells").items| ==> PassedOrKnown(Get(j, "cells").items[i])
  {
    var items, cells := Get(j, "cells").items, ReportOf(j).cells;
    assert |cells| == |items|;
    forall i | 0 <= i < |items| ensures (cells[i].passed || cells[i].known != "") <==> PassedOrKnown(items[i]) {
      assert ItemFine(items[i], provider, client) && cells[i] == CellOf(items[i]);
    }
  }

  lemma SoundIs(p: Part, commit: string)
    ensures Sound(p, commit) <==> SoundFile(p, commit)
  {
    if p.file.Parsed? {
      var j := p.file.json;
      AcceptableIs(j, p.provider, p.client, commit);
      if Reported(j, p.provider, p.client, commit) {
        UnknownIs(j, p.provider, p.client, commit);
        if p.plan.Some? {
          forall k | 0 <= k < |p.plan.value|
            ensures p.plan.value[k] in Ids(ReportOf(j).cells) <==> Names(Get(j, "cells").items, p.plan.value[k])
          {
            NamesIs(j, p.plan.value[k], p.provider, p.client, commit);
          }
        }
      }
    }
  }

  lemma {:induction false} FilesCount(legs: seq<Leg>, parts: seq<Part>, commit: string)
    requires ReadFrom(legs, parts, commit) && forall i :: 0 <= i < |parts| ==> Trusted(parts[i], commit)
    ensures |AllReported(legs)| == ItemsIn(parts) && Executed(legs) == RanIn(parts)
  {
    if legs != [] {
      var n := |legs| - 1;
      FilesCount(legs[..n], parts[..n], commit);
      assert LegIs(legs[n], parts[n], commit) && Trusted(parts[n], commit);
      assert |legs[n].report.value.cells| == |Get(parts[n].file.json, "cells").items|;
    }
  }

  /** The release gate, said of the files the legs left: green exactly when every one is a
      report of this engine that names its whole plan and no cell that failed without a
      known issue, some cell is listed, and as many ran as are listed. */
  lemma GreenMeansEveryFileIsSound(parts: seq<Part>, commit: string, legs: seq<Leg>, platform: string, args: Args)
    requires DistinctParts(parts) && ReadFrom(legs, parts, commit)
    ensures Green(args, Some(GateOf(Merged(legs, platform), Executed(legs)))) <==>
            && JobOk(args)
            && (forall i :: 0 <= i < |parts| ==> SoundFile(parts[i], commit))
            && ItemsIn(parts) != 0 && RanIn(parts) >= ItemsIn(parts)
  {
    GreenMeansEveryPartIsSound(parts, commit, legs, platform, args);
    forall i | 0 <= i < |parts| ensures Sound(parts[i], commit) <==> SoundFile(parts[i], commit) {
      SoundIs(parts[i], commit);
    }
    if AllSound(parts, commit) {
      forall i | 0 <= i < |parts| ensures Trusted(parts[i], commit) {
        assert Sound(parts[i], commit);
      }
      FilesCount(legs, parts, commit);
    }
  }

  function PassedItem(id: string): (c: Json) {
    Object(map["id" := Text(id), "status" := Text("pass")])
  }

  function PassedItems(ids: seq<string>): (items: seq<Json>)
    ensures |items| == |ids| && forall i :: 0 <= i < |ids| ==> items[i] == PassedItem(ids[i])
  {
    seq(|ids|, i requires 0 <= i < |ids| => PassedItem(ids[i]))
  }

  /** What a leg writes whose cells all ran and passed. */
  function PassedReport(ids: seq<string>, commit: string): (j: Json) {
    Object(map["schema" := Number(1), "engine_commit" := Text(commit), "target" := Text("local"),
               "planned" := Number(|ids|), "executed" := Number(|ids|), "passed" := Number(|ids|),
               "failed" := Number(0), "cells" := List(PassedItems(ids))])
  }

  lemma PassedItemReads(id: string)
    ensures var c := PassedItem(id);
            Get(c, "id") == Text(id) && Get(c, "status") == Text("pass") && "known" !in c.fields
  {
  }

  lemma PassedReportReads(ids: seq<string>, commit: string)
    ensures var j := PassedReport(ids, commit);
            && Get(j, "schema") == Number(1) && Get(j, "engine_commit") == Text(commit)
            && Get(j, "target") == Text("local") && Get(j, "cells") == List(PassedItems(ids))
            && Get(j, "planned") == Get(j, "executed") == Get(j, "passed") == Number(|ids|)
            && Get(j, "failed") == Number(0)
  {
  }

  lemma PassedIsReported(ids: seq<string>, provider: string, client: string, commit: string)
    requires forall i :: 0 <= i < |ids| ==> IsIdOf(ids[i], provider, client)
    requires forall i, k :: 0 <= i < k < |ids| ==> ids[i] != ids[k]
    ensures Reported(PassedReport(ids, commit), provider, client, commit)
  {
    var items := PassedItems(ids);
    PassedReportReads(ids, commit);
    forall i | 0 <= i < |items|
      ensures ItemFine(items[i], provider, client) && Get(items[i], "id") == Text(ids[i])
    {
      PassedItemReads(ids[i]);
    }
  }

  /** A leg that ran its whole plan and passed it is sound, whatever the plan. */
  lemma PassedPlanIsSound(p: Part, ids: seq<string>, commit: string)
    requires p.file == Parsed(PassedReport(ids, commit)) && (p.plan.None? || p.plan.value == ids)
    requires forall i :: 0 <= i < |ids| ==> IsIdOf(ids[i], p.provider, p.client)
    requires forall i, k :: 0 <= i < k < |ids| ==> ids[i] != ids[k]
    ensures SoundFile(p, commit)
    ensures ItemsIn([p]) == |ids| == RanIn([p])
  {
    var items := PassedItems(ids);
    PassedIsReported(ids, p.provider, p.client, commit);
    PassedReportReads(ids, commit);
    forall i | 0 <= i < |items| ensures PassedOrKnown(items[i]) && Get(items[i], "id") == Text(ids[i]) {
      PassedItemReads(ids[i]);
    }
    forall k | 0 <= k < |ids| ensures Names(items, ids[k]) {
      assert Get(items[k], "id") == Text(ids[k]);
    }
    assert [p][..0] == [];
  }

  lemma StarsJoined(a: string, b: string, d: string)
    ensures a + ("/" + (b + ("/" + ("*" + ("/" + (d + ("/" + "*"))))))) == a + "/" + b + "/*/" + d + "/*"
  {
    var tail := d + ("/" + "*");
    assert d + "/*" == tail;
    assert "/" + ("*" + ("/" + tail)) == "/*/" + tail;
    assert a + "/" + b + "/*/" + d + "/*" == a + "/" + b + ("/*/" + tail);
    assert a + ("/" + (b + ("/*/" + tail))) == a + "/" + b + ("/*/" + tail);
  }

  /** A leg that left neither a plan nor a report is one failed cell, named for it. */
  lemma SilentLegIsNamed(l: Leg, platform: string)
    requires l.report.None? && (l.plan.None? || l.plan.value == [])
    ensures Own(l, platform) == [Failed(Join([platform, l.provider, "*", l.client, "*"]))]
  {
    JoinFive(platform, l.provider, "*", l.client, "*");
    StarsJoined(platform, l.provider, l.client);
  }
}
