/** The resumable sky scan: walk the grid of patches, skip the ones the progress file already
    lists, fetch each remaining patch's observations, score the DBSCAN labels, append a result
    line when anything clustered and then append the patch to the progress file.

    The observation service and DBSCAN are oracles handed to the scanner. `PatchStep` and `Run`
    are the specification of one iteration and of a whole scan, as the sequence of events they
    cause; the class `SkyScan` is the loop itself, proved to produce exactly that sequence. */
module Scanner {
  import opened Wrappers
  import Text
  import PatchIds
  import AngleGrid
  import ProgressLedger
  import DensityScore

  /** A patch centre: right ascension and declination in units of 1e-4 degree. */
  type Center = (int, int)

  /** One row of the observation service's answer. */
  datatype Observation = Observation(
    sourceId: int, ra: real, dec: real, parallax: real,
    pmra: real, pmdec: real, gMag: real, bpRp: real)

  /** The kinematic point DBSCAN clusters: proper motion in RA and Dec, and parallax. */
  datatype Feature = Feature(pmra: real, pmdec: real, parallax: real)

  /** What the observation service answers for a patch: its rows, or a failure that is not
      caught and ends the scan. */
  datatype Fetch = Rows(data: seq<Observation>) | ServiceError

  /** One line of the results file: the patch centre and its score. */
  datatype Detection = Detection(ra: int, dec: int, score: real)

  /** What one scan does that is visible outside it, in order: a request to the observation
      service, a line appended to the results file, a line appended to the progress file. */
  datatype Event = Request(center: Center) | ResultLine(detection: Detection) | ProgressLine(id: string)

  /** The two collaborators: the observation query for a centre and search radius, and DBSCAN's
      labels for a sequence of feature points. */
  datatype Oracles = Oracles(fetch: (int, int, real) -> Fetch, dbscan: seq<Feature> -> seq<int>)

  /** The events of a scan and whether it ended on a service failure. */
  datatype Trace = Trace(events: seq<Event>, aborted: bool)

  /** Patches with fewer observations than this are not clustered. */
  const MinRows: nat := 10

  /** DBSCAN labels every point it is given, one label each. */
  ghost predicate LabelsPerRow(dbscan: seq<Feature> -> seq<int>) {
    forall f :: |dbscan(f)| == |f|
  }

  /** The patch identifier of a centre. */
  function Id(c: Center): string {
    PatchIds.PatchId(c.0, c.1)
  }

  /** The patch an event concerns, by its identifier. */
  function EventId(e: Event): string {
    match e
    case Request(c) => Id(c)
    case ResultLine(d) => Id((d.ra, d.dec))
    case ProgressLine(id) => id
  }

  /** The search radius for a patch: half the patch size. */
  function Radius(step: int): real {
    step as real / 2.0
  }

  /** The `pmra`, `pmdec` and `parallax` columns of the observations, row by row. */
  function Features(data: seq<Observation>): (f: seq<Feature>)
    ensures |f| == |data|
  {
    seq(|data|, i requires 0 <= i < |data| => Feature(data[i].pmra, data[i].pmdec, data[i].parallax))
  }

  /** The service answered with enough rows for the patch to be clustered. */
  predicate Dense(f: Fetch) {
    f.Rows? && |f.data| >= MinRows
  }

  /** One iteration of the scan loop for the patch centred at `c`. */
  function PatchStep(c: Center, step: int, loaded: set<string>, o: Oracles): Trace
    requires LabelsPerRow(o.dbscan)
  {
    if Id(c) in loaded then Trace([], false)
    else
      match o.fetch(c.0, c.1, Radius(step))
      case ServiceError => Trace([Request(c)], true)
      case Rows(data) =>
        if |data| < MinRows then Trace([Request(c)], false)
        else Trace([Request(c)] + Outcome(c, o.dbscan(Features(data))), false)
  }

  /** What a patch that was clustered appends: a result line if any point got a cluster label,
      then the patch's line in the progress file. */
  function Outcome(c: Center, labels: seq<int>): seq<Event>
    requires |labels| > 0
  {
    var detections :=
      if DensityScore.Clustered(labels) > 0
      then [ResultLine(Detection(c.0, c.1, DensityScore.Score(labels)))]
      else [];
    detections + [ProgressLine(Id(c))]
  }

  /** A scan over the centres `pts` in order, stopping at the first service failure. */
  function Run(pts: seq<Center>, step: int, loaded: set<string>, o: Oracles): Trace
    requires LabelsPerRow(o.dbscan)
  {
    if pts == [] then Trace([], false)
    else Then(Run(pts[..|pts| - 1], step, loaded, o), PatchStep(pts[|pts| - 1], step, loaded, o))
  }

  /** `before` followed by `after`: nothing more happens once `before` has ended the scan. */
  function Then(before: Trace, after: Trace): Trace {
    if before.aborted then before else Trace(before.events + after.events, after.aborted)
  }

  /** The identifiers appended to the progress file, in order. */
  function Commits(events: seq<Event>): seq<string> {
    if events == [] then []
    else
      var e := events[|events| - 1];
      Commits(events[..|events| - 1]) + (if e.ProgressLine? then [e.id] else [])
  }

  /** The lines appended to the results file, in order. */
  function Detections(events: seq<Event>): seq<Detection> {
    if events == [] then []
    else
      var e := events[|events| - 1];
      Detections(events[..|events| - 1]) + (if e.ResultLine? then [e.detection] else [])
  }

  /** The centres of a grid have pairwise distinct identifiers. */
  predicate DistinctIds(pts: seq<Center>) {
    forall a, b :: 0 <= a < b < |pts| ==> Id(pts[a]) != Id(pts[b])
  }

  /** The grid a scan walks: `arange` on each axis, right ascension outermost. */
  function ScanGrid(raMin: int, raMax: int, decMin: int, decMax: int, step: int): seq<Center>
    requires step > 0
  {
    AngleGrid.Grid(AngleGrid.Arange(raMin, raMax, step), AngleGrid.Arange(decMin, decMax, step))
  }

  /** Scanning one more centre appends its events, unless the scan had already ended. */
  lemma RunSnoc(pts: seq<Center>, p: Center, step: int, loaded: set<string>, o: Oracles)
    requires LabelsPerRow(o.dbscan)
    ensures Run(pts + [p], step, loaded, o) == Then(Run(pts, step, loaded, o), PatchStep(p, step, loaded, o))
  {
    assert (pts + [p])[..|pts|] == pts;
  }

  /** Scans compose: a trace followed by two more is the same however the three are grouped. */
  lemma ThenAssoc(x: Trace, y: Trace, z: Trace)
    ensures Then(Then(x, y), z) == Then(x, Then(y, z))
  {
    if !x.aborted && !y.aborted {
      Text.ConcatAssoc(x.events, y.events, z.events);
    }
  }

  /** Scanning `a` then `b` is scanning `a + b`: the events of `b` follow those of `a`, unless the
      scan of `a` already ended on a service failure. */
  lemma {:induction false} RunAppend(a: seq<Center>, b: seq<Center>, step: int, loaded: set<string>, o: Oracles)
    requires LabelsPerRow(o.dbscan)
    ensures Run(a + b, step, loaded, o) == Then(Run(a, step, loaded, o), Run(b, step, loaded, o))
    decreases |b|
  {
    if b == [] {
      assert a + b == a;
    } else {
      var front, p := b[..|b| - 1], b[|b| - 1];
      var last := PatchStep(p, step, loaded, o);
      calc {
        Run(a + b, step, loaded, o);
        { assert a + b == (a + front) + [p]; }
        Run((a + front) + [p], step, loaded, o);
        { RunSnoc(a + front, p, step, loaded, o); }
        Then(Run(a + front, step, loaded, o), last);
        { RunAppend(a, front, step, loaded, o); }
        Then(Then(Run(a, step, loaded, o), Run(front, step, loaded, o)), last);
        { ThenAssoc(Run(a, step, loaded, o), Run(front, step, loaded, o), last); }
        Then(Run(a, step, loaded, o), Then(Run(front, step, loaded, o), last));
        { RunSnoc(front, p, step, loaded, o); assert front + [p] == b; }
        Then(Run(a, step, loaded, o), Run(b, step, loaded, o));
      }
    }
  }

  /** Once a service failure has ended the scan, the remaining centres change nothing. */
  lemma {:induction false} RunAfterAbort(pts: seq<Center>, rest: seq<Center>, step: int, loaded: set<string>, o: Oracles)
    requires LabelsPerRow(o.dbscan)
    requires Run(pts, step, loaded, o).aborted
    ensures Run(pts + rest, step, loaded, o) == Run(pts, step, loaded, o)
    decreases |rest|
  {
    if rest != [] {
      var n := |rest| - 1;
      RunAfterAbort(pts, rest[..n], step, loaded, o);
      assert pts + rest == (pts + rest[..n]) + [rest[n]];
      RunSnoc(pts + rest[..n], rest[n], step, loaded, o);
    } else {
      assert pts + rest == pts;
    }
  }

  /** A service failure in row `i` is where the scan of the whole grid ends. */
  lemma AbortEndsScan(ras: seq<int>, decs: seq<int>, i: nat, step: int, loaded: set<string>, o: Oracles)
    requires LabelsPerRow(o.dbscan)
    requires i < |ras|
    requires Run(AngleGrid.Grid(ras[..i + 1], decs), step, loaded, o).aborted
    ensures Run(AngleGrid.Grid(ras, decs), step, loaded, o) == Run(AngleGrid.Grid(ras[..i + 1], decs), step, loaded, o)
  {
    var grid, prefix := AngleGrid.Grid(ras, decs), AngleGrid.Grid(ras[..i + 1], decs);
    AngleGrid.GridPrefix(ras, i + 1, decs);
    assert grid == prefix + grid[|prefix|..];
    RunAfterAbort(prefix, grid[|prefix|..], step, loaded, o);
  }

  /** A service failure at position `j` of a row is where the scan of the row ends. */
  lemma AbortEndsRow(ra: int, decs: seq<int>, j: nat, step: int, loaded: set<string>, o: Oracles)
    requires LabelsPerRow(o.dbscan)
    requires j < |decs|
    requires Run(AngleGrid.Row(ra, decs[..j + 1]), step, loaded, o).aborted
    ensures Run(AngleGrid.Row(ra, decs), step, loaded, o) == Run(AngleGrid.Row(ra, decs[..j + 1]), step, loaded, o)
  {
    var row, prefix := AngleGrid.Row(ra, decs), AngleGrid.Row(ra, decs[..j + 1]);
    assert row == prefix + row[|prefix|..];
    RunAfterAbort(prefix, row[|prefix|..], step, loaded, o);
  }

  /** One more event adds its line, if it has one, to the file it belongs to. */
  lemma AppendedEvent(events: seq<Event>, e: Event)
    ensures Commits(events + [e]) == Commits(events) + (if e.ProgressLine? then [e.id] else [])
    ensures Detections(events + [e]) == Detections(events) + (if e.ResultLine? then [e.detection] else [])
  {
    assert (events + [e])[..|events|] == events;
  }

  /** A request appends no line to either file. */
  lemma RequestAppendsNothing(events: seq<Event>, c: Center)
    ensures Commits(events + [Request(c)]) == Commits(events)
    ensures Detections(events + [Request(c)]) == Detections(events)
  {
    assert (events + [Request(c)])[..|events|] == events;
  }

  /** The scanner's state: the identifiers loaded at startup, the two collaborators, and the two
      append-only files. `events` records, in order, every request and append made so far. */
  class SkyScan {
    const loaded: set<string>
    const oracles: Oracles
    ghost const startProgress: string
    ghost const startResults: seq<Detection>
    var progress: string
    var results: seq<Detection>
    ghost var events: seq<Event>

    /** Each file is its text at startup followed by exactly the lines the recorded events appended. */
    ghost predicate Valid()
      reads this
    {
      LabelsPerRow(oracles.dbscan) &&
      progress == startProgress + ProgressLedger.LedgerText(Commits(events)) &&
      results == startResults + Detections(events)
    }

    /** Startup: the progress file, if it exists, becomes the set of scanned identifiers. */
    constructor Load(file: Option<string>, pastResults: seq<Detection>, oracles: Oracles)
      requires LabelsPerRow(oracles.dbscan)
      ensures Valid()
      ensures loaded == ProgressLedger.Loaded(file) && this.oracles == oracles
      ensures progress == (if file.Some? then file.value else "") && results == pastResults
      ensures events == []
    {
      this.loaded := ProgressLedger.Loaded(file);
      this.oracles := oracles;
      var text := if file.Some? then file.value else "";
      startProgress, startResults := text, pastResults;
      progress, results := text, pastResults;
      events := [];
    }

    /** `scan_sky_and_find_clusters`: the nested loops over the grid. The events are exactly
        those of `Run` over the grid, so the files grow by exactly the lines `Run` appends;
        `finished` is false when a service failure ended the scan. Each call of the source
        reads the progress file afresh, so a scanner is loaded for one scan only. */
    method Scan(raMin: int, raMax: int, decMin: int, decMax: int, step: int) returns (finished: bool)
      requires Valid() && step > 0 && events == []
      modifies this
      ensures Valid()
      ensures var t := Run(ScanGrid(raMin, raMax, decMin, decMax, step), step, loaded, oracles);
              events == old(events) + t.events && finished == !t.aborted
      ensures old(progress) <= progress && old(results) <= results
    {
      var ras := AngleGrid.Arange(raMin, raMax, step);
      var decs := AngleGrid.Arange(decMin, decMax, step);
      var i := 0;
      while i < |ras|
        invariant 0 <= i <= |ras|
        invariant Valid()
        invariant var t := Run(AngleGrid.Grid(ras[..i], decs), step, loaded, oracles);
                  events == old(events) + t.events && !t.aborted
        invariant old(progress) <= progress && old(results) <= results
      {
        ghost var done := Run(AngleGrid.Grid(ras[..i], decs), step, loaded, oracles);
        var ok := ScanRow(ras[i], decs, step);
        ghost var row := Run(AngleGrid.Row(ras[i], decs), step, loaded, oracles);
        AngleGrid.GridSnoc(ras, i, decs);
        RunAppend(AngleGrid.Grid(ras[..i], decs), AngleGrid.Row(ras[i], decs), step, loaded, oracles);
        Text.ConcatAssoc(old(events), done.events, row.events);
        if !ok {
          AbortEndsScan(ras, decs, i, step, loaded, oracles);
          return false;
        }
        i := i + 1;
      }
      assert ras[..i] == ras;
      return true;
    }

    /** The inner loop for one right ascension: every declination in order, stopping at a
        service failure (`ok` is false). */
    method ScanRow(ra: int, decs: seq<int>, step: int) returns (ok: bool)
      requires Valid()
      modifies this
      ensures Valid()
      ensures var t := Run(AngleGrid.Row(ra, decs), step, loaded, oracles);
              events == old(events) + t.events && ok == !t.aborted
      ensures old(progress) <= progress && old(results) <= results
    {
      var j := 0;
      while j < |decs|
        invariant 0 <= j <= |decs|
        invariant Valid()
        invariant var t := Run(AngleGrid.Row(ra, decs[..j]), step, loaded, oracles);
                  events == old(events) + t.events && !t.aborted
        invariant old(progress) <= progress && old(results) <= results
      {
        ghost var done := Run(AngleGrid.Row(ra, decs[..j]), step, loaded, oracles);
        ok := ScanPatch(ra, decs[j], step);
        ghost var patch := PatchStep((ra, decs[j]), step, loaded, oracles);
        AngleGrid.RowSnoc(ra, decs, j);
        RunSnoc(AngleGrid.Row(ra, decs[..j]), (ra, decs[j]), step, loaded, oracles);
        Text.ConcatAssoc(old(events), done.events, patch.events);
        if !ok {
          AbortEndsRow(ra, decs, j, step, loaded, oracles);
          return;
        }
        j := j + 1;
      }
      assert decs[..j] == decs;
      return true;
    }

    /** The body of the inner loop for the patch centred at `(ra, dec)`: skip it if the progress
        file listed it at startup; otherwise fetch it (a failure ends the scan: `ok` is false),
        give up on it if it is sparse, and otherwise score it, append a result line if anything
        clustered, and append its identifier to the progress file. */
    method ScanPatch(ra: int, dec: int, step: int) returns (ok: bool)
      requires Valid()
      modifies this
      ensures Valid()
      ensures var t := PatchStep((ra, dec), step, loaded, oracles);
              events == old(events) + t.events && ok == !t.aborted
      ensures old(progress) <= progress && old(results) <= results
    {
      ok := true;
      var id := PatchIds.PatchId(ra, dec);
      if id !in loaded {
        var fetched := oracles.fetch(ra, dec, Radius(step));
        RequestAppendsNothing(events, (ra, dec));
        events := events + [Request((ra, dec))];
        if fetched.ServiceError? {
          ok := false;
        } else if |fetched.data| >= MinRows {
          var labels := oracles.dbscan(Features(fetched.data));
          ScoreAndCommit(ra, dec, labels);
          Text.ConcatAssoc(old(events), [Request((ra, dec))], Outcome((ra, dec), labels));
        }
      }
    }

    /** The rest of the body for a patch with enough rows: score the labels, append a result line
        when anything clustered, and append the patch's identifier to the progress file. */
    method ScoreAndCommit(ra: int, dec: int, labels: seq<int>)
      requires Valid() && |labels| > 0
      modifies this
      ensures Valid()
      ensures events == old(events) + Outcome((ra, dec), labels)
      ensures old(progress) <= progress && old(results) <= results
    {
      var clustered := DensityScore.Clustered(labels);
      var score := DensityScore.Score(labels);
      if clustered > 0 {
        SaveCluster(ra, dec, score);
      }
      Commit(PatchIds.PatchId(ra, dec));
    }

    /** `save_cluster`'s append of `ra,dec,probability` to the results file. */
    method SaveCluster(ra: int, dec: int, score: real)
      requires Valid()
      modifies this
      ensures Valid()
      ensures results == old(results) + [Detection(ra, dec, score)] && progress == old(progress)
      ensures events == old(events) + [ResultLine(Detection(ra, dec, score))]
    {
      var d := Detection(ra, dec, score);
      results := results + [d];
      events := events + [ResultLine(d)];
      AppendedEvent(old(events), ResultLine(d));
      assert Commits(old(events)) + [] == Commits(old(events));
      Text.ConcatAssoc(startResults, Detections(old(events)), [d]);
    }

    /** The append of `patch_id` and a line break to the progress file. */
    method Commit(id: string)
      requires Valid()
      modifies this
      ensures Valid()
      ensures progress == old(progress) + id + "\n" && results == old(results)
      ensures events == old(events) + [ProgressLine(id)]
    {
      progress := progress + id + "\n";
      events := events + [ProgressLine(id)];
      AppendedEvent(old(events), ProgressLine(id));
      ProgressLedger.LedgerSnoc(Commits(old(events)), id);
      ProgressLedger.AppendLine(startProgress, ProgressLedger.LedgerText(Commits(old(events))), id);
    }
  }
}
