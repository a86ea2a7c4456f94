/** What a scan guarantees, proved about its specification `Run`: it never touches a patch the
    progress file already listed, a result line is always followed by its patch's progress line,
    every written score lies in (0, 1], a sparse patch leaves no line behind, a patch is committed
    exactly when it was dense, a result line is written exactly for a patch in which something
    clustered, and a rerun from the grown progress file skips what was committed. */
module ScannerTheorems {
  import opened Wrappers
  import opened Scanner
  import PatchIds
  import ProgressLedger
  import DensityScore
  import AngleGrid
  import Text

  /** A result line is immediately followed by the progress line of the same patch, and a
      progress line immediately follows the request or result line of its own patch. */
  predicate AppendOrder(events: seq<Event>) {
    (forall k :: 0 <= k < |events| && events[k].ResultLine? ==>
       k + 1 < |events| && events[k + 1] == ProgressLine(EventId(events[k]))) &&
    (forall k :: 0 <= k < |events| && events[k].ProgressLine? ==>
       k > 0 && !events[k - 1].ProgressLine? && EventId(events[k - 1]) == events[k].id)
  }

  /** Every result line written carries a score in (0, 1]. */
  predicate ScoresInRange(events: seq<Event>) {
    forall k :: 0 <= k < |events| && events[k].ResultLine? ==>
      0.0 < events[k].detection.score <= 1.0
  }

  /** What one iteration does: nothing for a loaded patch, otherwise events about that patch only,
      in the order request, result line if any, progress line; and any score written is in (0, 1]. */
  lemma PatchStepShape(c: Center, step: int, loaded: set<string>, o: Oracles)
    requires LabelsPerRow(o.dbscan)
    ensures var es := PatchStep(c, step, loaded, o).events;
            (Id(c) in loaded <==> es == []) &&
            (es != [] ==> es[0] == Request(c)) &&
            (forall k :: 0 <= k < |es| ==> EventId(es[k]) == Id(c)) &&
            AppendOrder(es) && ScoresInRange(es)
  {
    if Id(c) !in loaded {
      match o.fetch(c.0, c.1, Radius(step))
      case ServiceError => RequestOnly(c);
      case Rows(data) =>
        if |data| < MinRows {
          RequestOnly(c);
        } else {
          var labels := o.dbscan(Features(data));
          if DensityScore.Clustered(labels) > 0 {
            var d := Detection(c.0, c.1, DensityScore.Score(labels));
            assert PatchStep(c, step, loaded, o).events == [Request(c), ResultLine(d), ProgressLine(Id(c))];
            Detected(c, d);
          } else {
            assert PatchStep(c, step, loaded, o).events == [Request(c), ProgressLine(Id(c))];
            Committed(c);
          }
        }
    }
  }

  /** The events of an iteration that requested a patch and wrote nothing. */
  lemma RequestOnly(c: Center)
    ensures var es := [Request(c)];
            (forall k :: 0 <= k < |es| ==> EventId(es[k]) == Id(c)) && AppendOrder(es) && ScoresInRange(es)
  {
  }

  /** The events of an iteration that committed a patch without a result line. */
  lemma Committed(c: Center)
    ensures var es := [Request(c), ProgressLine(Id(c))];
            (forall k :: 0 <= k < |es| ==> EventId(es[k]) == Id(c)) && AppendOrder(es) && ScoresInRange(es)
  {
  }

  /** The events of an iteration that wrote a result line for a patch and committed it. */
  lemma Detected(c: Center, d: Detection)
    requires d.ra == c.0 && d.dec == c.1 && 0.0 < d.score <= 1.0
    ensures var es := [Request(c), ResultLine(d), ProgressLine(Id(c))];
            (forall k :: 0 <= k < |es| ==> EventId(es[k]) == Id(c)) && AppendOrder(es) && ScoresInRange(es)
  {
    var es := [Request(c), ResultLine(d), ProgressLine(Id(c))];
    assert EventId(es[1]) == Id(c) by {
      assert (d.ra, d.dec) == c;
    }
    assert forall k :: 0 <= k < 3 ==> EventId(es[k]) == Id(c);
    assert forall k :: 0 <= k < 3 && es[k].ResultLine? ==> k == 1;
    assert forall k :: 0 <= k < 3 && es[k].ProgressLine? ==> k == 2;
  }

  lemma AppendOrderConcat(a: seq<Event>, b: seq<Event>)
    requires AppendOrder(a) && AppendOrder(b)
    ensures AppendOrder(a + b)
  {
    var s := a + b;
    forall k | 0 <= k < |s| && s[k].ResultLine?
      ensures k + 1 < |s| && s[k + 1] == ProgressLine(EventId(s[k]))
    {
      if k < |a| {
        assert a[k].ResultLine?;
      } else {
        assert b[k - |a|].ResultLine?;
      }
    }
    forall k | 0 <= k < |s| && s[k].ProgressLine?
      ensures k > 0 && !s[k - 1].ProgressLine? && EventId(s[k - 1]) == s[k].id
    {
      if k < |a| {
        assert a[k].ProgressLine?;
      } else {
        assert b[k - |a|].ProgressLine?;
      }
    }
  }

  /** Crash safety of the append order: in the events of any scan, a result line is immediately
      followed by its progress line, and a progress line never comes before its patch's request
      or result line. A crash can therefore lose a progress line, never a result line whose
      patch is already marked done. */
  lemma {:induction false} RunAppendOrder(pts: seq<Center>, step: int, loaded: set<string>, o: Oracles)
    requires LabelsPerRow(o.dbscan)
    ensures AppendOrder(Run(pts, step, loaded, o).events)
    ensures ScoresInRange(Run(pts, step, loaded, o).events)
  {
    if pts != [] {
      var n := |pts| - 1;
      RunAppendOrder(pts[..n], step, loaded, o);
      var before, last := Run(pts[..n], step, loaded, o), PatchStep(pts[n], step, loaded, o);
      if !before.aborted {
        PatchStepShape(pts[n], step, loaded, o);
        AppendOrderConcat(before.events, last.events);
      }
    }
  }

  /** A patch whose identifier was loaded at startup causes no request, no result line and no
      progress line: every event of a scan concerns a patch that was not loaded. */
  lemma {:induction false} LoadedPatchesUntouched(pts: seq<Center>, step: int, loaded: set<string>, o: Oracles)
    requires LabelsPerRow(o.dbscan)
    ensures forall e :: e in Run(pts, step, loaded, o).events ==> EventId(e) !in loaded
  {
    if pts != [] {
      var n := |pts| - 1;
      LoadedPatchesUntouched(pts[..n], step, loaded, o);
      PatchStepShape(pts[n], step, loaded, o);
    }
  }

  /** Every event of a scan comes from the iteration of one of its centres. */
  lemma {:induction false} RunEventsFromSteps(pts: seq<Center>, step: int, loaded: set<string>, o: Oracles)
    requires LabelsPerRow(o.dbscan)
    ensures forall e :: e in Run(pts, step, loaded, o).events ==>
              exists k :: 0 <= k < |pts| && e in PatchStep(pts[k], step, loaded, o).events
  {
    if pts != [] {
      var n := |pts| - 1;
      var before, last := Run(pts[..n], step, loaded, o), PatchStep(pts[n], step, loaded, o);
      var t := Run(pts, step, loaded, o);
      RunEventsFromSteps(pts[..n], step, loaded, o);
      assert t.events == before.events || t.events == before.events + last.events;
      forall e | e in t.events
        ensures exists k :: 0 <= k < |pts| && e in PatchStep(pts[k], step, loaded, o).events
      {
        if e in before.events {
          var k :| 0 <= k < n && e in PatchStep(pts[..n][k], step, loaded, o).events;
          assert pts[..n][k] == pts[k];
        } else {
          assert e in PatchStep(pts[n], step, loaded, o).events;
        }
      }
    }
  }

  /** When a scan ran to the end, the events of the iteration of its `k`-th centre are among its
      events. */
  lemma {:induction false} RunIncludesStep(pts: seq<Center>, k: nat, step: int, loaded: set<string>, o: Oracles)
    requires LabelsPerRow(o.dbscan)
    requires !Run(pts, step, loaded, o).aborted && k < |pts|
    ensures forall e :: e in PatchStep(pts[k], step, loaded, o).events ==> e in Run(pts, step, loaded, o).events
  {
    var n := |pts| - 1;
    var before, last := Run(pts[..n], step, loaded, o), PatchStep(pts[n], step, loaded, o);
    assert Run(pts, step, loaded, o) == Then(before, last);
    ThenFinished(before, last);
    if k < n {
      RunIncludesStep(pts[..n], k, step, loaded, o);
      assert pts[..n][k] == pts[k];
      InFront(PatchStep(pts[k], step, loaded, o).events, before.events, last.events);
    } else {
      InBack(last.events, before.events);
    }
  }

  lemma InFront(s: seq<Event>, a: seq<Event>, b: seq<Event>)
    requires forall e :: e in s ==> e in a
    ensures forall e :: e in s ==> e in a + b
  {
  }

  lemma InBack(s: seq<Event>, a: seq<Event>)
    ensures forall e :: e in s ==> e in a + s
  {
  }

  /** A composed trace that ran to the end is both parts, the first of which ran to the end too. */
  lemma ThenFinished(before: Trace, after: Trace)
    requires !Then(before, after).aborted
    ensures !before.aborted && Then(before, after).events == before.events + after.events
  {
  }

  /** In a grid whose identifiers are distinct, the events about a centre `p` are events of
      `p`'s own iteration. */
  lemma EventsOfPatch(pts: seq<Center>, p: Center, step: int, loaded: set<string>, o: Oracles)
    requires LabelsPerRow(o.dbscan)
    requires DistinctIds(pts) && p in pts
    ensures forall e :: e in Run(pts, step, loaded, o).events && EventId(e) == Id(p) ==>
              e in PatchStep(p, step, loaded, o).events
  {
    RunEventsFromSteps(pts, step, loaded, o);
    forall e | e in Run(pts, step, loaded, o).events && EventId(e) == Id(p)
      ensures e in PatchStep(p, step, loaded, o).events
    {
      var k :| 0 <= k < |pts| && e in PatchStep(pts[k], step, loaded, o).events;
      PatchStepShape(pts[k], step, loaded, o);
      var m :| 0 <= m < |pts| && pts[m] == p;
      var i :| 0 <= i < |PatchStep(pts[k], step, loaded, o).events| && PatchStep(pts[k], step, loaded, o).events[i] == e;
      assert Id(pts[k]) == Id(p);
      assert k == m;
    }
  }

  /** A patch with fewer than ten observations leaves no line in either file: the only event
      about it is its request, so the next run fetches it again. */
  lemma SparsePatchLeavesNoLine(pts: seq<Center>, p: Center, step: int, loaded: set<string>, o: Oracles)
    requires LabelsPerRow(o.dbscan)
    requires DistinctIds(pts) && p in pts
    requires o.fetch(p.0, p.1, Radius(step)).Rows? && |o.fetch(p.0, p.1, Radius(step)).data| < MinRows
    ensures forall e :: e in Run(pts, step, loaded, o).events && EventId(e) == Id(p) ==> e == Request(p)
    ensures ProgressLine(Id(p)) !in Run(pts, step, loaded, o).events
  {
    EventsOfPatch(pts, p, step, loaded, o);
    SparseStep(p, step, loaded, o);
  }

  /** The iteration of a patch with fewer than ten observations at most requests it. */
  lemma SparseStep(c: Center, step: int, loaded: set<string>, o: Oracles)
    requires LabelsPerRow(o.dbscan)
    requires o.fetch(c.0, c.1, Radius(step)).Rows? && |o.fetch(c.0, c.1, Radius(step)).data| < MinRows
    ensures forall e :: e in PatchStep(c, step, loaded, o).events ==> e == Request(c)
  {
  }

  /** A patch is appended to the progress file only if it was not loaded and its fetch returned
      at least ten rows; and when the scan ran to the end, every such patch was appended. */
  lemma CommittedIffDense(pts: seq<Center>, p: Center, step: int, loaded: set<string>, o: Oracles)
    requires LabelsPerRow(o.dbscan)
    requires DistinctIds(pts) && p in pts
    ensures var t := Run(pts, step, loaded, o);
            ProgressLine(Id(p)) in t.events ==> Id(p) !in loaded && Dense(o.fetch(p.0, p.1, Radius(step)))
    ensures var t := Run(pts, step, loaded, o);
            !t.aborted && Id(p) !in loaded && Dense(o.fetch(p.0, p.1, Radius(step))) ==> ProgressLine(Id(p)) in t.events
  {
    EventsOfPatch(pts, p, step, loaded, o);
    StepCommitsIffDense(p, step, loaded, o);
    if !Run(pts, step, loaded, o).aborted && Id(p) !in loaded && Dense(o.fetch(p.0, p.1, Radius(step))) {
      var k :| 0 <= k < |pts| && pts[k] == p;
      RunIncludesStep(pts, k, step, loaded, o);
    }
  }

  /** One iteration writes the patch's progress line exactly when the patch was not loaded and
      its fetch returned at least ten rows. */
  lemma StepCommitsIffDense(c: Center, step: int, loaded: set<string>, o: Oracles)
    requires LabelsPerRow(o.dbscan)
    ensures ProgressLine(Id(c)) in PatchStep(c, step, loaded, o).events
            <==> Id(c) !in loaded && Dense(o.fetch(c.0, c.1, Radius(step)))
  {
    if Id(c) !in loaded {
      match o.fetch(c.0, c.1, Radius(step))
      case ServiceError =>
        assert PatchStep(c, step, loaded, o).events == [Request(c)];
      case Rows(data) =>
        if |data| < MinRows {
          assert PatchStep(c, step, loaded, o).events == [Request(c)];
        } else {
          var out := Outcome(c, o.dbscan(Features(data)));
          assert out[|out| - 1] == ProgressLine(Id(c));
          assert PatchStep(c, step, loaded, o).events == [Request(c)] + out;
        }
    }
  }

  /** The labels DBSCAN gives the rows fetched for a patch. */
  function PatchLabels(c: Center, step: int, o: Oracles): seq<int>
    requires o.fetch(c.0, c.1, Radius(step)).Rows?
  {
    o.dbscan(Features(o.fetch(c.0, c.1, Radius(step)).data))
  }

  /** The patch was not loaded, its fetch returned at least ten rows, and DBSCAN placed at least
      one of them in a cluster. */
  predicate Clusters(c: Center, step: int, loaded: set<string>, o: Oracles) {
    Id(c) !in loaded && Dense(o.fetch(c.0, c.1, Radius(step))) &&
    DensityScore.Clustered(PatchLabels(c, step, o)) > 0
  }

  /** The results line a clustering patch gets: its centre and the fraction of clustered rows. */
  function DetectionOf(c: Center, step: int, loaded: set<string>, o: Oracles): (d: Detection)
    requires Clusters(c, step, loaded, o)
    ensures (d.ra, d.dec) == c && 0.0 < d.score <= 1.0
  {
    Detection(c.0, c.1, DensityScore.Score(PatchLabels(c, step, o)))
  }

  /** One iteration writes a result line exactly when the patch was new, dense and something in
      it clustered; the line is then the only one and carries the patch's score. */
  lemma StepDetectsIffClusters(c: Center, step: int, loaded: set<string>, o: Oracles)
    requires LabelsPerRow(o.dbscan)
    ensures var es := PatchStep(c, step, loaded, o).events;
            (exists k :: 0 <= k < |es| && es[k].ResultLine?) <==> Clusters(c, step, loaded, o)
    ensures Detections(PatchStep(c, step, loaded, o).events)
         == if Clusters(c, step, loaded, o) then [DetectionOf(c, step, loaded, o)] else []
  {
    var es := PatchStep(c, step, loaded, o).events;
    if Id(c) !in loaded {
      match o.fetch(c.0, c.1, Radius(step))
      case ServiceError =>
        RequestWritesNoResult(c);
      case Rows(data) =>
        if |data| < MinRows {
          RequestWritesNoResult(c);
        } else {
          var labels := o.dbscan(Features(data));
          assert labels == PatchLabels(c, step, o);
          if DensityScore.Clustered(labels) > 0 {
            var d := DetectionOf(c, step, loaded, o);
            assert es == [Request(c), ResultLine(d), ProgressLine(Id(c))];
            DetectionWritesResult(c, d, Id(c));
          } else {
            assert es == [Request(c), ProgressLine(Id(c))];
            CommitWritesNoResult(c, Id(c));
          }
        }
    }
  }

  lemma RequestWritesNoResult(c: Center)
    ensures var es := [Request(c)];
            Detections(es) == [] && forall k :: 0 <= k < |es| ==> !es[k].ResultLine?
  {
    RequestAppendsNothing([], c);
    assert [] + [Request(c)] == [Request(c)];
  }

  lemma CommitWritesNoResult(c: Center, id: string)
    ensures var es := [Request(c), ProgressLine(id)];
            Detections(es) == [] && forall k :: 0 <= k < |es| ==> !es[k].ResultLine?
  {
    RequestWritesNoResult(c);
    AppendedEvent([Request(c)], ProgressLine(id));
    assert [Request(c)] + [ProgressLine(id)] == [Request(c), ProgressLine(id)];
  }

  lemma DetectionWritesResult(c: Center, d: Detection, id: string)
    ensures var es := [Request(c), ResultLine(d), ProgressLine(id)];
            Detections(es) == [d] && es[1].ResultLine?
  {
    RequestWritesNoResult(c);
    AppendedEvent([Request(c)], ResultLine(d));
    assert [Request(c)] + [ResultLine(d)] == [Request(c), ResultLine(d)];
    AppendedEvent([Request(c), ResultLine(d)], ProgressLine(id));
    assert [Request(c), ResultLine(d)] + [ProgressLine(id)] == [Request(c), ResultLine(d), ProgressLine(id)];
  }

  /** The lines appended to the results file are those of result-line events. */
  lemma {:induction false} DetectionsAreResultLines(events: seq<Event>)
    ensures forall d :: d in Detections(events) <==> ResultLine(d) in events
  {
    if events != [] {
      var n := |events| - 1;
      DetectionsAreResultLines(events[..n]);
      assert events == events[..n] + [events[n]];
      AppendedEvent(events[..n], events[n]);
    }
  }

  /** Results lines of pairwise distinct patches. */
  predicate DistinctPatches(ds: seq<Detection>) {
    forall a, b :: 0 <= a < b < |ds| ==> Id((ds[a].ra, ds[a].dec)) != Id((ds[b].ra, ds[b].dec))
  }

  lemma {:induction false} DetectionsConcat(a: seq<Event>, b: seq<Event>)
    ensures Detections(a + b) == Detections(a) + Detections(b)
    decreases |b|
  {
    if b == [] {
      assert a + b == a;
    } else {
      var n := |b| - 1;
      DetectionsConcat(a, b[..n]);
      assert (a + b)[..|a + b| - 1] == a + b[..n];
    }
  }

  /** Every line a scan appends to the results file is about one of its centres. */
  lemma DetectionsAreOfCentres(pts: seq<Center>, step: int, loaded: set<string>, o: Oracles)
    requires LabelsPerRow(o.dbscan)
    ensures forall d :: d in Detections(Run(pts, step, loaded, o).events) ==>
              exists k :: 0 <= k < |pts| && Id((d.ra, d.dec)) == Id(pts[k])
  {
    var events := Run(pts, step, loaded, o).events;
    DetectionsAreResultLines(events);
    RunEventsFromSteps(pts, step, loaded, o);
    forall d | d in Detections(events) ensures exists k :: 0 <= k < |pts| && Id((d.ra, d.dec)) == Id(pts[k]) {
      var k :| 0 <= k < |pts| && ResultLine(d) in PatchStep(pts[k], step, loaded, o).events;
      PatchStepShape(pts[k], step, loaded, o);
      assert EventId(ResultLine(d)) == Id((d.ra, d.dec));
    }
  }

  lemma DistinctPatchesSnoc(ds: seq<Detection>, d: Detection)
    requires DistinctPatches(ds)
    requires forall x :: x in ds ==> Id((x.ra, x.dec)) != Id((d.ra, d.dec))
    ensures DistinctPatches(ds + [d])
  {
    var s := ds + [d];
    forall a, b | 0 <= a < b < |s| ensures Id((s[a].ra, s[a].dec)) != Id((s[b].ra, s[b].dec)) {
      if b == |ds| {
        assert s[a] in ds;
      }
    }
  }

  /** Over a grid whose identifiers are distinct, the results file never gets two lines for the
      same patch. */
  lemma {:induction false} DetectionsNoRepeats(pts: seq<Center>, step: int, loaded: set<string>, o: Oracles)
    requires LabelsPerRow(o.dbscan)
    requires DistinctIds(pts)
    ensures DistinctPatches(Detections(Run(pts, step, loaded, o).events))
  {
    if pts != [] {
      var n := |pts| - 1;
      var before, last := Run(pts[..n], step, loaded, o), PatchStep(pts[n], step, loaded, o);
      assert DistinctIds(pts[..n]);
      DetectionsNoRepeats(pts[..n], step, loaded, o);
      if !before.aborted {
        var olds := Detections(before.events);
        assert Run(pts, step, loaded, o).events == before.events + last.events;
        DetectionsConcat(before.events, last.events);
        StepDetectsIffClusters(pts[n], step, loaded, o);
        if Clusters(pts[n], step, loaded, o) {
          var d := DetectionOf(pts[n], step, loaded, o);
          DetectionsAreOfCentres(pts[..n], step, loaded, o);
          forall x | x in olds ensures Id((x.ra, x.dec)) != Id((d.ra, d.dec)) {
            var k :| 0 <= k < n && Id((x.ra, x.dec)) == Id(pts[..n][k]);
            assert pts[..n][k] == pts[k];
          }
          DistinctPatchesSnoc(olds, d);
        } else {
          assert olds + [] == olds;
        }
      }
    }
  }

  /** A scan writes a result line for a patch only if the patch was new, dense and something in
      it clustered, and then with the patch's score; when the scan ran to the end, every such
      patch has exactly one result line. */
  lemma DetectedIffClusters(pts: seq<Center>, p: Center, step: int, loaded: set<string>, o: Oracles)
    requires LabelsPerRow(o.dbscan)
    requires DistinctIds(pts) && p in pts
    ensures var ds := Detections(Run(pts, step, loaded, o).events);
            forall d :: d in ds && Id((d.ra, d.dec)) == Id(p) ==>
              Clusters(p, step, loaded, o) && d == DetectionOf(p, step, loaded, o)
    ensures var t := Run(pts, step, loaded, o);
            !t.aborted && Clusters(p, step, loaded, o) ==> DetectionOf(p, step, loaded, o) in Detections(t.events)
    ensures DistinctPatches(Detections(Run(pts, step, loaded, o).events))
  {
    var t := Run(pts, step, loaded, o);
    DetectionsAreResultLines(t.events);
    DetectionsAreResultLines(PatchStep(p, step, loaded, o).events);
    EventsOfPatch(pts, p, step, loaded, o);
    StepDetectsIffClusters(p, step, loaded, o);
    forall d | d in Detections(t.events) && Id((d.ra, d.dec)) == Id(p)
      ensures Clusters(p, step, loaded, o) && d == DetectionOf(p, step, loaded, o)
    {
      assert EventId(ResultLine(d)) == Id(p);
      assert d in Detections(PatchStep(p, step, loaded, o).events);
    }
    if !t.aborted && Clusters(p, step, loaded, o) {
      var k :| 0 <= k < |pts| && pts[k] == p;
      RunIncludesStep(pts, k, step, loaded, o);
      assert DetectionOf(p, step, loaded, o) in Detections(PatchStep(p, step, loaded, o).events);
    }
    DetectionsNoRepeats(pts, step, loaded, o);
  }

  /** The centres of a scan's grid have pairwise distinct identifiers. */
  lemma ScanGridDistinctIds(raMin: int, raMax: int, decMin: int, decMax: int, step: int)
    requires step > 0
    ensures DistinctIds(ScanGrid(raMin, raMax, decMin, decMax, step))
  {
    var g := ScanGrid(raMin, raMax, decMin, decMax, step);
    AngleGrid.ScanGridNoRepeats(raMin, raMax, decMin, decMax, step);
    forall a, b | 0 <= a < b < |g| ensures Id(g[a]) != Id(g[b]) {
      if Id(g[a]) == Id(g[b]) {
        PatchIds.PatchIdInjective(g[a].0, g[a].1, g[b].0, g[b].1);
      }
    }
  }

  lemma {:induction false} CommitsConcat(a: seq<Event>, b: seq<Event>)
    ensures Commits(a + b) == Commits(a) + Commits(b)
    decreases |b|
  {
    if b == [] {
      assert a + b == a;
    } else {
      var n := |b| - 1;
      CommitsConcat(a, b[..n]);
      assert (a + b)[..|a + b| - 1] == a + b[..n];
    }
  }

  /** The identifiers appended to the progress file are those of progress-line events. */
  lemma {:induction false} CommitsAreProgressLines(events: seq<Event>)
    ensures forall id :: id in Commits(events) ==> ProgressLine(id) in events
  {
    if events != [] {
      var n := |events| - 1;
      CommitsAreProgressLines(events[..n]);
      forall id | id in Commits(events) ensures ProgressLine(id) in events {
        if id in Commits(events[..n]) {
          assert ProgressLine(id) in events[..n];
        }
      }
    }
  }

  /** Every identifier a scan appends to the progress file is the identifier of one of its
      centres, and so fits on one line. */
  lemma CommitsAreIds(pts: seq<Center>, step: int, loaded: set<string>, o: Oracles)
    requires LabelsPerRow(o.dbscan)
    ensures forall id :: id in Commits(Run(pts, step, loaded, o).events) ==>
              exists k :: 0 <= k < |pts| && id == Id(pts[k])
    ensures ProgressLedger.OneLineEach(Commits(Run(pts, step, loaded, o).events))
  {
    var events := Run(pts, step, loaded, o).events;
    CommitsAreProgressLines(events);
    RunEventsFromSteps(pts, step, loaded, o);
    forall id | id in Commits(events) ensures exists k :: 0 <= k < |pts| && id == Id(pts[k]) {
      var k :| 0 <= k < |pts| && ProgressLine(id) in PatchStep(pts[k], step, loaded, o).events;
      PatchStepShape(pts[k], step, loaded, o);
      assert EventId(ProgressLine(id)) == id;
    }
    var ids := Commits(events);
    forall i | 0 <= i < |ids| ensures '\n' !in ids[i] {
      assert ids[i] in ids;
      var k :| 0 <= k < |pts| && ids[i] == Id(pts[k]);
      PatchIds.PatchIdIsOneLine(pts[k].0, pts[k].1);
    }
  }

  /** One iteration appends its identifier once when the patch is new and dense, and nothing
      otherwise. */
  lemma CommitsOfStep(c: Center, step: int, loaded: set<string>, o: Oracles)
    requires LabelsPerRow(o.dbscan)
    ensures Commits(PatchStep(c, step, loaded, o).events)
         == if Id(c) !in loaded && Dense(o.fetch(c.0, c.1, Radius(step))) then [Id(c)] else []
  {
    var es := PatchStep(c, step, loaded, o).events;
    if es != [] {
      PatchStepShape(c, step, loaded, o);
      CommitsConcat([es[0]], es[1..]);
      assert es == [es[0]] + es[1..];
      assert Commits([es[0]]) == [] by {
        assert [es[0]][..0] == [];
      }
      if |es| > 1 {
        var mid := es[1..|es| - 1];
        assert es[1..] == mid + [es[|es| - 1]];
        CommitsConcat(mid, [es[|es| - 1]]);
        assert Commits([es[|es| - 1]]) == [es[|es| - 1].id] by {
          assert [es[|es| - 1]][..0] == [];
        }
        if mid != [] {
          assert mid == [mid[0]] && mid[0].ResultLine?;
          assert Commits(mid) == [] by {
            assert mid[..0] == [];
          }
        }
      } else {
        assert Commits(es[1..]) == [];
      }
    }
  }

  /** No identifier is appended twice during a scan of a grid whose identifiers are distinct:
      each patch that completes gets exactly one progress line. */
  lemma {:induction false} CommitsNoRepeats(pts: seq<Center>, step: int, loaded: set<string>, o: Oracles)
    requires LabelsPerRow(o.dbscan)
    requires DistinctIds(pts)
    ensures Text.NoRepeats(Commits(Run(pts, step, loaded, o).events))
  {
    if pts != [] {
      var n := |pts| - 1;
      var before, last := Run(pts[..n], step, loaded, o), PatchStep(pts[n], step, loaded, o);
      assert DistinctIds(pts[..n]);
      CommitsNoRepeats(pts[..n], step, loaded, o);
      if !before.aborted {
        var oldIds := Commits(before.events);
        assert Run(pts, step, loaded, o).events == before.events + last.events;
        assert Commits(before.events + last.events) == oldIds + Commits(last.events) by {
          CommitsConcat(before.events, last.events);
        }
        CommitsOfStep(pts[n], step, loaded, o);
        if Commits(last.events) != [] {
          assert Id(pts[n]) !in oldIds by {
            CommitsAreIds(pts[..n], step, loaded, o);
            forall k | 0 <= k < n ensures Id(pts[n]) != Id(pts[..n][k]) {
              assert pts[..n][k] == pts[k];
            }
          }
          NoRepeatsSnoc(oldIds, Id(pts[n]));
        } else {
          assert oldIds + Commits(last.events) == oldIds;
        }
      }
    }
  }

  lemma NoRepeatsSnoc(s: seq<string>, x: string)
    requires Text.NoRepeats(s) && x !in s
    ensures Text.NoRepeats(s + [x])
  {
  }

  /** Resumption: a later run loads this run's starting set plus everything this run appended to
      the progress file, and so fetches, scores and writes nothing for any committed patch. */
  lemma ResumeSkipsCommitted(file: Option<string>, pts: seq<Center>, step: int, o: Oracles)
    requires LabelsPerRow(o.dbscan)
    requires file.Some? ==> ProgressLedger.LineTerminated(file.value)
    ensures var first := Run(pts, step, ProgressLedger.Loaded(file), o);
            var text := if file.Some? then file.value else "";
            var reloaded := ProgressLedger.Loaded(Some(text + ProgressLedger.LedgerText(Commits(first.events))));
            reloaded == ProgressLedger.Loaded(file) + (set id | id in Commits(first.events)) &&
            forall e :: e in Run(pts, step, reloaded, o).events ==> EventId(e) !in Commits(first.events)
  {
    var first := Run(pts, step, ProgressLedger.Loaded(file), o);
    var text := if file.Some? then file.value else "";
    var reloaded := ProgressLedger.Loaded(Some(text + ProgressLedger.LedgerText(Commits(first.events))));
    CommitsAreIds(pts, step, ProgressLedger.Loaded(file), o);
    ProgressLedger.Reload(file, Commits(first.events));
    LoadedPatchesUntouched(pts, step, reloaded, o);
  }

  /** A sparse patch that was not loaded is not loaded by the next run either: that run fetches
      it again, and again leaves no line for it. */
  lemma SparsePatchRetried(file: Option<string>, pts: seq<Center>, p: Center, step: int, o: Oracles)
    requires LabelsPerRow(o.dbscan)
    requires file.Some? ==> ProgressLedger.LineTerminated(file.value)
    requires DistinctIds(pts) && p in pts && Id(p) !in ProgressLedger.Loaded(file)
    requires o.fetch(p.0, p.1, Radius(step)).Rows? && |o.fetch(p.0, p.1, Radius(step)).data| < MinRows
    ensures var first := Run(pts, step, ProgressLedger.Loaded(file), o);
            var text := if file.Some? then file.value else "";
            var reloaded := ProgressLedger.Loaded(Some(text + ProgressLedger.LedgerText(Commits(first.events))));
            Id(p) !in reloaded && PatchStep(p, step, reloaded, o).events == [Request(p)]
  {
    var first := Run(pts, step, ProgressLedger.Loaded(file), o);
    ResumeSkipsCommitted(file, pts, step, o);
    SparsePatchLeavesNoLine(pts, p, step, ProgressLedger.Loaded(file), o);
    CommitsAreProgressLines(first.events);
  }

  /** The grid of right ascension [0, 1) and declination [0, 1) degrees with a one-degree step
      is the single patch "0.0000_0.0000". */
  lemma OnePatchGrid()
    ensures ScanGrid(0, 10000, 0, 10000, 10000) == [(0, 0)]
    ensures Id((0, 0)) == "0.0000_0.0000"
  {
    assert AngleGrid.Arange(0, 10000, 10000) == [0] by {
      assert AngleGrid.Arange(10000, 10000, 10000) == [];
    }
    assert AngleGrid.Grid([0], [0]) == [(0, 0)] by {
      assert [0][..0] == [];
      assert AngleGrid.Row(0, [0]) == [(0, 0)];
    }
    assert PatchIds.Fixed4(0) == "0.0000" by {
      assert PatchIds.Frac4(0) == "0000";
    }
  }

  /** A scan of a single centre is that centre's iteration. */
  lemma RunSingle(p: Center, step: int, loaded: set<string>, o: Oracles)
    requires LabelsPerRow(o.dbscan)
    ensures Run([p], step, loaded, o) == PatchStep(p, step, loaded, o)
  {
    assert [p][..0] == [];
    assert [] + PatchStep(p, step, loaded, o).events == PatchStep(p, step, loaded, o).events;
  }

  /** End to end: twelve observations of which ten cluster give one detection with score 10/12,
      written before the patch is committed. */
  lemma OnePatchDetection(o: Oracles, data: seq<Observation>)
    requires LabelsPerRow(o.dbscan)
    requires o.fetch(0, 0, Radius(10000)) == Rows(data) && |data| == 12
    requires o.dbscan(Features(data)) == [0, 0, 0, 0, 0, 0, 0, 0, 0, 0, DensityScore.Noise, DensityScore.Noise]
    ensures Run(ScanGrid(0, 10000, 0, 10000, 10000), 10000, {}, o)
         == Trace([Request((0, 0)), ResultLine(Detection(0, 0, 10.0 / 12.0)), ProgressLine("0.0000_0.0000")], false)
  {
    var detection := Detection(0, 0, 10.0 / 12.0);
    calc {
      Run(ScanGrid(0, 10000, 0, 10000, 10000), 10000, {}, o);
      { OnePatchGrid(); }
      Run([(0, 0)], 10000, {}, o);
      { RunSingle((0, 0), 10000, {}, o); }
      PatchStep((0, 0), 10000, {}, o);
      { ClusteredPatch(o, data); }
      Trace([Request((0, 0)), ResultLine(detection), ProgressLine(Id((0, 0)))], false);
      { OnePatchGrid(); }
      Trace([Request((0, 0)), ResultLine(detection), ProgressLine("0.0000_0.0000")], false);
    }
  }

  lemma ClusteredPatch(o: Oracles, data: seq<Observation>)
    requires LabelsPerRow(o.dbscan)
    requires o.fetch(0, 0, Radius(10000)) == Rows(data) && |data| == 12
    requires o.dbscan(Features(data)) == [0, 0, 0, 0, 0, 0, 0, 0, 0, 0, DensityScore.Noise, DensityScore.Noise]
    ensures PatchStep((0, 0), 10000, {}, o)
         == Trace([Request((0, 0)), ResultLine(Detection(0, 0, 10.0 / 12.0)), ProgressLine(Id((0, 0)))], false)
  {
    var labels := o.dbscan(Features(data));
    DensityScore.ScoreExample();
    assert Outcome((0, 0), labels) == [ResultLine(Detection(0, 0, 10.0 / 12.0)), ProgressLine(Id((0, 0)))];
  }

  /** End to end: five observations are below the floor, so the scan only fetches; nothing is
      appended, so the next run loads the same set and does exactly the same. */
  lemma OnePatchTooSparse(file: Option<string>, o: Oracles, data: seq<Observation>)
    requires LabelsPerRow(o.dbscan)
    requires "0.0000_0.0000" !in ProgressLedger.Loaded(file)
    requires o.fetch(0, 0, Radius(10000)) == Rows(data) && |data| == 5
    ensures var first := Run(ScanGrid(0, 10000, 0, 10000, 10000), 10000, ProgressLedger.Loaded(file), o);
            first == Trace([Request((0, 0))], false) && Commits(first.events) == []
    ensures var first := Run(ScanGrid(0, 10000, 0, 10000, 10000), 10000, ProgressLedger.Loaded(file), o);
            var text := if file.Some? then file.value else "";
            var reloaded := ProgressLedger.Loaded(Some(text + ProgressLedger.LedgerText(Commits(first.events))));
            reloaded == ProgressLedger.Loaded(file) &&
            Run(ScanGrid(0, 10000, 0, 10000, 10000), 10000, reloaded, o) == first
  {
    var loaded := ProgressLedger.Loaded(file);
    calc {
      Run(ScanGrid(0, 10000, 0, 10000, 10000), 10000, loaded, o);
      { OnePatchGrid(); }
      Run([(0, 0)], 10000, loaded, o);
      { RunSingle((0, 0), 10000, loaded, o); }
      PatchStep((0, 0), 10000, loaded, o);
      { OnePatchGrid(); SparsePatch(loaded, o, data); }
      Trace([Request((0, 0))], false);
    }
    assert [Request((0, 0))][..0] == [];
    var text := if file.Some? then file.value else "";
    assert text + ProgressLedger.LedgerText([]) == text;
    assert ProgressLedger.Loaded(Some(text)) == loaded by {
      if file.None? {
        assert Text.SplitLines("") == [];
      }
    }
  }

  lemma SparsePatch(loaded: set<string>, o: Oracles, data: seq<Observation>)
    requires LabelsPerRow(o.dbscan)
    requires Id((0, 0)) !in loaded
    requires o.fetch(0, 0, Radius(10000)) == Rows(data) && |data| == 5
    ensures PatchStep((0, 0), 10000, loaded, o) == Trace([Request((0, 0))], false)
  {
  }
}
