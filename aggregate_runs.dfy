/**
 * The summary table over a results tree `<root>/<model>/<video>/timeline.json`:
 * one row per readable timeline, model folders and video folders each
 * visited in sorted path order, and the statistics printed after the table
 * is written.  The directory listings, the loaded timelines and the outcome
 * of writing the CSV file are parameters.
 */
module AggregateRuns {

  import opened Wrappers
  import Sorting
  import Stats
  import PredictFrames
  import opened TimelineFile

  /** The CSV header. */
  const Header: seq<string> := ["model", "video", "overall_score", "average_score", "segments",
                                "flagged_sec", "total_frames", "fps", "threshold", "dir"]

  /** A data row of the table, before its numbers are rendered as text. */
  datatype Row = Row(
    model: string,
    video: string,
    overallScore: real,
    averageScore: real,
    segments: nat,
    flaggedSec: real,
    totalFrames: int,
    fps: real,
    threshold: real,
    dir: string)

  /** The segments of a timeline: "segments_sec", else "suspicious_segments", else none. */
  function SegmentsOf(f: Fields): (segs: seq<(real, real)>)
    ensures f.segmentsSec.Some? ==> segs == f.segmentsSec.value
    ensures f.segmentsSec.None? ==> segs == (if f.suspiciousSegments.Some? then f.suspiciousSegments.value else [])
  {
    match f.segmentsSec
    case Some(s) => s
    case None => if f.suspiciousSegments.Some? then f.suspiciousSegments.value else []
  }

  /** The summed lengths of the segments, added left to right. */
  function FlaggedDuration(segs: seq<(real, real)>): real {
    if segs == [] then 0.0
    else FlaggedDuration(segs[..|segs| - 1]) + (segs[|segs| - 1].1 - segs[|segs| - 1].0)
  }

  /**
   * For segments in time order, pairwise disjoint and each at least one
   * second long, the flagged time is at least one second per segment and
   * at most the time from the first start to the last end.
   */
  lemma {:induction false} FlaggedWithinSpan(segs: seq<(real, real)>)
    requires |segs| > 0
    requires forall a :: 0 <= a < |segs| ==> segs[a].1 - segs[a].0 >= 1.0
    requires forall a, b :: 0 <= a < b < |segs| ==> segs[a].1 < segs[b].0
    ensures |segs| as real <= FlaggedDuration(segs) <= segs[|segs| - 1].1 - segs[0].0
  {
    var init := segs[..|segs| - 1];
    if |init| > 0 {
      assert forall a :: 0 <= a < |init| ==> init[a] == segs[a];
      FlaggedWithinSpan(init);
      assert init[|init| - 1].1 < segs[|segs| - 1].0;
    }
  }

  /** The row of a video: missing numbers read as zero, the segments counted and their time summed. */
  function RowOf(modelName: string, videoDir: string, f: Fields): (row: Row)
    ensures row.segments == |SegmentsOf(f)| && row.flaggedSec == FlaggedDuration(SegmentsOf(f))
    ensures row.overallScore == (if f.overallScore.Some? then f.overallScore.value else 0.0)
    ensures row.averageScore == (if f.averageScore.Some? then f.averageScore.value else 0.0)
    ensures row.totalFrames == (if f.totalFrames.Some? then f.totalFrames.value else 0)
    ensures row.fps == (if f.fps.Some? then f.fps.value else 0.0)
    ensures row.threshold == (if f.threshold.Some? then f.threshold.value else 0.0)
    ensures row.model == modelName && row.video == PredictFrames.Basename(videoDir) && row.dir == videoDir
  {
    var segs := SegmentsOf(f);
    Row(modelName, PredictFrames.Basename(videoDir),
        f.overallScore.GetOr(0.0), f.averageScore.GetOr(0.0),
        |segs|, FlaggedDuration(segs),
        f.totalFrames.GetOr(0), f.fps.GetOr(0.0), f.threshold.GetOr(0.0),
        videoDir)
  }

  /** The row of a timeline that `predict_frames` wrote carries its scores, frame count, rate and threshold, and counts its segments. */
  lemma RowOfWrittenTimeline(t: PredictFrames.Timeline, modelName: string, videoDir: string)
    ensures var row := RowOf(modelName, videoDir, Written(t, modelName));
            row.overallScore == t.overallScore && row.averageScore == t.averageScore &&
            row.totalFrames == t.totalFrames && row.fps == t.fps && row.threshold == t.threshold &&
            row.segments == |t.segments| && row.flaggedSec == FlaggedDuration(t.segments)
  {
  }

  /**
   * The flagged time of a timeline `predict_frames` wrote: at least one
   * second per segment and at most the span from the first start to the
   * last end; zero without segments.
   */
  lemma {:induction false} WrittenFlaggedTime(t: PredictFrames.Timeline, rows: seq<PredictFrames.Row>, fps: real, threshold: real)
    requires fps > 0.0 && 0 < |rows| && PredictFrames.StampedRows(rows, fps)
    requires PredictFrames.IsTimelineOf(t, rows, fps, threshold)
    ensures t.segments != [] ==>
              t.numSegments as real <= FlaggedDuration(t.segments) <= t.segments[|t.segments| - 1].1 - t.segments[0].0
    ensures t.segments == [] ==> FlaggedDuration(t.segments) == 0.0
  {
    PredictFrames.TimelineSegmentsOrdered(t, rows, fps, threshold);
    SegmentsFlaggedTime(t.segments);
  }

  /** Ordered segments of at least a second each: the flagged time lies between their count and their span. */
  lemma {:induction false} SegmentsFlaggedTime(segs: seq<(real, real)>)
    requires PredictFrames.SecondsApart(segs)
    ensures segs != [] ==> |segs| as real <= FlaggedDuration(segs) <= segs[|segs| - 1].1 - segs[0].0
    ensures segs == [] ==> FlaggedDuration(segs) == 0.0
  {
    if segs != [] {
      FlaggedWithinSpan(segs);
    }
  }

  /** A video folder: its path, whether it is a directory, and its timeline (`None` when the file is absent). */
  datatype VideoEntry = VideoEntry(path: string, isDir: bool, timeline: Option<Result<Fields, string>>)

  /** A model folder: its path, whether it is a directory, and the entries inside it in listing order. */
  datatype ModelEntry = ModelEntry(path: string, isDir: bool, videos: seq<VideoEntry>)

  function VideoPath(v: VideoEntry): string { v.path }
  function ModelPath(m: ModelEntry): string { m.path }

  /** `sorted(glob(...))`: the entries sorted by path, a permutation of the listing. */
  function ByPath<T(!new)>(xs: seq<T>, path: T -> string): (r: seq<T>)
    ensures multiset(r) == multiset(xs)
    ensures forall i, j :: 0 <= i < j < |r| ==> Sorting.LexLe(path(r[i]), path(r[j]))
  {
    var le := (a: T, b: T) => Sorting.LexLe(path(a), path(b));
    assert Sorting.TotalPreorder(le) by {
      forall a: T, b: T ensures le(a, b) || le(b, a) {
        Sorting.LexLeTotal(path(a), path(b));
      }
      forall a: T, b: T, c: T | le(a, b) && le(b, c) ensures le(a, c) {
        Sorting.LexLeTrans(path(a), path(b), path(c));
      }
    }
    Sorting.SortSorted(xs, le);
    Sorting.Sort(xs, le)
  }

  /** The row a video entry adds: only a directory whose timeline exists and loads. */
  function VideoRow(modelName: string, v: VideoEntry): Option<Row> {
    if v.isDir && v.timeline.Some? && v.timeline.value.Ok? then Some(RowOf(modelName, v.path, v.timeline.value.value))
    else None
  }

  function VideoRows(modelName: string, videos: seq<VideoEntry>): seq<Row> {
    if videos == [] then []
    else
      var last := VideoRow(modelName, videos[|videos| - 1]);
      VideoRows(modelName, videos[..|videos| - 1]) + (if last.Some? then [last.value] else [])
  }

  /** The rows of the model entries in the order given; an entry that is not a directory adds none. */
  function ModelRows(models: seq<ModelEntry>): seq<Row> {
    if models == [] then []
    else
      ModelRows(models[..|models| - 1]) + FolderRowsOf(models[|models| - 1])
  }

  lemma ModelRowsStep(models: seq<ModelEntry>, i: nat)
    requires i < |models|
    ensures ModelRows(models[..i + 1]) == ModelRows(models[..i]) + FolderRowsOf(models[i])
    ensures !models[i].isDir ==> ModelRows(models[..i + 1]) == ModelRows(models[..i])
  {
    assert models[..i + 1][..i] == models[..i];
  }

  /** The rows one model entry adds: its sorted video folders' rows, or none when it is not a directory. */
  function FolderRowsOf(m: ModelEntry): seq<Row> {
    if m.isDir then VideoRows(PredictFrames.Basename(m.path), ByPath(m.videos, VideoPath)) else []
  }

  /** The table's data rows: model folders in sorted order, each with its video folders in sorted order. */
  function Rows(models: seq<ModelEntry>): seq<Row> {
    ModelRows(ByPath(models, ModelPath))
  }

  /**
   * `main` up to writing the file: no table when the root is missing (exit
   * status 1); otherwise the rows, their number, and exit status 0 exactly
   * when the file could be written.
   */
  method Aggregate(rootExists: bool, models: seq<ModelEntry>, writeOk: bool)
    returns (rows: seq<Row>, count: nat, code: int)
    ensures !rootExists ==> rows == [] && count == 0 && code == 1
    ensures rootExists ==> rows == Rows(models) && count == |rows| && code == (if writeOk then 0 else 1)
  {
    if !rootExists {
      return [], 0, 1;
    }
    rows, count := [], 0;
    var sortedModels := ByPath(models, ModelPath);
    for i := 0 to |sortedModels|
      invariant rows == ModelRows(sortedModels[..i]) && count == |rows|
    {
      ModelRowsStep(sortedModels, i);
      var m := sortedModels[i];
      if !m.isDir {
        continue;
      }
      var folderRows := FolderRows(PredictFrames.Basename(m.path), ByPath(m.videos, VideoPath));
      rows := rows + folderRows;
      count := count + |folderRows|;
    }
    assert sortedModels[..|sortedModels|] == sortedModels;
    code := if writeOk then 0 else 1;
  }

  /** The inner loop of `main`: the rows of one model folder's sorted video entries. */
  method FolderRows(modelName: string, videos: seq<VideoEntry>) returns (rows: seq<Row>)
    ensures rows == VideoRows(modelName, videos)
  {
    rows := [];
    for j := 0 to |videos|
      invariant rows == VideoRows(modelName, videos[..j])
    {
      assert videos[..j + 1][..j] == videos[..j];
      var v := videos[j];
      if !v.isDir || v.timeline.None? {
        continue;
      }
      match v.timeline.value {
        case Err(_) =>
        case Ok(f) =>
          rows := rows + [RowOf(modelName, v.path, f)];
      }
    }
    assert videos[..|videos|] == videos;
  }

  lemma {:induction false} VideoRowsMembers(modelName: string, videos: seq<VideoEntry>, row: Row)
    ensures row in VideoRows(modelName, videos) <==> exists v :: v in videos && VideoRow(modelName, v) == Some(row)
  {
    if videos != [] {
      var init := videos[..|videos| - 1];
      VideoRowsMembers(modelName, init, row);
      assert videos == init + [videos[|videos| - 1]];
    }
  }

  lemma {:induction false} ModelRowsMembers(models: seq<ModelEntry>, row: Row)
    ensures row in ModelRows(models) <==> exists m :: m in models && row in FolderRowsOf(m)
  {
    if models != [] {
      var init, last := models[..|models| - 1], models[|models| - 1];
      ModelRowsMembers(init, row);
      assert models == init + [last];
      assert ModelRows(models) == ModelRows(init) + FolderRowsOf(last);
      if row in ModelRows(init) {
        var m :| m in init && row in FolderRowsOf(m);
        assert m in models;
      } else if row in FolderRowsOf(last) {
        assert last in models;
      }
      forall m | m in models && row in FolderRowsOf(m)
        ensures row in ModelRows(models)
      {
        if m != last {
          assert m in init;
        }
      }
    }
  }

  /**
   * The table holds a row for exactly the video directories, inside model
   * directories, whose timeline exists and loads.
   */
  lemma {:induction false} RowsAreTheLoadedTimelines(models: seq<ModelEntry>, row: Row)
    ensures row in Rows(models) <==>
            exists m, v :: m in models && m.isDir && v in m.videos && VideoRow(PredictFrames.Basename(m.path), v) == Some(row)
  {
    var sorted := ByPath(models, ModelPath);
    ModelRowsMembers(sorted, row);
    forall m | m in models
      ensures m in sorted
      ensures row in FolderRowsOf(m) <==>
              m.isDir && exists v :: v in m.videos && VideoRow(PredictFrames.Basename(m.path), v) == Some(row)
    {
      assert m in multiset(models);
      var vs := ByPath(m.videos, VideoPath);
      VideoRowsMembers(PredictFrames.Basename(m.path), vs, row);
      forall v ensures v in vs <==> v in m.videos {
        assert v in vs <==> v in multiset(vs);
        assert v in m.videos <==> v in multiset(m.videos);
      }
    }
    forall m | m in sorted ensures m in models {
      assert m in multiset(sorted);
    }
  }

  /** The number of rows of a model. */
  function CountOf(rows: seq<Row>, model: string): (n: nat)
    ensures n <= |rows|
    ensures n > 0 <==> exists i :: 0 <= i < |rows| && rows[i].model == model
  {
    if rows == [] then 0
    else
      var init := rows[..|rows| - 1];
      assert forall i :: 0 <= i < |init| ==> init[i] == rows[i];
      CountOf(init, model) + (if rows[|rows| - 1].model == model then 1 else 0)
  }

  /** The per-model tally printed after the table: each model that has rows, with its number of rows. */
  method CountByModel(rows: seq<Row>) returns (models: map<string, nat>)
    ensures models == Tally(rows)
    ensures forall m :: m in models <==> exists i :: 0 <= i < |rows| && rows[i].model == m
    ensures forall m :: m in models ==> models[m] == CountOf(rows, m)
  {
    models := map[];
    for i := 0 to |rows|
      invariant models == Tally(rows[..i])
    {
      assert rows[..i + 1][..i] == rows[..i];
      var model := rows[i].model;
      var current := if model in models then models[model] else 0;
      models := models[model := current + 1];
    }
    assert rows[..|rows|] == rows;
    TallyCounts(rows);
  }

  /** The tally of the rows in order: each row adds one to its model's count. */
  function Tally(rows: seq<Row>): map<string, nat>
  {
    if rows == [] then map[]
    else
      var t := Tally(rows[..|rows| - 1]);
      var model := rows[|rows| - 1].model;
      t[model := (if model in t then t[model] else 0) + 1]
  }

  /** The tally holds the models present, each with its number of rows. */
  lemma {:induction false} TallyCounts(rows: seq<Row>)
    ensures forall m :: m in Tally(rows) <==> exists i :: 0 <= i < |rows| && rows[i].model == m
    ensures forall m :: m in Tally(rows) ==> Tally(rows)[m] == CountOf(rows, m)
  {
    if rows != [] {
      var init := rows[..|rows| - 1];
      TallyCounts(init);
      forall m ensures m in Tally(rows) <==> exists i :: 0 <= i < |rows| && rows[i].model == m {
        if m in Tally(init) {
          var i :| 0 <= i < |init| && init[i].model == m;
          assert rows[i] == init[i];
        }
        if m != rows[|rows| - 1].model && exists i :: 0 <= i < |rows| && rows[i].model == m {
          var i :| 0 <= i < |rows| && rows[i].model == m;
          assert init[i] == rows[i];
        }
      }
    }
  }

  /** The overall scores of the rows. */
  function Scores(rows: seq<Row>): (s: seq<real>)
    ensures |s| == |rows| && forall i :: 0 <= i < |rows| ==> s[i] == rows[i].overallScore
  {
    seq(|rows|, i requires 0 <= i < |rows| => rows[i].overallScore)
  }

  /** The number of rows with at least one segment. */
  function FlaggedCount(rows: seq<Row>): (n: nat)
    ensures n <= |rows|
    ensures n == 0 <==> forall i :: 0 <= i < |rows| ==> rows[i].segments == 0
  {
    if rows == [] then 0
    else
      var init := rows[..|rows| - 1];
      assert forall i :: 0 <= i < |init| ==> init[i] == rows[i];
      FlaggedCount(init) + (if rows[|rows| - 1].segments > 0 then 1 else 0)
  }

  lemma {:induction false} PercentBounds(part: nat, whole: nat)
    requires 0 < whole && part <= whole
    ensures 0.0 <= 100.0 * part as real / whole as real <= 100.0
  {
    Stats.DivideMonotone(100.0 * part as real, 100.0 * whole as real, whole as real);
    assert 100.0 * whole as real / whole as real == 100.0;
  }

  /** The per-model counts, the score range and mean, and the videos with segments. */
  datatype Summary = Summary(perModel: map<string, nat>, minScore: real, maxScore: real, meanScore: real,
                             flagged: nat, flaggedPercent: real)

  /** The statistics printed when the table has rows. */
  method Statistics(rows: seq<Row>) returns (s: Summary)
    requires |rows| > 0
    ensures forall m :: m in s.perModel <==> exists i :: 0 <= i < |rows| && rows[i].model == m
    ensures forall m :: m in s.perModel ==> s.perModel[m] == CountOf(rows, m)
    ensures s.minScore == Stats.Min(Scores(rows)) && s.maxScore == Stats.Max(Scores(rows))
    ensures s.meanScore == Stats.Mean(Scores(rows))
    ensures s.minScore <= s.meanScore <= s.maxScore
    ensures s.flagged == FlaggedCount(rows) && s.flaggedPercent == 100.0 * s.flagged as real / |rows| as real
    ensures 0.0 <= s.flaggedPercent <= 100.0
  {
    var perModel := CountByModel(rows);
    var scores := Scores(rows);
    Stats.MeanWithin(scores, Stats.Min(scores), Stats.Max(scores));
    var flagged := FlaggedCount(rows);
    var percent := 100.0 * flagged as real / |rows| as real;
    PercentBounds(flagged, |rows|);
    s := Summary(perModel, Stats.Min(scores), Stats.Max(scores), Stats.Mean(scores), flagged, percent);
  }
}
