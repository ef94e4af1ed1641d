/**
 * The side-by-side comparison of several models' results on one video:
 * the timelines found in the model folders, ordered by overall score
 * (highest first, ties in folder order), and the consensus drawn from how
 * many models flagged a segment.  The folder listing, the loaded timelines
 * and the number formatting are parameters.
 */
module QuickCompare {

  import opened Wrappers
  import opened Strings
  import Sorting
  import Stats
  import opened TimelineFile

  /** `format_segments`: "None" without segments, else "<start>s-<end>s (<length>s)" per segment, joined by ", ". */
  function FormatSegments(segs: seq<(real, real)>, fmt: real -> string): (r: string)
    ensures segs == [] ==> r == "None"
    ensures segs != [] ==> StartsWith(r, SegmentText(segs[0], fmt)) && EndsWith(r, "s)")
    ensures |segs| == 1 ==> r == SegmentText(segs[0], fmt)
  {
    if segs == [] then "None"
    else
      var parts := seq(|segs|, k requires 0 <= k < |segs| => SegmentText(segs[k], fmt));
      JoinEnds(parts, ", ");
      var r := Join(parts, ", ");
      var last := parts[|parts| - 1];
      assert r[|r| - 2..] == r[|r| - |last|..][|last| - 2..];
      r
  }

  function SegmentText(seg: (real, real), fmt: real -> string): (t: string)
    ensures EndsWith(t, "s)")
  {
    fmt(seg.0) + "s-" + fmt(seg.1) + "s (" + fmt(seg.1 - seg.0) + "s)"
  }

  /** One more segment adds ", " and its text at the end: with the single-segment case, this fixes the whole text. */
  lemma {:induction false} FormatSegmentsSnoc(segs: seq<(real, real)>, s: (real, real), fmt: real -> string)
    requires segs != []
    ensures FormatSegments(segs + [s], fmt) == FormatSegments(segs, fmt) + ", " + SegmentText(s, fmt)
  {
    var all := segs + [s];
    var parts := seq(|segs|, k requires 0 <= k < |segs| => SegmentText(segs[k], fmt));
    var allParts := seq(|all|, k requires 0 <= k < |all| => SegmentText(all[k], fmt));
    assert allParts == parts + [SegmentText(s, fmt)];
    JoinSnoc(parts, SegmentText(s, fmt), ", ");
  }

  /** The text is "None" exactly when there are no segments. */
  lemma {:induction false} NoneOnlyWithoutSegments(segs: seq<(real, real)>, fmt: real -> string)
    ensures FormatSegments(segs, fmt) == "None" <==> segs == []
  {
    if segs != [] {
      var r := FormatSegments(segs, fmt);
      assert r[|r| - 1] == ')';
    }
  }

  /** One model's entry of the comparison; missing keys read as zero, the name falls back to the folder's. */
  datatype Entry = Entry(
    model: string,
    overallScore: real,
    averageScore: real,
    numSegments: int,
    segments: seq<(real, real)>,
    totalFrames: int,
    threshold: real)

  function EntryOf(folder: string, f: Fields): (e: Entry)
    ensures e.model == (if f.model.Some? then f.model.value else folder)
    ensures e.overallScore == (if f.overallScore.Some? then f.overallScore.value else 0.0)
    ensures e.numSegments == (if f.numSuspiciousSegments.Some? then f.numSuspiciousSegments.value else 0)
    ensures e.segments == (if f.suspiciousSegments.Some? then f.suspiciousSegments.value else [])
  {
    Entry(f.model.GetOr(folder), f.overallScore.GetOr(0.0), f.averageScore.GetOr(0.0),
          f.numSuspiciousSegments.GetOr(0), f.suspiciousSegments.GetOr([]),
          f.totalFrames.GetOr(0), f.threshold.GetOr(0.0))
  }

  /**
   * A folder of the results directory: its name, whether it is a directory,
   * and the timeline of the requested video inside it (`None` when the file
   * is absent, an error when it cannot be loaded).
   */
  datatype Folder = Folder(name: string, isDir: bool, timeline: Option<Result<Fields, string>>)

  /** The entry a folder adds: a directory whose timeline loads to a non-empty object. */
  function FolderEntry(d: Folder): Option<Entry> {
    if d.isDir && d.timeline.Some? && d.timeline.value.Ok? && d.timeline.value.value.nonEmpty then
      Some(EntryOf(d.name, d.timeline.value.value))
    else None
  }

  /** The entries in listing order. */
  function Collected(folders: seq<Folder>): (es: seq<Entry>)
    ensures |es| <= |folders|
  {
    if folders == [] then []
    else
      var e := FolderEntry(folders[|folders| - 1]);
      Collected(folders[..|folders| - 1]) + (if e.Some? then [e.value] else [])
  }

  /** The sort key with `reverse=True`: a precedes b when its overall score is at least b's. */
  predicate ScoreDesc(a: Entry, b: Entry) {
    a.overallScore >= b.overallScore
  }

  lemma ScoreDescTotal()
    ensures Sorting.TotalPreorder(ScoreDesc)
  {
  }

  /** `results.sort(key=overall_score, reverse=True)`: highest first, a permutation of the entries. */
  function Ranked(entries: seq<Entry>): (r: seq<Entry>)
    ensures multiset(r) == multiset(entries)
    ensures forall i, j :: 0 <= i < j < |r| ==> r[i].overallScore >= r[j].overallScore
  {
    ScoreDescTotal();
    Sorting.SortSorted(entries, ScoreDesc);
    Sorting.Sort(entries, ScoreDesc)
  }

  /** The entries with a given overall score, in order. */
  function WithScore(es: seq<Entry>, s: real): seq<Entry> {
    if es == [] then []
    else (if es[0].overallScore == s then [es[0]] else []) + WithScore(es[1..], s)
  }

  lemma {:induction false} WithScoreCons(x: Entry, ys: seq<Entry>, s: real)
    ensures WithScore([x] + ys, s) == (if x.overallScore == s then [x] else []) + WithScore(ys, s)
  {
    assert ([x] + ys)[1..] == ys;
  }

  lemma {:induction false} InsertKeepsTies(x: Entry, ys: seq<Entry>, s: real)
    ensures WithScore(Sorting.Insert(x, ys, ScoreDesc), s) == (if x.overallScore == s then [x] else []) + WithScore(ys, s)
  {
    if ys == [] || ScoreDesc(x, ys[0]) {
      assert Sorting.Insert(x, ys, ScoreDesc) == [x] + ys;
      WithScoreCons(x, ys, s);
    } else {
      InsertKeepsTies(x, ys[1..], s);
      InsertPastHigher(x, ys, s);
    }
  }

  /** Inserting past a higher score: that entry is not among the ties of `x`. */
  lemma {:induction false} InsertPastHigher(x: Entry, ys: seq<Entry>, s: real)
    requires ys != [] && !ScoreDesc(x, ys[0])
    requires WithScore(Sorting.Insert(x, ys[1..], ScoreDesc), s) ==
             (if x.overallScore == s then [x] else []) + WithScore(ys[1..], s)
    ensures WithScore(Sorting.Insert(x, ys, ScoreDesc), s) == (if x.overallScore == s then [x] else []) + WithScore(ys, s)
  {
    var r := Sorting.Insert(x, ys[1..], ScoreDesc);
    var y := ys[0];
    assert Sorting.Insert(x, ys, ScoreDesc) == [y] + r;
    WithScoreCons(y, r, s);
    assert ys == [y] + ys[1..];
    WithScoreCons(y, ys[1..], s);
    var tail := WithScore(ys[1..], s);
    if x.overallScore == s {
      assert y.overallScore != s;
      assert WithScore(Sorting.Insert(x, ys, ScoreDesc), s) == [x] + tail;
      assert WithScore(ys, s) == tail;
    } else {
      assert WithScore(r, s) == tail;
    }
  }

  lemma {:induction false} InsertKeepsDetecting(x: Entry, ys: seq<Entry>)
    ensures Detecting(Sorting.Insert(x, ys, ScoreDesc)) == Detecting([x]) + Detecting(ys)
  {
    if ys == [] || ScoreDesc(x, ys[0]) {
      assert Sorting.Insert(x, ys, ScoreDesc) == [x] + ys;
      assert ([x] + ys)[1..] == ys;
    } else {
      var r := Sorting.Insert(x, ys[1..], ScoreDesc);
      InsertKeepsDetecting(x, ys[1..]);
      assert Sorting.Insert(x, ys, ScoreDesc) == [ys[0]] + r;
      assert ([ys[0]] + r)[1..] == r;
    }
  }

  /** The sort is stable: entries with equal scores keep their listing order. */
  lemma {:induction false} RankedKeepsTies(entries: seq<Entry>, s: real)
    ensures WithScore(Ranked(entries), s) == WithScore(entries, s)
  {
    if entries != [] {
      RankedKeepsTies(entries[1..], s);
      InsertKeepsTies(entries[0], Sorting.Sort(entries[1..], ScoreDesc), s);
    }
  }

  datatype Consensus = Strong | Moderate | Weak

  /** Strong from 60% of the models flagging a segment, moderate from 30%, else weak. */
  function ConsensusOf(detecting: nat, n: nat): (c: Consensus)
    ensures c == Strong <==> 5 * detecting >= 3 * n
    ensures c == Moderate <==> 10 * detecting >= 3 * n && 5 * detecting < 3 * n
    ensures c == Weak <==> 10 * detecting < 3 * n
  {
    if detecting as real >= n as real * 0.6 then Strong
    else if detecting as real >= n as real * 0.3 then Moderate
    else Weak
  }

  /** More models flagging never weakens the consensus. */
  lemma ConsensusMonotone(d1: nat, d2: nat, n: nat)
    requires d1 <= d2
    ensures ConsensusOf(d1, n) == Strong ==> ConsensusOf(d2, n) == Strong
    ensures ConsensusOf(d1, n) == Moderate ==> ConsensusOf(d2, n) != Weak
  {
  }

  /** The number of entries that report at least one segment. */
  function Detecting(es: seq<Entry>): (n: nat)
    ensures n <= |es|
  {
    if es == [] then 0 else (if es[0].numSegments > 0 then 1 else 0) + Detecting(es[1..])
  }

  function OverallScores(es: seq<Entry>): (s: seq<real>)
    ensures |s| == |es| && forall i :: 0 <= i < |es| ==> s[i] == es[i].overallScore
  {
    seq(|es|, i requires 0 <= i < |es| => es[i].overallScore)
  }

  /** The consensus analysis: models flagging, the average overall score, and the verdict. */
  datatype Analysis = Analysis(detecting: nat, averageScore: real, consensus: Consensus)

  /** `main`'s consensus analysis over the collected entries. */
  function Analyse(es: seq<Entry>): (a: Analysis)
    requires |es| > 0
    ensures a.detecting == Detecting(es) && a.detecting <= |es| && a.consensus == ConsensusOf(a.detecting, |es|)
    ensures a.averageScore == Stats.Mean(OverallScores(es))
    ensures Stats.Min(OverallScores(es)) <= a.averageScore <= Stats.Max(OverallScores(es))
  {
    var scores := OverallScores(es);
    Stats.MeanWithin(scores, Stats.Min(scores), Stats.Max(scores));
    var d := Detecting(es);
    Analysis(d, Stats.Mean(scores), ConsensusOf(d, |es|))
  }

  /**
   * `main`: exit status 1 when the directory is missing or no folder gives
   * an entry; otherwise 0, the entries ranked and the consensus analysis.
   */
  method Compare(dirExists: bool, folders: seq<Folder>) returns (code: int, ranked: seq<Entry>, analysis: Option<Analysis>)
    ensures !dirExists ==> code == 1 && ranked == [] && analysis.None?
    ensures dirExists ==> ranked == Ranked(Collected(folders))
    ensures dirExists ==> (code == 0 <==> Collected(folders) != [])
    ensures code == 0 ==> analysis == Some(Analyse(ranked))
    ensures code != 0 ==> analysis.None? && code == 1
  {
    if !dirExists {
      return 1, [], None;
    }
    var entries: seq<Entry> := [];
    for i := 0 to |folders|
      invariant entries == Collected(folders[..i])
    {
      assert folders[..i + 1][..i] == folders[..i];
      var d := folders[i];
      if !d.isDir || d.timeline.None? {
        continue;
      }
      match d.timeline.value {
        case Err(_) =>
        case Ok(f) =>
          if f.nonEmpty {
            entries := entries + [EntryOf(d.name, f)];
          }
      }
    }
    assert folders[..|folders|] == folders;
    if entries == [] {
      return 1, [], None;
    }
    ranked := Ranked(entries);
    return 0, ranked, Some(Analyse(ranked));
  }

  /** Ranking does not change how many models flag a segment. */
  lemma {:induction false} RankedKeepsDetecting(entries: seq<Entry>)
    ensures Detecting(Ranked(entries)) == Detecting(entries)
  {
    if entries != [] {
      RankedKeepsDetecting(entries[1..]);
      InsertKeepsDetecting(entries[0], Sorting.Sort(entries[1..], ScoreDesc));
    }
  }

  /** The consensus does not depend on the order in which the folders were listed. */
  lemma {:induction false} ConsensusIgnoresRanking(entries: seq<Entry>)
    requires |entries| > 0
    ensures Analyse(Ranked(entries)).consensus == ConsensusOf(Detecting(entries), |entries|)
  {
    RankedKeepsDetecting(entries);
  }
}
