/**
 * The batch driver for frame-level detection: the videos found under a
 * directory tree, the resume filter that skips videos whose timeline already
 * exists, the command line handed to the per-video predictor, the GPU list
 * and the exit status.  The directory walk, the file-existence test and the
 * outcome of each child process are parameters.
 */
module BatchPredict {

  import opened Strings
  import Sorting
  import PredictFrames

  /** The file name ends, case-insensitively, in one of the five video extensions. */
  predicate IsVideoName(f: string) {
    var l := Lower(f);
    EndsWith(l, ".mp4") || EndsWith(l, ".mov") || EndsWith(l, ".avi") || EndsWith(l, ".mkv") || EndsWith(l, ".webm")
  }

  /** No pattern, or the pattern occurs in the file name, both lower-cased. */
  predicate Matches(f: string, pattern: string) {
    pattern == [] || Find(Lower(f), Lower(pattern)).Some?
  }

  predicate Keep(f: string, pattern: string) {
    IsVideoName(f) && Matches(f, pattern)
  }

  /** Lower-casing twice is lower-casing once. */
  lemma {:induction false} LowerIdempotent(s: string)
    ensures Lower(Lower(s)) == Lower(s)
  {
    forall i | 0 <= i < |s| ensures Lower(Lower(s))[i] == Lower(s)[i] {
      assert !IsUpper(LowerChar(s[i]));
    }
  }

  /** The selection ignores the case of the file name and of the pattern. */
  lemma {:induction false} SelectionIgnoresCase(f: string, pattern: string)
    ensures Keep(Lower(f), pattern) == Keep(f, pattern)
    ensures Keep(f, Lower(pattern)) == Keep(f, pattern)
  {
    LowerIdempotent(f);
    LowerIdempotent(pattern);
    assert Lower(pattern) == [] <==> pattern == [];
  }

  /** POSIX `os.path.join(a, b)`: an absolute second part replaces the first. */
  function PathJoin(a: string, b: string): (r: string)
    ensures StartsWith(b, "/") ==> r == b
    ensures !StartsWith(b, "/") ==> EndsWith(r, b) && StartsWith(r, a)
    ensures !StartsWith(b, "/") && a != [] && a[|a| - 1] != '/' ==> r == a + "/" + b
  {
    if StartsWith(b, "/") then b
    else if a == [] || a[|a| - 1] == '/' then a + b
    else a + "/" + b
  }

  /** The kept files of one directory, joined to its path, in listing order. */
  function KeptIn(dir: string, fs: seq<string>, pattern: string): (r: seq<string>)
    ensures |r| <= |fs|
    ensures forall s :: s in r <==> exists j :: 0 <= j < |fs| && Keep(fs[j], pattern) && s == PathJoin(dir, fs[j])
  {
    if fs == [] then []
    else
      var rest := KeptIn(dir, fs[..|fs| - 1], pattern);
      var f := fs[|fs| - 1];
      assert forall j :: 0 <= j < |fs| - 1 ==> fs[..|fs| - 1][j] == fs[j];
      rest + (if Keep(f, pattern) then [PathJoin(dir, f)] else [])
  }

  /** The kept files of a walk given as (directory path, file names) pairs, in walk order. */
  function Kept(walk: seq<(string, seq<string>)>, pattern: string): (r: seq<string>)
    ensures forall s :: s in r <==>
              exists i, j :: 0 <= i < |walk| && 0 <= j < |walk[i].1| &&
                             Keep(walk[i].1[j], pattern) && s == PathJoin(walk[i].0, walk[i].1[j])
  {
    if walk == [] then []
    else
      var rest := Kept(walk[..|walk| - 1], pattern);
      assert forall i :: 0 <= i < |walk| - 1 ==> walk[..|walk| - 1][i] == walk[i];
      rest + KeptIn(walk[|walk| - 1].0, walk[|walk| - 1].1, pattern)
  }

  /**
   * `list_videos`: every video file of the walk whose name matches the
   * pattern, joined to its directory, and the list sorted.
   */
  method ListVideos(walk: seq<(string, seq<string>)>, pattern: string) returns (files: seq<string>)
    ensures files == Sorting.SortStrings(Kept(walk, pattern))
    ensures multiset(files) == multiset(Kept(walk, pattern))
    ensures forall i, j :: 0 <= i < j < |files| ==> Sorting.LexLe(files[i], files[j])
  {
    var found: seq<string> := [];
    for i := 0 to |walk|
      invariant found == Kept(walk[..i], pattern)
    {
      var dir, fs := walk[i].0, walk[i].1;
      for j := 0 to |fs|
        invariant found == Kept(walk[..i], pattern) + KeptIn(dir, fs[..j], pattern)
      {
        assert fs[..j + 1][..j] == fs[..j];
        if Keep(fs[j], pattern) {
          found := found + [PathJoin(dir, fs[j])];
        }
      }
      assert fs[..|fs|] == fs;
      assert walk[..i + 1][..i] == walk[..i];
    }
    assert walk[..|walk|] == walk;
    files := Sorting.SortStrings(found);
  }

  /** The index of the last occurrence of `c`. */
  function LastIndexOf(s: string, c: char): (i: nat)
    requires c in s
    ensures i < |s| && s[i] == c && c !in s[i + 1..]
  {
    if s[|s| - 1] == c then |s| - 1 else LastIndexOf(s[..|s| - 1], c)
  }

  /**
   * The root of POSIX `os.path.splitext` for a name without '/': the name
   * without its last dot and what follows, unless every character before
   * that dot is a dot too (a leading dot does not start an extension).
   */
  function SplitextRoot(name: string): (root: string)
    ensures StartsWith(name, root)
    ensures '.' !in name ==> root == name
    ensures root != name ==>
              name[|root|] == '.' && '.' !in name[|root| + 1..] && exists j :: 0 <= j < |root| && root[j] != '.'
    ensures root == name && '.' in name ==>
              forall j :: 0 <= j < LastIndexOf(name, '.') ==> name[j] == '.'
  {
    if '.' !in name then name
    else
      var d := LastIndexOf(name, '.');
      if forall j :: 0 <= j < d ==> name[j] == '.' then name
      else
        assert forall j :: 0 <= j < d ==> name[..d][j] == name[j];
        name[..d]
  }

  /** A name made of a stem holding something besides dots and an extension without dots splits back into the stem. */
  lemma {:induction false} SplitextOfExtension(stem: string, ext: string)
    requires exists j :: 0 <= j < |stem| && stem[j] != '.'
    requires '.' !in ext
    ensures SplitextRoot(stem + "." + ext) == stem
  {
    var name := stem + "." + ext;
    assert name[|stem|] == '.';
    assert forall k :: |stem| < k < |name| ==> name[k] == ext[k - |stem| - 1];
    var d := LastIndexOf(name, '.');
    assert d == |stem|;
    var j :| 0 <= j < |stem| && stem[j] != '.';
    assert name[j] == stem[j];
    assert name[..d] == stem;
  }

  /** `os.path.splitext(os.path.basename(v))[0]`. */
  function Stem(v: string): (s: string)
    ensures '/' !in s
  {
    var b := PredictFrames.Basename(v);
    var r := SplitextRoot(b);
    assert forall j :: 0 <= j < |r| ==> r[j] == b[j];
    r
  }

  /**
   * The model key used for the output folder: an argument ending in ".pth"
   * is cut before its first ".pth", any other is taken as it is.
   */
  function ResumeKey(model: string): (key: string)
    ensures !EndsWith(model, ".pth") ==> key == model
    ensures EndsWith(model, ".pth") ==> StartsWith(model, key + ".pth") && !Contains(key, ".pth")
  {
    if EndsWith(model, ".pth") then
      assert OccursAt(model, ".pth", |model| - 4);
      assert Contains(model, ".pth");
      var k := Find(model, ".pth").value;
      FirstOccurrenceCut(model, k);
      model[..k]
    else model
  }

  lemma {:induction false} FirstOccurrenceCut(model: string, k: nat)
    requires OccursAt(model, ".pth", k) && forall j :: 0 <= j < k ==> !OccursAt(model, ".pth", j)
    ensures StartsWith(model, model[..k] + ".pth") && !Contains(model[..k], ".pth")
  {
    assert model[..k + 4] == model[..k] + ".pth";
    if Contains(model[..k], ".pth") {
      var i :| 0 <= i <= k && OccursAt(model[..k], ".pth", i);
      assert model[..k][i..i + 4] == model[i..i + 4];
      assert OccursAt(model, ".pth", i);
    }
  }

  /** A weight file name gives back the key it was made from. */
  lemma {:induction false} ResumeKeyOfWeightFile(key: string)
    requires !Contains(key, ".pth")
    ensures ResumeKey(key + ".pth") == key
  {
    var model := key + ".pth";
    assert OccursAt(model, ".pth", |key|) by {
      assert model[|key|..|key| + 4] == ".pth";
    }
    forall j | 0 <= j < |key| ensures !OccursAt(model, ".pth", j) {
      NoEarlierOccurrence(key, j);
    }
    assert model[..|key|] == key;
  }

  /** Appending ".pth" to a text without it adds no occurrence that starts inside the text. */
  lemma {:induction false} NoEarlierOccurrence(key: string, j: nat)
    requires !Contains(key, ".pth") && j < |key|
    ensures !OccursAt(key + ".pth", ".pth", j)
  {
    var model := key + ".pth";
    if j + 4 <= |key| {
      assert model[j..j + 4] == key[j..j + 4];
      assert !OccursAt(key, ".pth", j);
    } else {
      // the window at j holds the appended '.' where ".pth" has 'p', 't' or 'h'
      assert model[j..j + 4][|key| - j] == model[|key|] == '.';
      assert ".pth"[|key| - j] != '.';
    }
  }

  /** Where a finished run of `v` leaves its timeline. */
  function DoneFlag(outdir: string, key: string, v: string): string {
    PathJoin(PathJoin(PathJoin(outdir, key), Stem(v)), "timeline.json")
  }

  /** A video is skipped when its timeline exists and results are not overwritten. */
  predicate Skipped(v: string, outdir: string, key: string, overwrite: bool, isFile: string -> bool) {
    !overwrite && isFile(DoneFlag(outdir, key, v))
  }

  /** The videos still to process, in order: all of them with `overwrite`, else those without a timeline. */
  function Pending(vids: seq<string>, outdir: string, key: string, overwrite: bool, isFile: string -> bool): (todo: seq<string>)
    ensures |todo| <= |vids|
    ensures overwrite ==> todo == vids
  {
    if vids == [] then []
    else
      var v := vids[|vids| - 1];
      Pending(vids[..|vids| - 1], outdir, key, overwrite, isFile) +
      (if Skipped(v, outdir, key, overwrite, isFile) then [] else [v])
  }

  /** Exactly the videos that are not skipped are pending. */
  lemma {:induction false} PendingMembers(vids: seq<string>, outdir: string, key: string, overwrite: bool, isFile: string -> bool)
    ensures forall v :: v in Pending(vids, outdir, key, overwrite, isFile) <==>
                        v in vids && !Skipped(v, outdir, key, overwrite, isFile)
  {
    if vids != [] {
      var init := vids[..|vids| - 1];
      PendingMembers(init, outdir, key, overwrite, isFile);
      assert vids == init + [vids[|vids| - 1]];
    }
  }

  /** The resume loop of `main`: the videos kept and the number skipped. */
  method Resume(vids: seq<string>, outdir: string, model: string, overwrite: bool, isFile: string -> bool)
    returns (todo: seq<string>, skipped: nat)
    ensures todo == Pending(vids, outdir, ResumeKey(model), overwrite, isFile)
    ensures skipped + |todo| == |vids|
  {
    var key := ResumeKey(model);
    todo, skipped := [], 0;
    for i := 0 to |vids|
      invariant todo == Pending(vids[..i], outdir, key, overwrite, isFile)
      invariant skipped + |todo| == i
    {
      assert vids[..i + 1][..i] == vids[..i];
      var v := vids[i];
      if Skipped(v, outdir, key, overwrite, isFile) {
        skipped := skipped + 1;
        continue;
      }
      todo := todo + [v];
    }
    assert vids[..|vids|] == vids;
  }

  /**
   * The command every child process runs before "--input <video>": the
   * predictor with the model, rate, threshold and output folder, then
   * "--ckpt" when a checkpoint was given and "--save-vis" when asked.
   */
  function BaseCommand(python: string, model: string, fps: string, threshold: string, outdir: string,
                       ckpt: string, saveVis: bool): (cmd: seq<string>)
    ensures |cmd| == 10 + (if ckpt != [] then 2 else 0) + (if saveVis then 1 else 0)
    ensures cmd[..10] == [python, "tools/predict_frames.py", "--model", model, "--fps", fps,
                          "--threshold", threshold, "--outdir", outdir]
    ensures ckpt != [] ==> cmd[10] == "--ckpt" && cmd[11] == ckpt
    ensures saveVis <==> cmd[|cmd| - 1] == "--save-vis" && |cmd| > 10 + (if ckpt != [] then 2 else 0)
  {
    var base := [python, "tools/predict_frames.py", "--model", model, "--fps", fps,
                 "--threshold", threshold, "--outdir", outdir];
    var withCkpt := if ckpt != [] then base + ["--ckpt", ckpt] else base;
    if saveVis then withCkpt + ["--save-vis"] else withCkpt
  }

  /** Stripping adds no character: one absent from the text is absent from the stripped text. */
  lemma {:induction false} StripLacks(s: string, c: char)
    requires c !in s
    ensures c !in Strip(s)
  {
    var l := StripLeft(s);
    var r := StripRight(l);
    forall i | 0 <= i < |r| ensures r[i] != c {
      assert r[i] == l[i] == s[|s| - |l| + i];
    }
  }

  /** The non-empty stripped parts, in order; a character absent from every part stays absent. */
  function NonEmptyStripped(parts: seq<string>, absent: char): (ids: seq<string>)
    requires forall m :: 0 <= m < |parts| ==> absent !in parts[m]
    ensures |ids| <= |parts|
    ensures forall k :: 0 <= k < |ids| ==> ids[k] != [] && !IsSpace(ids[k][0]) && !IsSpace(ids[k][|ids[k]| - 1])
    ensures forall k :: 0 <= k < |ids| ==> absent !in ids[k]
  {
    if parts == [] then []
    else
      var rest := NonEmptyStripped(parts[1..], absent);
      var g := Strip(parts[0]);
      StripLacks(parts[0], absent);
      if g != [] then
        StrippedCons(g, rest, absent);
        [g] + rest
      else rest
  }

  lemma StrippedCons(g: string, rest: seq<string>, absent: char)
    requires g != [] && !IsSpace(g[0]) && !IsSpace(g[|g| - 1]) && absent !in g
    requires forall k :: 0 <= k < |rest| ==> rest[k] != [] && !IsSpace(rest[k][0]) && !IsSpace(rest[k][|rest[k]| - 1])
    requires forall k :: 0 <= k < |rest| ==> absent !in rest[k]
    ensures forall k :: 0 <= k < |[g] + rest| ==>
              ([g] + rest)[k] != [] && !IsSpace(([g] + rest)[k][0]) && !IsSpace(([g] + rest)[k][|([g] + rest)[k]| - 1])
    ensures forall k :: 0 <= k < |[g] + rest| ==> absent !in ([g] + rest)[k]
  {
    forall k | 1 <= k < |[g] + rest| ensures ([g] + rest)[k] == rest[k - 1] { }
  }

  /** The GPU list: the comma-separated parts, stripped, the empty ones dropped. */
  function GpuIds(gpus: string): (ids: seq<string>)
    ensures forall k :: 0 <= k < |ids| ==> ids[k] != [] && ',' !in ids[k]
    ensures forall k :: 0 <= k < |ids| ==> !IsSpace(ids[k][0]) && !IsSpace(ids[k][|ids[k]| - 1])
  {
    NonEmptyStripped(SplitOn(gpus, ','), ',')
  }

  /** Without a GPU list the children run on the default device. */
  lemma {:induction false} NoGpusByDefault()
    ensures GpuIds("") == []
  {
    assert SplitOn("", ',') == [""];
    assert Strip("") == "";
  }

  /** Filtering a concatenation filters each half. */
  lemma {:induction false} NonEmptyStrippedAppend(xs: seq<string>, ys: seq<string>, absent: char)
    requires forall m :: 0 <= m < |xs| ==> absent !in xs[m]
    requires forall m :: 0 <= m < |ys| ==> absent !in ys[m]
    ensures forall m :: 0 <= m < |xs + ys| ==> absent !in (xs + ys)[m]
    ensures NonEmptyStripped(xs + ys, absent) == NonEmptyStripped(xs, absent) + NonEmptyStripped(ys, absent)
    decreases |xs|
  {
    var all := xs + ys;
    forall m | 0 <= m < |all| ensures absent !in all[m] {
      if m >= |xs| { assert all[m] == ys[m - |xs|]; }
    }
    if xs == [] {
      assert all == ys;
    } else {
      assert all[1..] == xs[1..] + ys;
      NonEmptyStrippedAppend(xs[1..], ys, absent);
    }
  }

  /** A comma in the GPU list separates two independent lists. */
  lemma {:induction false} GpuIdsAppend(a: string, b: string)
    ensures GpuIds(a + "," + b) == GpuIds(a) + GpuIds(b)
  {
    assert a + "," + b == a + [','] + b;
    SplitOnAppend(a, b, ',');
    NonEmptyStrippedAppend(SplitOn(a, ','), SplitOn(b, ','), ',');
  }

  /** A single entry is kept stripped, or dropped when it is blank. */
  lemma {:induction false} GpuIdsOfPart(p: string)
    requires ',' !in p
    ensures GpuIds(p) == if Strip(p) == [] then [] else [Strip(p)]
  {
    assert SplitOn(p, ',') == [p];
    assert [p][1..] == [];
  }

  /** Joining clean GPU ids with commas and parsing the result gives the ids back. */
  lemma {:induction false} GpuIdsOfJoin(ids: seq<string>)
    requires forall k :: 0 <= k < |ids| ==> ids[k] != [] && ',' !in ids[k] && Strip(ids[k]) == ids[k]
    ensures GpuIds(Join(ids, ",")) == ids
    decreases |ids|
  {
    if ids == [] {
      NoGpusByDefault();
    } else if |ids| == 1 {
      assert Join(ids, ",") == ids[0];
      GpuIdsOfPart(ids[0]);
    } else {
      assert Join(ids, ",") == ids[0] + "," + Join(ids[1..], ",");
      GpuIdsOfJoin(ids[1..]);
      CleanIdInFront(ids[0], Join(ids[1..], ","), ids[1..]);
      assert ids == [ids[0]] + ids[1..];
    }
  }

  /** A clean id in front of a list that parses to `rest` parses to the id, then `rest`. */
  lemma {:induction false} CleanIdInFront(id: string, tail: string, rest: seq<string>)
    requires id != [] && ',' !in id && Strip(id) == id
    requires GpuIds(tail) == rest
    ensures GpuIds(id + "," + tail) == [id] + rest
  {
    GpuIdsAppend(id, tail);
    GpuIdsOfPart(id);
  }

  /** How a child ends: it could not be started, or it exited with a code. */
  datatype ChildOutcome = StartFailed | Exited(code: int)

  predicate Succeeded(o: ChildOutcome) {
    o.Exited? && o.code == 0
  }

  /** The number of videos whose child exited with code 0. */
  function SuccessCount(todo: seq<string>, outcome: string -> ChildOutcome): (n: nat)
    ensures n <= |todo|
    ensures n == |todo| <==> forall k :: 0 <= k < |todo| ==> Succeeded(outcome(todo[k]))
  {
    if todo == [] then 0
    else
      var rest := todo[..|todo| - 1];
      var n := SuccessCount(rest, outcome);
      assert forall k :: 0 <= k < |rest| ==> rest[k] == todo[k];
      n + (if Succeeded(outcome(todo[|todo| - 1])) then 1 else 0)
  }

  /**
   * How many videos one pass of the launch loop starts when `running`
   * children are alive and the first `idx` of `n` videos were started: it
   * starts videos while fewer than `workers` children run and videos remain.
   */
  function Launched(running: nat, idx: nat, n: nat, workers: int): (k: nat)
    requires idx <= n
    ensures idx + k <= n
    ensures idx < n && running < workers ==>
              k == if n - idx <= workers - running then n - idx else workers - running
    ensures !(idx < n && running < workers) ==> k == 0
    decreases n - idx
  {
    if running < workers && idx < n then 1 + Launched(running + 1, idx + 1, n, workers) else 0
  }

  /**
   * The tally of the worker loop: each video is started once; a child that
   * cannot be started, or exits non-zero, counts as failed. With no pending
   * video the loop does not run. With at most zero workers and a pending
   * video the first launch pass starts nothing, no child runs, and the loop
   * repeats that state forever: `finishes` is false and nothing is counted.
   */
  method Tally(todo: seq<string>, outcome: string -> ChildOutcome, workers: int)
    returns (finishes: bool, completed: nat, failed: nat)
    ensures finishes <==> |todo| == 0 || workers >= 1
    ensures finishes ==> completed == SuccessCount(todo, outcome) && completed + failed == |todo|
    ensures !finishes ==> completed == 0 && failed == 0
  {
    if |todo| > 0 && Launched(0, 0, |todo|, workers) == 0 {
      return false, 0, 0;
    }
    finishes, completed, failed := true, 0, 0;
    for i := 0 to |todo|
      invariant completed == SuccessCount(todo[..i], outcome)
      invariant completed + failed == i
    {
      assert todo[..i + 1][..i] == todo[..i];
      match outcome(todo[i]) {
        case StartFailed => failed := failed + 1;
        case Exited(code) =>
          if code == 0 { completed := completed + 1; } else { failed := failed + 1; }
      }
    }
    assert todo[..|todo|] == todo;
  }

  /** `main`'s exit status: 1 without videos, 0 with nothing left to do, else 0 exactly when nothing failed. */
  function ExitStatus(listed: nat, pending: nat, failed: nat): (code: int)
    ensures code == 0 || code == 1
    ensures listed == 0 ==> code == 1
    ensures listed > 0 && pending == 0 ==> code == 0
    ensures listed > 0 && pending > 0 ==> (code == 0 <==> failed == 0)
  {
    if listed == 0 then 1
    else if pending == 0 then 0
    else if failed == 0 then 0 else 1
  }

  /** A batch with work to do succeeds exactly when every child exited with code 0. */
  lemma {:induction false} ExitZeroIffAllSucceeded(listed: nat, todo: seq<string>, outcome: string -> ChildOutcome)
    requires listed > 0 && |todo| > 0
    ensures ExitStatus(listed, |todo|, |todo| - SuccessCount(todo, outcome)) == 0 <==>
            forall k :: 0 <= k < |todo| ==> Succeeded(outcome(todo[k]))
  {
    var n := SuccessCount(todo, outcome);
    assert ExitStatus(listed, |todo|, |todo| - n) == 0 <==> n == |todo|;
  }
}
