/**
 * The weight status report: every registered DeepfakeBench model, listed
 * by model key, with the size of its weight file when the file exists, the
 * numbers of ready and missing models and their total size, and the
 * human-readable size.  The file system is a parameter giving the size of
 * an existing file.
 */
module ListModels {

  import opened Wrappers
  import Sorting
  import WeightRegistry
  import PredictFrames

  /** The units tried in turn; past gigabytes the size is given in terabytes. */
  const Units: seq<string> := ["B", "KB", "MB", "GB", "TB"]

  /** 1024 to the power k. */
  function Scale(k: nat): (p: real)
    ensures p >= 1.0
  {
    if k == 0 then 1.0 else 1024.0 * Scale(k - 1)
  }

  /** The first unit from `k` on at which the scaled size drops below 1024, terabytes when none does. */
  function UnitIndex(bytes: real, k: nat): (u: nat)
    requires k <= 4
    ensures k <= u <= 4
    ensures u < 4 ==> bytes / Scale(u) < 1024.0
    ensures forall j :: k <= j < u ==> bytes / Scale(j) >= 1024.0
    decreases 4 - k
  {
    if k == 4 || bytes / Scale(k) < 1024.0 then k else UnitIndex(bytes, k + 1)
  }

  lemma DivideTwice(x: real, a: real)
    requires a > 0.0
    ensures x / a / 1024.0 == x / (1024.0 * a)
  {
  }

  /**
   * `format_size` before the number is rendered with one decimal: the size
   * divided by 1024 once per unit passed, and the unit.
   */
  method FormatSize(bytes: real) returns (value: real, unit: string)
    ensures value == bytes / Scale(UnitIndex(bytes, 0)) && unit == Units[UnitIndex(bytes, 0)]
  {
    var size := bytes;
    var i := 0;
    while i < 4
      invariant 0 <= i <= 4 && size == bytes / Scale(i)
      invariant UnitIndex(bytes, 0) == UnitIndex(bytes, i)
    {
      if size < 1024.0 {
        return size, Units[i];
      }
      DivideTwice(bytes, Scale(i));
      size := size / 1024.0;
      i := i + 1;
    }
    return size, Units[4];
  }

  /** The registry ordered by model key. */
  predicate ByModelKey(a: (string, WeightRegistry.WeightMeta), b: (string, WeightRegistry.WeightMeta)) {
    Sorting.LexLe(a.1.modelKey, b.1.modelKey)
  }

  lemma {:induction false} ByModelKeyTotal()
    ensures Sorting.TotalPreorder(ByModelKey)
  {
    forall a, b ensures ByModelKey(a, b) || ByModelKey(b, a) {
      Sorting.LexLeTotal(a.1.modelKey, b.1.modelKey);
    }
    forall a, b, c | ByModelKey(a, b) && ByModelKey(b, c) ensures ByModelKey(a, c) {
      Sorting.LexLeTrans(a.1.modelKey, b.1.modelKey, c.1.modelKey);
    }
  }

  /** `sorted(entries, key=model_key)`: ordered by model key, a permutation of the entries. */
  function SortedByKey(entries: seq<(string, WeightRegistry.WeightMeta)>): (r: seq<(string, WeightRegistry.WeightMeta)>)
    ensures multiset(r) == multiset(entries) && |r| == |entries|
    ensures forall i, j :: 0 <= i < j < |r| ==> Sorting.LexLe(r[i].1.modelKey, r[j].1.modelKey)
  {
    ByModelKeyTotal();
    Sorting.SortSorted(entries, ByModelKey);
    Sorting.Sort(entries, ByModelKey)
  }

  /** A line of the report: the size is absent for a missing weight file. */
  datatype Line = Line(modelKey: string, weightFile: string, size: Option<nat>, inputSize: nat)

  function LineOf(entry: (string, WeightRegistry.WeightMeta), sizeOf: string -> Option<nat>): Line {
    Line(entry.1.modelKey, entry.0, sizeOf(PredictFrames.WeightsPath(entry.0)), entry.1.inputSize)
  }

  predicate Ready(entry: (string, WeightRegistry.WeightMeta), sizeOf: string -> Option<nat>) {
    sizeOf(PredictFrames.WeightsPath(entry.0)).Some?
  }

  /** The number of entries whose weight file exists. */
  function ReadyCount(entries: seq<(string, WeightRegistry.WeightMeta)>, sizeOf: string -> Option<nat>): (n: nat)
    ensures n <= |entries|
    ensures n == |entries| <==> forall i :: 0 <= i < |entries| ==> Ready(entries[i], sizeOf)
  {
    if entries == [] then 0
    else
      var init := entries[..|entries| - 1];
      assert forall i :: 0 <= i < |init| ==> init[i] == entries[i];
      ReadyCount(init, sizeOf) + (if Ready(entries[|entries| - 1], sizeOf) then 1 else 0)
  }

  /** The summed sizes of the existing weight files. */
  function TotalSize(entries: seq<(string, WeightRegistry.WeightMeta)>, sizeOf: string -> Option<nat>): (t: nat)
    ensures forall i :: 0 <= i < |entries| && Ready(entries[i], sizeOf) ==>
              sizeOf(PredictFrames.WeightsPath(entries[i].0)).value <= t
  {
    if entries == [] then 0
    else
      var init := entries[..|entries| - 1];
      assert forall i :: 0 <= i < |init| ==> init[i] == entries[i];
      var s := sizeOf(PredictFrames.WeightsPath(entries[|entries| - 1].0));
      TotalSize(init, sizeOf) + (if s.Some? then s.value else 0)
  }

  lemma {:induction false} SplitCounts(a: seq<(string, WeightRegistry.WeightMeta)>, b: seq<(string, WeightRegistry.WeightMeta)>,
                                      sizeOf: string -> Option<nat>)
    ensures ReadyCount(a + b, sizeOf) == ReadyCount(a, sizeOf) + ReadyCount(b, sizeOf)
    ensures TotalSize(a + b, sizeOf) == TotalSize(a, sizeOf) + TotalSize(b, sizeOf)
  {
    if b != [] {
      var init := b[..|b| - 1];
      SplitCounts(a, init, sizeOf);
      assert (a + b)[..|a + b| - 1] == a + init;
    } else {
      assert a + b == a;
    }
  }

  lemma {:induction false} InsertKeepsCounts(x: (string, WeightRegistry.WeightMeta), ys: seq<(string, WeightRegistry.WeightMeta)>,
                                             sizeOf: string -> Option<nat>)
    ensures ReadyCount(Sorting.Insert(x, ys, ByModelKey), sizeOf) == ReadyCount([x], sizeOf) + ReadyCount(ys, sizeOf)
    ensures TotalSize(Sorting.Insert(x, ys, ByModelKey), sizeOf) == TotalSize([x], sizeOf) + TotalSize(ys, sizeOf)
  {
    if ys == [] || ByModelKey(x, ys[0]) {
      SplitCounts([x], ys, sizeOf);
    } else {
      var r := Sorting.Insert(x, ys[1..], ByModelKey);
      InsertKeepsCounts(x, ys[1..], sizeOf);
      assert Sorting.Insert(x, ys, ByModelKey) == [ys[0]] + r;
      SplitCounts([ys[0]], r, sizeOf);
      SplitCounts([ys[0]], ys[1..], sizeOf);
      assert ys == [ys[0]] + ys[1..];
    }
  }

  /** The ready count and the total size do not depend on the order the entries are listed in. */
  lemma {:induction false} SortKeepsCounts(entries: seq<(string, WeightRegistry.WeightMeta)>, sizeOf: string -> Option<nat>)
    ensures ReadyCount(SortedByKey(entries), sizeOf) == ReadyCount(entries, sizeOf)
    ensures TotalSize(SortedByKey(entries), sizeOf) == TotalSize(entries, sizeOf)
  {
    if entries != [] {
      SortKeepsCounts(entries[1..], sizeOf);
      InsertKeepsCounts(entries[0], Sorting.Sort(entries[1..], ByModelKey), sizeOf);
      SplitCounts([entries[0]], entries[1..], sizeOf);
      assert entries == [entries[0]] + entries[1..];
    }
  }

  /**
   * The loop of `main` over the listed entries: one line per entry, the
   * ready and missing counts, and the total size.
   */
  method Survey(entries: seq<(string, WeightRegistry.WeightMeta)>, sizeOf: string -> Option<nat>)
    returns (lines: seq<Line>, found: nat, missing: nat, total: nat)
    ensures |lines| == |entries|
    ensures forall i :: 0 <= i < |lines| ==> lines[i] == LineOf(entries[i], sizeOf)
    ensures found == ReadyCount(entries, sizeOf) && found + missing == |entries|
    ensures total == TotalSize(entries, sizeOf)
    ensures missing == 0 <==> forall i :: 0 <= i < |lines| ==> lines[i].size.Some?
  {
    lines, found, missing, total := [], 0, 0, 0;
    for i := 0 to |entries|
      invariant |lines| == i
      invariant forall k :: 0 <= k < i ==> lines[k] == LineOf(entries[k], sizeOf)
      invariant found == ReadyCount(entries[..i], sizeOf) && found + missing == i
      invariant total == TotalSize(entries[..i], sizeOf)
    {
      assert entries[..i + 1][..i] == entries[..i];
      var entry := entries[i];
      var size := sizeOf(PredictFrames.WeightsPath(entry.0));
      if size.Some? {
        found := found + 1;
        total := total + size.value;
      } else {
        missing := missing + 1;
      }
      lines := lines + [LineOf(entry, sizeOf)];
    }
    assert entries[..|entries|] == entries;
  }

  /**
   * `main` over a weight table (the registry `WeightRegistry.Registry` in
   * the program): its entries surveyed in model-key order.
   */
  method Status(registry: seq<(string, WeightRegistry.WeightMeta)>, sizeOf: string -> Option<nat>)
    returns (lines: seq<Line>, found: nat, missing: nat, total: nat)
    ensures |lines| == |registry| && found + missing == |registry|
    ensures forall i :: 0 <= i < |lines| ==> lines[i] == LineOf(SortedByKey(registry)[i], sizeOf)
    ensures found == ReadyCount(SortedByKey(registry), sizeOf) && total == TotalSize(SortedByKey(registry), sizeOf)
    ensures missing == 0 <==> forall i :: 0 <= i < |lines| ==> lines[i].size.Some?
  {
    lines, found, missing, total := Survey(SortedByKey(registry), sizeOf);
  }
}
