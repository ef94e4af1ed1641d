/**
 * The table from DeepfakeBench weight file names to the detector they hold
 * and the square input size it expects, and the lookups the tools perform
 * on it.
 */
module WeightRegistry {

  import opened Wrappers
  import opened Strings

  datatype WeightMeta = WeightMeta(modelKey: string, inputSize: nat)

  /** `WEIGHT_REGISTRY`, entries in insertion order. */
  const Registry: seq<(string, WeightMeta)> := [
    ("xception_best.pth", WeightMeta("xception", 299)),
    ("meso4_best.pth", WeightMeta("meso4", 256)),
    ("meso4Incep_best.pth", WeightMeta("meso4Inception", 256)),
    ("f3net_best.pth", WeightMeta("f3net", 224)),
    ("effnb4_best.pth", WeightMeta("efficientnetb4", 380)),
    ("capsule_best.pth", WeightMeta("capsule_net", 128)),
    ("srm_best.pth", WeightMeta("srm", 299)),
    ("recce_best.pth", WeightMeta("recce", 224)),
    ("spsl_best.pth", WeightMeta("spsl", 224)),
    ("ffd_best.pth", WeightMeta("ffd", 224)),
    ("ucf_best.pth", WeightMeta("ucf", 224)),
    ("cnnaug_best.pth", WeightMeta("multi_attention", 224)),
    ("core_best.pth", WeightMeta("core", 224))
  ]

  /** `WEIGHT_REGISTRY.get(filename)`. */
  function LookupFile(filename: string): (r: Option<WeightMeta>)
    ensures r.Some? <==> exists k :: 0 <= k < |Registry| && Registry[k].0 == filename
    ensures r.Some? ==> exists k :: 0 <= k < |Registry| && Registry[k] == (filename, r.value)
  {
    FindFile(Registry, filename)
  }

  function FindFile(entries: seq<(string, WeightMeta)>, filename: string): (r: Option<WeightMeta>)
    ensures r.Some? <==> exists k :: 0 <= k < |entries| && entries[k].0 == filename
    ensures r.Some? ==> exists k :: 0 <= k < |entries| && entries[k] == (filename, r.value)
  {
    if entries == [] then None
    else if entries[0].0 == filename then Some(entries[0].1)
    else FindFile(entries[1..], filename)
  }

  /**
   * The first entry, in table order, whose model key equals `key`; with
   * `foldCase` the stored key is lower-cased before the comparison.
   */
  function FindByModelKey(entries: seq<(string, WeightMeta)>, key: string, foldCase: bool): (r: Option<nat>)
    ensures r.Some? ==> r.value < |entries| && KeyOf(entries[r.value].1, foldCase) == key
    ensures r.Some? ==> forall j :: 0 <= j < r.value ==> KeyOf(entries[j].1, foldCase) != key
    ensures r.None? ==> forall j :: 0 <= j < |entries| ==> KeyOf(entries[j].1, foldCase) != key
  {
    if entries == [] then None
    else if KeyOf(entries[0].1, foldCase) == key then Some(0)
    else match FindByModelKey(entries[1..], key, foldCase)
      case None => None
      case Some(i) => Some(i + 1)
  }

  function KeyOf(m: WeightMeta, foldCase: bool): string
  {
    if foldCase then Lower(m.modelKey) else m.modelKey
  }

  // ---------------------------------------------------------------------------
  // Invariants of the table.

  /** Every key is a file name ending in "_best.pth". */
  lemma FileNamesEndInBestPth()
    ensures forall k :: 0 <= k < |Registry| ==> EndsWith(Registry[k].0, "_best.pth")
  {
    BestPthBetween(0, 7);
    BestPthBetween(7, 13);
  }

  lemma BestPthBetween(lo: nat, hi: nat)
    requires (lo, hi) == (0, 7) || (lo, hi) == (7, 13)
    ensures forall k :: lo <= k < hi ==> EndsWith(Registry[k].0, "_best.pth")
  {
    forall k | lo <= k < hi
      ensures EndsWith(Registry[k].0, "_best.pth")
    {
      BestPthByChars(Registry[k].0);
    }
  }

  /** The suffix test spelled out character by character. */
  lemma BestPthByChars(f: string)
    requires |f| >= 9
    requires f[|f| - 9] == '_' && f[|f| - 8] == 'b' && f[|f| - 7] == 'e' && f[|f| - 6] == 's' && f[|f| - 5] == 't'
    requires f[|f| - 4] == '.' && f[|f| - 3] == 'p' && f[|f| - 2] == 't' && f[|f| - 1] == 'h'
    ensures EndsWith(f, "_best.pth")
  {
    var t := f[|f| - 9..];
    assert t[0] == '_' && t[1] == 'b' && t[2] == 'e' && t[3] == 's' && t[4] == 't';
    assert t[5] == '.' && t[6] == 'p' && t[7] == 't' && t[8] == 'h';
  }

  /** Every input size lies in [64, 512]. */
  lemma InputSizesInRange()
    ensures forall k :: 0 <= k < |Registry| ==> 64 <= Registry[k].1.inputSize <= 512
  {}

  /** Length and lower-cased first letter of each model key, in table order. */
  const KeySignatures: seq<(nat, char)> := [
    (8, 'x'), (5, 'm'), (14, 'm'), (5, 'f'), (14, 'e'), (11, 'c'), (3, 's'),
    (5, 'r'), (4, 's'), (3, 'f'), (3, 'u'), (15, 'm'), (4, 'c')
  ]

  lemma SignaturesMatch()
    ensures |KeySignatures| == |Registry|
    ensures forall k :: 0 <= k < |Registry| ==>
      |Registry[k].1.modelKey| == KeySignatures[k].0 && LowerChar(Registry[k].1.modelKey[0]) == KeySignatures[k].1
  {}

  lemma SignaturesDistinct()
    ensures forall a, b :: 0 <= a < b < |KeySignatures| ==> KeySignatures[a] != KeySignatures[b]
  {}

  /**
   * Model keys are pairwise distinct, also after lower-casing, so the
   * first-match lookups by key find the only match.
   */
  lemma {:induction false} ModelKeysDistinct()
    ensures forall a, b :: 0 <= a < b < |Registry| ==> Lower(Registry[a].1.modelKey) != Lower(Registry[b].1.modelKey)
    ensures forall a, b :: 0 <= a < b < |Registry| ==> Registry[a].1.modelKey != Registry[b].1.modelKey
  {
    SignaturesMatch();
    SignaturesDistinct();
    forall a, b | 0 <= a < b < |Registry|
      ensures Lower(Registry[a].1.modelKey) != Lower(Registry[b].1.modelKey)
    {
      var x, y := Registry[a].1.modelKey, Registry[b].1.modelKey;
      assert Lower(x)[0] == LowerChar(x[0]) && Lower(y)[0] == LowerChar(y[0]);
    }
  }

  /** Two entries whose keys agree up to case are the same entry. */
  lemma {:induction false} LowerKeyDeterminesEntry(a: nat, b: nat)
    requires a < |Registry| && b < |Registry|
    requires Lower(Registry[a].1.modelKey) == Lower(Registry[b].1.modelKey)
    ensures a == b
  {
    ModelKeysDistinct();
  }

  /** The twelve detectors the test suite expects. */
  const ExpectedKeys: seq<string> := [
    "xception", "meso4", "meso4Inception", "f3net", "efficientnetb4", "capsule_net",
    "srm", "recce", "spsl", "ucf", "multi_attention", "core"
  ]

  /** Some entry of the table holds the detector `key`. */
  ghost predicate IsModelKey(key: string) {
    exists k :: 0 <= k < |Registry| && Registry[k].1.modelKey == key
  }

  /** Where each expected detector sits in the table. */
  const ExpectedPositions: seq<nat> := [0, 1, 2, 3, 4, 5, 6, 7, 8, 10, 11, 12]

  /** Each of the twelve expected detectors has a weight file, and the exact-key lookup finds it. */
  lemma {:induction false} ExpectedKeysPresent()
    ensures forall e :: 0 <= e < |ExpectedKeys| ==> IsModelKey(ExpectedKeys[e])
    ensures forall e :: 0 <= e < |ExpectedKeys| ==> FindByModelKey(Registry, ExpectedKeys[e], false).Some?
  {
    forall e | 0 <= e < |ExpectedKeys|
      ensures IsModelKey(ExpectedKeys[e]) && FindByModelKey(Registry, ExpectedKeys[e], false).Some?
    {
      assert Registry[ExpectedPositions[e]].1.modelKey == ExpectedKeys[e];
      assert KeyOf(Registry[ExpectedPositions[e]].1, false) == ExpectedKeys[e];
    }
  }

  /** The table has thirteen entries, not twelve: the thirteenth is "ffd", which the test suite does not expect. */
  lemma ThirteenEntries()
    ensures |Registry| == 13
    ensures Registry[9] == ("ffd_best.pth", WeightMeta("ffd", 224))
    ensures "ffd" !in ExpectedKeys
  {}
}
