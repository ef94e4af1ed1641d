/**
 * Turning a detector's raw output into one fake probability.  The network
 * itself is a parameter: a function from the calling convention tried to
 * what that call returned or raised.  Softmax and sigmoid are parameters too
 * (`Activations`), only assumed to land strictly between 0 and 1.
 *
 * Two variants exist: the video adapter's `_run_inference` picks the first
 * output key that is present and has a direct path for outputs carrying both
 * 'prob' and 'cls'; the frame-scoring script's `run_inference` picks with
 * Python's `or`, i.e. by tensor truthiness, and has no direct path.
 */
module Inference {

  import opened Wrappers

  // ---------------------------------------------------------------------------
  // Tensors and model outputs.

  function Product(s: seq<nat>): nat
  {
    if s == [] then 1 else s[0] * Product(s[1..])
  }

  /** A tensor: its shape and its elements in row-major order. */
  datatype Tensor = Tensor(shape: seq<nat>, data: seq<real>)

  /** A real tensor holds exactly as many elements as its shape says. */
  type WfTensor = t: Tensor | |t.data| == Product(t.shape) witness Tensor([], [0.0])

  /** A value in an output dictionary: a tensor, Python's `None`, or some other object of the given truthiness. */
  datatype Value = TensorValue(t: WfTensor) | NoneValue | Other(truthy: bool)

  /** What a forward call returns: a dictionary (entries in insertion order) or a single value. */
  datatype Output = Dict(entries: seq<(string, Value)>) | Single(v: Value)

  /** The three calling conventions, tried in this order. */
  datatype CallForm = DictWithInferenceFlag | DictOnly | TensorOnly

  datatype Exception = TypeError | KeyError | OtherError

  datatype CallOutcome = Returned(out: Output) | Raised(e: Exception)

  datatype InferenceError =
    | CallFailed(e: Exception)  // the forward call raised and the fallback chain ended
    | NotATensor                // `.dim()` / `.item()` on None or another non-tensor
    | IndexError                // indexing an empty axis, or `shape[-1]` of a 0-d tensor
    | ItemError                 // `.item()` on a tensor with more than one element
    | AmbiguousTruth            // `bool()` of a tensor without exactly one element
    | Unsupported               // tensors of rank 3 or more are not modelled
    | DebugLogFailed            // the adapter's debug line on 'cls' raised (IndexError or TypeError)

  // ---------------------------------------------------------------------------
  // The calling-convention fallback.

  /** Whether the error raised by the call in `form` lets the chain try the next form. */
  predicate Continues(form: CallForm, o: CallOutcome)
  {
    match form
    case DictWithInferenceFlag => o == Raised(TypeError)
    case DictOnly => o == Raised(TypeError) || o == Raised(KeyError)
    case TensorOnly => false
  }

  function NextForm(form: CallForm): CallForm
    requires form != TensorOnly
  {
    if form == DictWithInferenceFlag then DictOnly else TensorOnly
  }

  /** The calls made, in order: each later call is made only because the previous one raised a continuing error. */
  function CallsMade(model: CallForm -> CallOutcome, form: CallForm): (r: seq<CallForm>)
    ensures 1 <= |r| <= 3 && r[0] == form
    ensures forall k :: 0 <= k < |r| - 1 ==> r[k] != TensorOnly && Continues(r[k], model(r[k])) && r[k + 1] == NextForm(r[k])
    ensures !Continues(r[|r| - 1], model(r[|r| - 1]))
    decreases if form == DictWithInferenceFlag then 2 else if form == DictOnly then 1 else 0
  {
    if Continues(form, model(form)) then [form] + CallsMade(model, NextForm(form)) else [form]
  }

  /**
   * `model(data_dict, inference=True)`, falling back to `model(data_dict)` on
   * TypeError and to `model(tensor)` on TypeError or KeyError; anything else
   * propagates.  The outcome is the outcome of the last call made.
   */
  function Invoke(model: CallForm -> CallOutcome): (r: CallOutcome)
    ensures r == model(Last(CallsMade(model, DictWithInferenceFlag)))
  {
    match model(DictWithInferenceFlag)
    case Raised(TypeError) =>
      (match model(DictOnly)
       case Raised(TypeError) => model(TensorOnly)
       case Raised(KeyError) => model(TensorOnly)
       case other => other)
    case other => other
  }

  function Last<T>(s: seq<T>): T
    requires s != []
  {
    s[|s| - 1]
  }

  /** A KeyError or any other non-TypeError from the first call is never retried. */
  lemma FirstCallErrorsPropagate(model: CallForm -> CallOutcome)
    requires model(DictWithInferenceFlag) == Raised(KeyError) || model(DictWithInferenceFlag) == Raised(OtherError)
    ensures CallsMade(model, DictWithInferenceFlag) == [DictWithInferenceFlag]
    ensures Invoke(model) == model(DictWithInferenceFlag)
  {}

  // ---------------------------------------------------------------------------
  // Dictionary access.

  predicate HasKey(entries: seq<(string, Value)>, key: string)
  {
    exists k :: 0 <= k < |entries| && entries[k].0 == key
  }

  /** `output.get(key)`: the value stored under key. */
  function Get(entries: seq<(string, Value)>, key: string): (r: Option<Value>)
    ensures r.Some? <==> HasKey(entries, key)
    ensures r.Some? ==> exists k :: 0 <= k < |entries| && entries[k] == (key, r.value)
  {
    if entries == [] then None
    else if entries[0].0 == key then Some(entries[0].1)
    else Get(entries[1..], key)
  }

  /** The first tensor among the dictionary's values, in insertion order. */
  function FirstTensor(entries: seq<(string, Value)>): (r: Option<WfTensor>)
    ensures r.Some? ==> exists k :: 0 <= k < |entries| && entries[k].1 == TensorValue(r.value)
    ensures r.None? ==> forall k :: 0 <= k < |entries| ==> !entries[k].1.TensorValue?
  {
    if entries == [] then None
    else if entries[0].1.TensorValue? then Some(entries[0].1.t)
    else FirstTensor(entries[1..])
  }

  const PriorityKeys: seq<string> := ["prob", "cls", "logits", "pred"]

  /** The adapter's choice: the value under the first priority key present. */
  function FirstPresent(entries: seq<(string, Value)>, keys: seq<string>): (r: Option<Value>)
    ensures r.None? <==> forall k :: 0 <= k < |keys| ==> !HasKey(entries, keys[k])
    ensures r.Some? ==> exists k :: 0 <= k < |keys| && Get(entries, keys[k]) == r &&
                          forall j :: 0 <= j < k ==> !HasKey(entries, keys[j])
  {
    if keys == [] then None
    else if HasKey(entries, keys[0]) then Get(entries, keys[0])
    else
      var r := FirstPresent(entries, keys[1..]);
      assert r.Some? ==> exists k :: 0 <= k < |keys| - 1 && Get(entries, keys[1..][k]) == r &&
                          forall j :: 0 <= j < k ==> !HasKey(entries, keys[1..][j]);
      r
  }

  /** `x is None`: a missing key read with `get`, or a stored `None`. */
  predicate IsNone(v: Option<Value>) {
    v.None? || v == Some(NoneValue)
  }

  /** Python truthiness of an optional value: None is false; a tensor needs exactly one element. */
  function Truth(v: Option<Value>): (r: Result<bool, InferenceError>)
    ensures r.Err? <==> v.Some? && v.value.TensorValue? && |v.value.t.data| != 1
    ensures IsNone(v) ==> r == Ok(false)
  {
    match v
    case None => Ok(false)
    case Some(NoneValue) => Ok(false)
    case Some(Other(b)) => Ok(b)
    case Some(TensorValue(t)) => if |t.data| == 1 then Ok(t.data[0] != 0.0) else Err(AmbiguousTruth)
  }

  /** `a or b or …`: the first truthy operand, else the last one, which is never tested. */
  function OrChain(vs: seq<Option<Value>>): (r: Result<Option<Value>, InferenceError>)
    requires vs != []
    ensures r.Ok? ==> r.value in vs
    ensures r.Ok? && r.value != Last(vs) ==> Truth(r.value) == Ok(true)
  {
    if |vs| == 1 then Ok(vs[0])
    else match Truth(vs[0])
      case Err(e) => Err(e)
      case Ok(true) => Ok(vs[0])
      case Ok(false) => OrChain(vs[1..])
  }

  // ---------------------------------------------------------------------------
  // From tensor to probability.

  /** How the probability is obtained from the selected tensor. */
  datatype Conversion =
    | Direct(p: real)                 // the value itself, no activation
    | SoftmaxAt(row: seq<real>, k: nat) // class k of the softmax over row
    | SigmoidOf(x: real)

  /** Softmax and sigmoid, uninterpreted. */
  datatype Activations = Activations(sigmoid: real -> real, softmax: (seq<real>, nat) -> real)

  /** Both activations land strictly between 0 and 1 (softmax over at least two classes). */
  ghost predicate SoundActivations(act: Activations)
  {
    (forall x :: 0.0 < act.sigmoid(x) < 1.0) &&
    (forall row, k: nat :: 2 <= |row| && k < |row| ==> 0.0 < act.softmax(row, k) < 1.0)
  }

  function Apply(act: Activations, c: Conversion): real
    requires c.SoftmaxAt? ==> c.k < |c.row|
  {
    match c
    case Direct(p) => p
    case SoftmaxAt(row, k) => act.softmax(row, k)
    case SigmoidOf(x) => act.sigmoid(x)
  }

  /**
   * The shape dispatch both variants share: 1-D of length 2 → softmax[1];
   * other 1-D → sigmoid(x[0]); last dimension 2 → row 0 of softmax over
   * classes, class 1; last dimension 1 → sigmoid(x[0,0]); otherwise row 0,
   * last class.
   */
  function Dispatch(t: WfTensor): (r: Result<Conversion, InferenceError>)
    ensures r.Ok? ==> !r.value.Direct?
    ensures r.Ok? && r.value.SoftmaxAt? ==> 2 <= |r.value.row| && r.value.k < |r.value.row|
    ensures |t.shape| == 1 && t.shape[0] == 2 ==> r == Ok(SoftmaxAt(t.data, 1))
    ensures |t.shape| == 0 ==> r == Err(IndexError)
    ensures |t.shape| >= 3 ==> r == Err(Unsupported)
  {
    if |t.shape| == 0 then Err(IndexError)
    else if |t.shape| == 1 then
      if t.shape[0] == 2 then Ok(SoftmaxAt(t.data, 1))
      else if t.shape[0] == 0 then Err(IndexError)
      else Ok(SigmoidOf(t.data[0]))
    else if |t.shape| == 2 then
      var rows, cols := t.shape[0], t.shape[1];
      assert |t.data| == rows * cols by { assert Product(t.shape) == rows * Product(t.shape[1..]); }
      if rows == 0 then Err(IndexError)
      else
        assert cols <= rows * cols;
        if cols == 2 then Ok(SoftmaxAt(t.data[..2], 1))
        else if cols == 1 then Ok(SigmoidOf(t.data[0]))
        else if cols == 0 then Err(IndexError)
        else Ok(SoftmaxAt(t.data[..cols], cols - 1))
    else Err(Unsupported)
  }

  /** Every probability the shape dispatch produces lies strictly between 0 and 1. */
  lemma DispatchInUnitInterval(act: Activations, t: WfTensor)
    requires SoundActivations(act)
    requires Dispatch(t).Ok?
    ensures 0.0 < Apply(act, Dispatch(t).value) < 1.0
  {}

  /**
   * The adapter's direct path for outputs carrying both 'prob' and 'cls':
   * `item()` of a scalar or one-element vector, else `logits[0].item()`.
   */
  function DirectValue(t: WfTensor): (r: Result<real, InferenceError>)
    ensures r.Ok? ==> |t.data| > 0 && r.value == t.data[0]
  {
    if |t.shape| == 0 || (|t.shape| == 1 && t.shape[0] == 1) then
      assert |t.data| == 1 by { if |t.shape| == 1 { assert Product(t.shape) == t.shape[0] * Product([]); } }
      Ok(t.data[0])
    else if t.shape[0] == 0 then Err(IndexError)
    else if Product(t.shape[1..]) != 1 then Err(ItemError)
    else
      assert Product(t.shape) == t.shape[0] * Product(t.shape[1..]);
      Ok(t.data[0])
  }

  /**
   * The debug line of the direct path formats `output['cls'][0]` and classes
   * 0 and 1 of row 0 of `torch.softmax(output['cls'], dim=1)` as numbers.
   * That only works for a tensor of two dimensions with at least one row and
   * two classes: anything else raises (a non-tensor, an index out of range,
   * or a formatted tensor that is not a scalar).
   */
  predicate DebugLoggable(cls: Value) {
    cls.TensorValue? && |cls.t.shape| == 2 && cls.t.shape[0] >= 1 && cls.t.shape[1] >= 2
  }

  /** The debug line runs for the first ten frames of an analysis and for every probability above 0.8. */
  predicate DebugLogged(frameCount: nat, p: real) {
    frameCount <= 10 || p > 0.8
  }

  // ---------------------------------------------------------------------------
  // The two variants.

  /**
   * The adapter's `_run_inference` on the `frameCount`-th frame of an
   * analysis: the class-level counter is reset when an analysis starts and
   * counts this frame before the probability is taken.
   */
  function AdapterProbability(model: CallForm -> CallOutcome, act: Activations, frameCount: nat): (r: Result<real, InferenceError>)
    ensures Invoke(model).Raised? ==> r == Err(CallFailed(Invoke(model).e))
  {
    match Invoke(model)
    case Raised(e) => Err(CallFailed(e))
    case Returned(Single(v)) => ConvertValue(Some(v), act)
    case Returned(Dict(entries)) =>
      var chosen := AdapterSelect(entries);
      if HasKey(entries, "prob") && HasKey(entries, "cls") then
        match chosen
        case Some(TensorValue(t)) =>
          (match DirectValue(t)
           case Err(e) => Err(e)
           case Ok(p) =>
             if DebugLogged(frameCount, p) && !DebugLoggable(Get(entries, "cls").value) then Err(DebugLogFailed)
             else Ok(p))
        case _ => Err(NotATensor)
      else ConvertValue(chosen, act)
  }

  /**
   * The adapter's selection: the value under the first priority key present
   * unless that value is None, else the first tensor value, else None.
   */
  function AdapterSelect(entries: seq<(string, Value)>): (r: Option<Value>)
    ensures !IsNone(FirstPresent(entries, PriorityKeys)) ==> r == FirstPresent(entries, PriorityKeys)
    ensures IsNone(FirstPresent(entries, PriorityKeys)) && FirstTensor(entries).Some? ==>
              r == Some(TensorValue(FirstTensor(entries).value))
    ensures IsNone(FirstPresent(entries, PriorityKeys)) && FirstTensor(entries).None? ==> r.None?
    ensures r != Some(NoneValue)
  {
    var first := FirstPresent(entries, PriorityKeys);
    if !IsNone(first) then first
    else
      match FirstTensor(entries)
      case Some(t) => Some(TensorValue(t))
      case None => None
  }

  /**
   * On the direct path the adapter returns the 'prob' value unless the debug
   * line runs for this frame and cannot format 'cls'.
   */
  lemma {:induction false} DirectPathGate(entries: seq<(string, Value)>, act: Activations, frameCount: nat, t: WfTensor, p: real)
    requires HasKey(entries, "prob") && HasKey(entries, "cls")
    requires AdapterSelect(entries) == Some(TensorValue(t)) && DirectValue(t) == Ok(p)
    ensures Get(entries, "cls").Some?
    ensures AdapterProbability(_ => Returned(Dict(entries)), act, frameCount) ==
              if DebugLogged(frameCount, p) && !DebugLoggable(Get(entries, "cls").value) then Err(DebugLogFailed) else Ok(p)
  {
    var model: CallForm -> CallOutcome := _ => Returned(Dict(entries));
    assert Invoke(model) == Returned(Dict(entries));
  }

  /** Dispatch on the selected value; None and non-tensors have no `.dim()`. */
  function ConvertValue(v: Option<Value>, act: Activations): (r: Result<real, InferenceError>)
    ensures r.Ok? ==> v.Some? && v.value.TensorValue? && Dispatch(v.value.t).Ok?
  {
    match v
    case Some(TensorValue(t)) =>
      (match Dispatch(t)
       case Ok(c) => Ok(Apply(act, c))
       case Err(e) => Err(e))
    case _ => Err(NotATensor)
  }

  /** The script's `run_inference`: `or` over prob/cls/logits/pred, then the first tensor when that is None. */
  function ScriptProbability(model: CallForm -> CallOutcome, act: Activations): (r: Result<real, InferenceError>)
    ensures Invoke(model).Raised? ==> r == Err(CallFailed(Invoke(model).e))
  {
    match Invoke(model)
    case Raised(e) => Err(CallFailed(e))
    case Returned(Single(v)) => ConvertValue(Some(v), act)
    case Returned(Dict(entries)) =>
      match OrChain([Get(entries, "prob"), Get(entries, "cls"), Get(entries, "logits"), Get(entries, "pred")])
      case Err(e) => Err(e)
      case Ok(chosen) =>
        if IsNone(chosen) then
          match FirstTensor(entries)
          case Some(t) => ConvertValue(Some(TensorValue(t)), act)
          case None => Err(NotATensor)
        else ConvertValue(chosen, act)
  }

  // ---------------------------------------------------------------------------
  // Properties.

  /**
   * Unless the adapter takes its direct path, every probability it returns
   * lies strictly between 0 and 1; the script's always does.
   */
  lemma {:induction false} ProbabilitiesInUnitInterval(model: CallForm -> CallOutcome, act: Activations, frameCount: nat)
    requires SoundActivations(act)
    ensures ScriptProbability(model, act).Ok? ==> 0.0 < ScriptProbability(model, act).value < 1.0
    ensures AdapterProbability(model, act, frameCount).Ok? &&
            !(Invoke(model).Returned? && Invoke(model).out.Dict? &&
              HasKey(Invoke(model).out.entries, "prob") && HasKey(Invoke(model).out.entries, "cls"))
            ==> 0.0 < AdapterProbability(model, act, frameCount).value < 1.0
  {
    match Invoke(model)
    case Raised(e) =>
    case Returned(Single(v)) =>
      ConvertValueInUnitInterval(Some(v), act);
    case Returned(Dict(entries)) =>
      ConvertValueInUnitInterval(AdapterSelect(entries), act);
      match OrChain([Get(entries, "prob"), Get(entries, "cls"), Get(entries, "logits"), Get(entries, "pred")]) {
        case Err(e) =>
        case Ok(c) =>
          if IsNone(c) {
            match FirstTensor(entries) {
              case Some(t) => ConvertValueInUnitInterval(Some(TensorValue(t)), act);
              case None =>
            }
          } else {
            ConvertValueInUnitInterval(c, act);
          }
      }
  }

  lemma {:induction false} ConvertValueInUnitInterval(v: Option<Value>, act: Activations)
    requires SoundActivations(act)
    ensures ConvertValue(v, act).Ok? ==> 0.0 < ConvertValue(v, act).value < 1.0
  {
    if ConvertValue(v, act).Ok? {
      DispatchInUnitInterval(act, v.value.t);
    }
  }

  /**
   * Scenario: with a 1×2 'cls' the debug line goes through, and the direct
   * path returns 'prob' unchecked, even outside [0, 1], on any frame.
   */
  lemma {:induction false} DirectPathUnchecked(act: Activations, frameCount: nat)
    ensures var out := Dict([("cls", TensorValue(Tensor([1, 2], [0.0, 0.0]))), ("prob", TensorValue(Tensor([1], [7.0])))]);
            AdapterProbability(_ => Returned(out), act, frameCount) == Ok(7.0)
  {
    var cls: WfTensor := Tensor([1, 2], [0.0, 0.0]);
    var entries := [("cls", TensorValue(cls)), ("prob", TensorValue(Tensor([1], [7.0])))];
    assert HasKey(entries, "prob") by { assert entries[1].0 == "prob"; }
    assert HasKey(entries, "cls") by { assert entries[0].0 == "cls"; }
    assert entries[0].0 != "prob";
    assert Get(entries, "cls") == Some(TensorValue(cls));
  }

  /**
   * Scenario: a 'cls' that is not a tensor makes the debug line raise during
   * the first ten frames, while from the eleventh frame on a probability of
   * at most 0.8 is returned without it.
   */
  lemma {:induction false} DebugLineRaises(act: Activations)
    ensures var out := Dict([("cls", Other(true)), ("prob", TensorValue(Tensor([1], [0.5])))]);
            AdapterProbability(_ => Returned(out), act, 3) == Err(DebugLogFailed) &&
            AdapterProbability(_ => Returned(out), act, 11) == Ok(0.5)
  {
    var entries := [("cls", Other(true)), ("prob", TensorValue(Tensor([1], [0.5])))];
    assert HasKey(entries, "prob") by { assert entries[1].0 == "prob"; }
    assert HasKey(entries, "cls") by { assert entries[0].0 == "cls"; }
    assert entries[0].0 != "prob";
    assert Get(entries, "cls") == Some(Other(true));
  }

  /**
   * Scenario: 'prob' stored as None makes both variants fall back to the
   * first tensor, a one-element 'cls' holding 0.  The script then applies
   * the sigmoid; the adapter takes its direct path and returns the raw 0.
   */
  lemma {:induction false} StoredNoneFallsBack(act: Activations)
    ensures var out := Dict([("prob", NoneValue), ("cls", TensorValue(Tensor([1], [0.0])))]);
            AdapterProbability(_ => Returned(out), act, 11) == Ok(0.0) &&
            ScriptProbability(_ => Returned(out), act) == Ok(act.sigmoid(0.0))
  {
    var cls: WfTensor := Tensor([1], [0.0]);
    var entries := [("prob", NoneValue), ("cls", TensorValue(cls))];
    assert HasKey(entries, "prob") by { assert entries[0].0 == "prob"; }
    assert HasKey(entries, "cls") by { assert entries[1].0 == "cls"; }
    assert FirstPresent(entries, PriorityKeys) == Some(NoneValue);
    assert FirstTensor(entries) == Some(cls);
    assert AdapterSelect(entries) == Some(TensorValue(cls));
    assert DirectValue(cls) == Ok(0.0);
    assert Get(entries, "cls") == Some(TensorValue(cls));
    assert Get(entries, "logits") == None;
    assert Get(entries, "pred") == None;
    var chain := [Get(entries, "prob"), Get(entries, "cls"), Get(entries, "logits"), Get(entries, "pred")];
    assert Truth(chain[0]) == Ok(false);
    assert Truth(chain[1]) == Ok(false);
    assert Truth(chain[2]) == Ok(false);
    assert OrChain(chain[3..]) == Ok(None);
    assert OrChain(chain[2..]) == Ok(None) by { assert chain[2..][1..] == chain[3..]; }
    assert OrChain(chain[1..]) == Ok(None) by { assert chain[1..][1..] == chain[2..]; }
    assert OrChain(chain) == Ok(None);
  }

  /**
   * Scenario: the two variants disagree.  With a one-element 'prob' of 0 and
   * a two-class 'logits', the adapter applies the sigmoid to the 'prob'
   * value, while the script finds 'prob' falsy and then asks for the truth of
   * the two-element 'logits', which Python refuses.
   */
  lemma {:induction false} VariantsDisagree(act: Activations, frameCount: nat)
    ensures var out := Dict([("prob", TensorValue(Tensor([1], [0.0]))), ("logits", TensorValue(Tensor([2], [1.0, 2.0])))]);
            AdapterProbability(_ => Returned(out), act, frameCount) == Ok(act.sigmoid(0.0)) &&
            ScriptProbability(_ => Returned(out), act) == Err(AmbiguousTruth)
  {
    var entries := [("prob", TensorValue(Tensor([1], [0.0]))), ("logits", TensorValue(Tensor([2], [1.0, 2.0])))];
    assert HasKey(entries, "prob") by { assert entries[0].0 == "prob"; }
    assert !HasKey(entries, "cls");
    assert Get(entries, "cls") == None;
    assert Get(entries, "logits") == Some(entries[1].1) by { assert entries[0].0 != "logits"; }
    var chain := [Get(entries, "prob"), Get(entries, "cls"), Get(entries, "logits"), Get(entries, "pred")];
    assert Truth(chain[0]) == Ok(false);
    assert Truth(chain[1]) == Ok(false);
    assert Truth(chain[2]) == Err(AmbiguousTruth);
    assert OrChain(chain[2..]) == Err(AmbiguousTruth);
    assert OrChain(chain[1..]) == Err(AmbiguousTruth) by { assert chain[1..][1..] == chain[2..]; }
    assert OrChain(chain) == Err(AmbiguousTruth);
  }

  /**
   * Scenario: in the script a falsy 'prob' is passed over by the `or`, the
   * chain ends on the absent 'pred' (None), and the first-tensor fallback
   * then picks 'prob' after all.
   */
  lemma {:induction false} FalsyProbReselected(act: Activations)
    ensures var out := Dict([("prob", TensorValue(Tensor([1], [0.0])))]);
            ScriptProbability(_ => Returned(out), act) == Ok(act.sigmoid(0.0))
  {
    var entries := [("prob", TensorValue(Tensor([1], [0.0])))];
    assert Get(entries, "cls") == None;
    assert Get(entries, "logits") == None;
    assert Get(entries, "pred") == None;
    var chain := [Get(entries, "prob"), Get(entries, "cls"), Get(entries, "logits"), Get(entries, "pred")];
    assert Truth(chain[0]) == Ok(false);
    assert OrChain(chain[3..]) == Ok(None);
    assert OrChain(chain[2..]) == Ok(None) by { assert chain[2..][1..] == chain[3..]; }
    assert OrChain(chain[1..]) == Ok(None) by { assert chain[1..][1..] == chain[2..]; }
    assert OrChain(chain) == Ok(None);
  }
}
