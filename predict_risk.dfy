/** The sprint-risk predictor script: it reads one JSON request on stdin, checks that it
    carries a `features` object with the six numeric risk features, asks the trained model
    for a label and a confidence, and writes either the result or an error object. */
module PredictRisk {
  import opened Wrappers
  import opened Json
  import Text

  /** The column order the model was trained on. */
  const RiskFeatureKeys: seq<string> := [
    "committedEffort",
    "teamCapacity",
    "historicalVelocity",
    "missedStories",
    "teamChanges",
    "bugsOpen"
  ]

  /** The reasons the script reports. `Other` stands for every exception raised by the
      JSON decoder, by Python itself (a subscript or membership test on the wrong type) or
      by the model; its text comes from the library and is not modelled. */
  datatype Failure =
    | EmptyInput
    | MissingFeaturesProperty
    | FeaturesNotObject
    | MissingFeature(key: string)
    | NonNumericFeature(key: string, value: Json)
    | Other

  /** The error message `str(e)`; `repr` is Python's `repr` of a JSON value. */
  function Message(e: Failure, repr: Json -> string): string {
    match e
    case EmptyInput => "No se recibió entrada por stdin."
    case MissingFeaturesProperty => "JSON debe tener una propiedad 'features'."
    case FeaturesNotObject => "'features' debe ser un objeto JSON (dict)."
    case MissingFeature(key) => "Falta la feature requerida: '" + key + "'"
    case NonNumericFeature(key, value) => "Feature '" + key + "' debe ser numérica, valor recibido: " + repr(value)
    case Other => "<exception text>"
  }

  /** The feature vector of `features` over the keys `keys`, or the failure for the first key
      that is missing or not numeric. */
  function Vector(features: map<string, Json>, keys: seq<string>, parseNumeral: string -> Option<real>): (r: Result<seq<real>, Failure>)
    ensures r.Ok? ==> |r.value| == |keys|
    ensures r.Ok? <==> forall i :: 0 <= i < |keys| ==> keys[i] in features && ToFloat(features[keys[i]], parseNumeral).Some?
    ensures r.Ok? ==> forall i :: 0 <= i < |keys| ==> Some(r.value[i]) == ToFloat(features[keys[i]], parseNumeral)
    ensures r.Err? ==> exists i :: 0 <= i < |keys| && FirstBadKey(features, keys, parseNumeral, i) && r.error == FailureAt(features, keys[i], parseNumeral)
  {
    if keys == [] then Ok([])
    else if keys[0] !in features then
      assert FirstBadKey(features, keys, parseNumeral, 0);
      Err(MissingFeature(keys[0]))
    else match ToFloat(features[keys[0]], parseNumeral)
      case None =>
        assert FirstBadKey(features, keys, parseNumeral, 0);
        Err(NonNumericFeature(keys[0], features[keys[0]]))
      case Some(x) =>
        match Vector(features, keys[1..], parseNumeral)
        case Ok(rest) => Ok([x] + rest)
        case Err(e) =>
          var i :| 0 <= i < |keys[1..]| && FirstBadKey(features, keys[1..], parseNumeral, i) && e == FailureAt(features, keys[1..][i], parseNumeral);
          assert FirstBadKey(features, keys, parseNumeral, i + 1) by {
            forall j | 0 <= j < i + 1 ensures Good(features, keys[j], parseNumeral) {
              if j > 0 { assert keys[j] == keys[1..][j - 1]; }
            }
          }
          Err(e)
  }

  /** Key `k` is present and numeric. */
  predicate Good(features: map<string, Json>, k: string, parseNumeral: string -> Option<real>) {
    k in features && ToFloat(features[k], parseNumeral).Some?
  }

  /** `keys[i]` is the first key that is missing or not numeric. */
  predicate FirstBadKey(features: map<string, Json>, keys: seq<string>, parseNumeral: string -> Option<real>, i: nat) {
    i < |keys| && !Good(features, keys[i], parseNumeral) && forall j :: 0 <= j < i ==> Good(features, keys[j], parseNumeral)
  }

  /** What is raised for a key that is not good: missing beats non-numeric. */
  function FailureAt(features: map<string, Json>, k: string, parseNumeral: string -> Option<real>): Failure {
    if k !in features then MissingFeature(k) else NonNumericFeature(k, features[k])
  }

  /** `build_feature_vector`: the loop over the schema, appending one value per key. */
  method BuildFeatureVector(features: map<string, Json>, parseNumeral: string -> Option<real>) returns (r: Result<seq<real>, Failure>)
    ensures r == Vector(features, RiskFeatureKeys, parseNumeral)
    ensures r.Ok? ==> |r.value| == 6
  {
    var values: seq<real> := [];
    var i := 0;
    while i < |RiskFeatureKeys|
      invariant 0 <= i <= |RiskFeatureKeys|
      invariant |values| == i
      invariant forall j :: 0 <= j < i ==>
        Good(features, RiskFeatureKeys[j], parseNumeral) && Some(values[j]) == ToFloat(features[RiskFeatureKeys[j]], parseNumeral)
    {
      var key := RiskFeatureKeys[i];
      if key !in features {
        r := Err(MissingFeature(key));
        assert FirstBadKey(features, RiskFeatureKeys, parseNumeral, i);
        VectorFirstBad(features, RiskFeatureKeys, parseNumeral, i);
        return;
      }
      var value := ToFloat(features[key], parseNumeral);
      if value.None? {
        r := Err(NonNumericFeature(key, features[key]));
        assert FirstBadKey(features, RiskFeatureKeys, parseNumeral, i);
        VectorFirstBad(features, RiskFeatureKeys, parseNumeral, i);
        return;
      }
      values := values + [value.value];
      i := i + 1;
    }
    r := Ok(values);
    var v := Vector(features, RiskFeatureKeys, parseNumeral);
    assert v.Ok?;
    assert v.value == values;
  }

  /** The failure `Vector` reports is the one for the first bad key. */
  lemma VectorFirstBad(features: map<string, Json>, keys: seq<string>, parseNumeral: string -> Option<real>, i: nat)
    requires FirstBadKey(features, keys, parseNumeral, i)
    ensures Vector(features, keys, parseNumeral) == Err(FailureAt(features, keys[i], parseNumeral))
  {
    var r := Vector(features, keys, parseNumeral);
    assert !Good(features, keys[i], parseNumeral);
    var k :| 0 <= k < |keys| && FirstBadKey(features, keys, parseNumeral, k) && r.error == FailureAt(features, keys[k], parseNumeral);
    assert !(k < i) && !(i < k);
  }

  /** The trained model: `predict` gives the stringified label of a row; `probabilities`
      is present when the model has `predict_proba`, together with the `classes_` list. */
  datatype RiskModel = RiskModel(
    predict: seq<real> -> string,
    probabilities: Option<seq<real> -> seq<real>>,
    classes: seq<string>)

  /** Python's `list.index`: the first position of `x`. */
  function IndexIn(xs: seq<string>, x: string): (i: nat)
    requires x in xs
    ensures i < |xs| && xs[i] == x && forall j :: 0 <= j < i ==> xs[j] != x
  {
    if xs[0] == x then 0 else 1 + IndexIn(xs[1..], x)
  }

  /** `np.argmax`: the first position of a maximal element. */
  function ArgMax(p: seq<real>): (i: nat)
    requires |p| > 0
    ensures i < |p| && (forall j :: 0 <= j < |p| ==> p[j] <= p[i]) && forall j :: 0 <= j < i ==> p[j] < p[i]
  {
    if |p| == 1 then 0
    else
      var k := 1 + ArgMax(p[1..]);
      assert forall j :: 1 <= j < |p| ==> p[j] == p[1..][j - 1];
      if p[0] >= p[k] then 0 else k
  }

  /** The confidence of the `predicted` label: its probability when it is among the classes, the
      largest probability otherwise; 0.8 for a model without `predict_proba`. Indexing past
      the probability vector, or `argmax` of an empty one, raises. */
  function Confidence(model: RiskModel, row: seq<real>, predicted: string): (r: Result<real, Failure>)
    ensures model.probabilities.None? ==> r == Ok(0.8)
    ensures model.probabilities.Some? && predicted in model.classes && IndexIn(model.classes, predicted) < |model.probabilities.value(row)|
      ==> r == Ok(model.probabilities.value(row)[IndexIn(model.classes, predicted)])
    ensures model.probabilities.Some? && predicted !in model.classes && |model.probabilities.value(row)| > 0
      ==> r.Ok? && forall j :: 0 <= j < |model.probabilities.value(row)| ==> model.probabilities.value(row)[j] <= r.value
    ensures r.Ok? && model.probabilities.Some? ==> r.value in model.probabilities.value(row)
  {
    match model.probabilities
    case None => Ok(0.8)
    case Some(proba) =>
      var p := proba(row);
      if predicted in model.classes then
        var idx := IndexIn(model.classes, predicted);
        if idx < |p| then Ok(p[idx]) else Err(Other)
      else if |p| > 0 then Ok(p[ArgMax(p)])
      else Err(Other)
  }

  /** The part of `main` inside the `try`: from the decoded payload to the result object. */
  function Answer(payload: Json, parseNumeral: string -> Option<real>, model: RiskModel): (r: Result<Json, Failure>)
    ensures r.Ok? ==> payload.JObj? && "features" in payload.fields && payload.fields["features"].JObj?
    ensures payload.JObj? && "features" !in payload.fields ==> r == Err(MissingFeaturesProperty)
    ensures payload.JObj? && "features" in payload.fields && !payload.fields["features"].JObj? ==> r == Err(FeaturesNotObject)
    ensures r.Ok? ==> var row := Vector(payload.fields["features"].fields, RiskFeatureKeys, parseNumeral);
      row.Ok? && r.value.JObj? && r.value.fields.Keys == {"label", "confidence"}
      && r.value.fields["label"] == JStr(model.predict(row.value))
      && Confidence(model, row.value, model.predict(row.value)).Ok?
      && r.value.fields["confidence"] == JFloat(Confidence(model, row.value, model.predict(row.value)).value)
    ensures payload.JObj? && "features" in payload.fields && payload.fields["features"].JObj? ==>
      var row := Vector(payload.fields["features"].fields, RiskFeatureKeys, parseNumeral);
      (row.Err? ==> r == Err(row.error))
      && (row.Ok? ==> (r.Ok? <==> Confidence(model, row.value, model.predict(row.value)).Ok?))
  {
    match payload
    case JObj(fields) =>
      if "features" !in fields then Err(MissingFeaturesProperty)
      else if !fields["features"].JObj? then Err(FeaturesNotObject)
      else (match Vector(fields["features"].fields, RiskFeatureKeys, parseNumeral)
        case Err(e) => Err(e)
        case Ok(row) =>
          var predicted := model.predict(row);
          (match Confidence(model, row, predicted)
           case Err(e) => Err(e)
           case Ok(c) => Ok(Obj2("label", JStr(predicted), "confidence", JFloat(c)))))
    // `"features" not in payload` is a substring test on a string and an element test on a
    // list; when it finds "features" the subscript that follows raises.
    case JStr(s) => if Text.Contains(s, "features") then Err(Other) else Err(MissingFeaturesProperty)
    case JArr(items) => if JStr("features") in items then Err(Other) else Err(MissingFeaturesProperty)
    case _ => Err(Other)
  }

  /** `main`: every failure prints only `{"error": message}` on stdout, the message on
      stderr, and exits with status 1; success prints the result and exits with 0. */
  function Run(stdin: string, decode: string -> Option<Json>, parseNumeral: string -> Option<real>,
               model: RiskModel, repr: Json -> string): (r: Outcome)
    ensures r.Exit?
    ensures r.status == 0 || r.status == 1
    ensures r.stdout.Some?
    ensures r.status == 1 <==> r.stdout.value.JObj? && r.stdout.value.fields.Keys == {"error"}
    ensures r.status == 1 ==> r.stdout.value.fields["error"].JStr? && r.stderr == "[predict_risk] ERROR: " + r.stdout.value.fields["error"].s + "\n"
    ensures r.status == 0 ==> r.stderr == ""
    ensures Text.PyStripsToEmpty(stdin) ==> r.stdout.value == Obj1("error", JStr(Message(EmptyInput, repr)))
    ensures !Text.PyStripsToEmpty(stdin) && decode(stdin).None? ==> r.status == 1
    ensures r.status == 0 <==>
      (!Text.PyStripsToEmpty(stdin) && decode(stdin).Some? && Answer(decode(stdin).value, parseNumeral, model).Ok?)
    ensures r.status == 0 ==> r.stdout.value == Answer(decode(stdin).value, parseNumeral, model).value
    ensures !Text.PyStripsToEmpty(stdin) && decode(stdin).Some? && Answer(decode(stdin).value, parseNumeral, model).Err? ==>
      r.stdout.value == Obj1("error", JStr(Message(Answer(decode(stdin).value, parseNumeral, model).error, repr)))
  {
    var outcome :=
      if Text.PyStripsToEmpty(stdin) then Err(EmptyInput)
      else match decode(stdin)
        case None => Err(Other)
        case Some(payload) => Answer(payload, parseNumeral, model);
    match outcome
    case Ok(result) => Exit(Some(result), "", 0)
    case Err(e) =>
      var msg := Message(e, repr);
      Exit(Some(Obj1("error", JStr(msg))), "[predict_risk] ERROR: " + msg + "\n", 1)
  }
}
