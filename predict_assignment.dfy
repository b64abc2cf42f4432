/** The task-assignment predictor script: it reads one JSON request on stdin, turns each
    feature map into a fixed-order row of seven numbers, asks the trained classifier for the
    probability that the assignment succeeds, and writes the labelled result as JSON. */
module PredictAssignment {
  import opened Wrappers
  import opened Json
  import Text

  /** The column order the classifier was trained on. */
  const FeatureOrder: seq<string> := [
    "storyPriority",
    "storyBusinessValue",
    "taskEffort",
    "sprintNumber",
    "isBug",
    "developerPastTasksCompleted",
    "developerPastDefectsFixed"
  ]

  /** Position of the one boolean feature. */
  const IsBugColumn: nat := 4

  /** The trained model, seen only through its positive-class probability for a row. */
  type Classifier = seq<real> -> real

  /** The numeric value `float(f.get(key, 0))` of one numeric column. */
  function NumericColumn(f: map<string, Json>, key: string, parseNumeral: string -> Option<real>): Option<real> {
    ToFloat(Get(f, key, JInt(0)), parseNumeral)
  }

  /** `features_to_row`: the seven-entry row of a feature map, or None when `float()` raises
      on one of the numeric columns. Missing keys read as 0 and `isBug` as its truthiness. */
  function FeaturesToRow(f: map<string, Json>, parseNumeral: string -> Option<real>): (r: Option<seq<real>>)
    ensures r.Some? <==>
      forall i :: 0 <= i < |FeatureOrder| && i != IsBugColumn ==> NumericColumn(f, FeatureOrder[i], parseNumeral).Some?
    ensures r.Some? ==> |r.value| == |FeatureOrder|
    ensures r.Some? ==> forall i :: 0 <= i < |FeatureOrder| && i != IsBugColumn ==>
      NumericColumn(f, FeatureOrder[i], parseNumeral) == Some(r.value[i])
    ensures r.Some? ==> r.value[IsBugColumn] == if Truthy(Get(f, "isBug", JBool(false))) then 1.0 else 0.0
  {
    var priority := ToFloat(Get(f, "storyPriority", JInt(0)), parseNumeral);
    var value := ToFloat(Get(f, "storyBusinessValue", JInt(0)), parseNumeral);
    var effort := ToFloat(Get(f, "taskEffort", JInt(0)), parseNumeral);
    var sprint := ToFloat(Get(f, "sprintNumber", JInt(0)), parseNumeral);
    var bug := if Truthy(Get(f, "isBug", JBool(false))) then 1.0 else 0.0;
    var completed := ToFloat(Get(f, "developerPastTasksCompleted", JInt(0)), parseNumeral);
    var fixed := ToFloat(Get(f, "developerPastDefectsFixed", JInt(0)), parseNumeral);
    if priority.Some? && value.Some? && effort.Some? && sprint.Some? && completed.Some? && fixed.Some? then
      Some([priority.value, value.value, effort.value, sprint.value, bug, completed.value, fixed.value])
    else
      assert !NumericColumn(f, FeatureOrder[0], parseNumeral).Some? || !NumericColumn(f, FeatureOrder[1], parseNumeral).Some?
        || !NumericColumn(f, FeatureOrder[2], parseNumeral).Some? || !NumericColumn(f, FeatureOrder[3], parseNumeral).Some?
        || !NumericColumn(f, FeatureOrder[5], parseNumeral).Some? || !NumericColumn(f, FeatureOrder[6], parseNumeral).Some?;
      None
  }

  /** A key that is absent contributes 0.0; absence is never an error. */
  lemma AbsentFeatureIsZero(f: map<string, Json>, i: nat, parseNumeral: string -> Option<real>)
    requires i < |FeatureOrder| && FeatureOrder[i] !in f
    requires FeaturesToRow(f, parseNumeral).Some?
    ensures FeaturesToRow(f, parseNumeral).value[i] == 0.0
  {
  }

  /** The empty map is a valid request: its row is all zeros. */
  lemma EmptyFeaturesGiveZeroRow(parseNumeral: string -> Option<real>)
    ensures FeaturesToRow(map[], parseNumeral) == Some([0.0, 0.0, 0.0, 0.0, 0.0, 0.0, 0.0])
  {
  }

  /** The labelled result for one probability: label 1 exactly when p >= 0.5. */
  function Prediction(p: real): (j: Json)
    ensures j.JObj? && j.fields.Keys == {"label", "probability"}
    ensures j.fields["probability"] == JFloat(p)
    ensures j.fields["label"] == JInt(1) <==> p >= 0.5
    ensures j.fields["label"] == JInt(0) <==> p < 0.5
  {
    Obj2("label", JInt(if p >= 0.5 then 1 else 0), "probability", JFloat(p))
  }

  /** The rows of a batch, one per element, or None when an element is not an object or
      its row cannot be built (the comprehension raises). */
  function BatchRows(items: seq<Json>, parseNumeral: string -> Option<real>): (r: Option<seq<seq<real>>>)
    ensures r.Some? <==> forall i :: 0 <= i < |items| ==>
      items[i].JObj? && FeaturesToRow(items[i].fields, parseNumeral).Some?
    ensures r.Some? ==> |r.value| == |items| && forall i :: 0 <= i < |items| ==>
      items[i].JObj? && Some(r.value[i]) == FeaturesToRow(items[i].fields, parseNumeral)
  {
    if items == [] then Some([])
    else if !items[0].JObj? then None
    else match FeaturesToRow(items[0].fields, parseNumeral)
      case None => None
      case Some(row) =>
        match BatchRows(items[1..], parseNumeral)
        case None =>
          assert !forall i :: 0 <= i < |items| ==> items[i].JObj? && FeaturesToRow(items[i].fields, parseNumeral).Some? by {
            var k :| 0 <= k < |items[1..]| && !(items[1..][k].JObj? && FeaturesToRow(items[1..][k].fields, parseNumeral).Some?);
            assert items[k + 1] == items[1..][k];
          }
          None
        case Some(rest) => Some([row] + rest)
  }

  /** One result object per row, in row order. */
  function Results(rows: seq<seq<real>>, classify: Classifier): (r: seq<Json>)
    ensures |r| == |rows| && forall i :: 0 <= i < |rows| ==> r[i] == Prediction(classify(rows[i]))
  {
    if rows == [] then [] else [Prediction(classify(rows[0]))] + Results(rows[1..], classify)
  }

  /** The `featuresList` branch. An empty batch becomes a one-dimensional empty array,
      which the classifier rejects, so it ends in an exception like a malformed one. */
  function RunBatch(list: Json, parseNumeral: string -> Option<real>, classify: Classifier): Outcome {
    if !list.JArr? || list.items == [] then Crashed
    else match BatchRows(list.items, parseNumeral)
      case None => Crashed
      case Some(rows) => Exit(Some(Obj1("results", JArr(Results(rows, classify)))), "", 0)
  }

  /** The `features` branch. */
  function RunSingle(features: Json, parseNumeral: string -> Option<real>, classify: Classifier): Outcome {
    if !features.JObj? then Crashed
    else match FeaturesToRow(features.fields, parseNumeral)
      case None => Crashed
      case Some(row) => Exit(Some(Prediction(classify(row))), "", 0)
  }

  /** `main`: one run of the script on the text `stdin`, which it strips with Python's
      `strip()` before anything else. `decode` is `json.loads` (None when it raises); it
      sees the stripped text. Every payload that is not an object ends in an exception,
      since the script subscripts it. */
  function Run(stdin: string, decode: string -> Option<Json>, parseNumeral: string -> Option<real>,
               classify: Classifier): (r: Outcome)
    ensures r.Exit? ==> r.status == 0 && r.stderr == "" && r.stdout.Some?
    ensures Text.PyStripsToEmpty(stdin) ==> r == Exit(Some(Obj1("error", JStr("Empty stdin"))), "", 0)
    ensures !Text.PyStripsToEmpty(stdin) && decode(Text.PyStrip(stdin)).None? ==> r == Crashed
    ensures !Text.PyStripsToEmpty(stdin) && decode(Text.PyStrip(stdin)).Some? && !decode(Text.PyStrip(stdin)).value.JObj? ==> r == Crashed
  {
    var raw := Text.PyStrip(stdin);
    Text.PyStripEmptyIff(stdin);
    if raw == [] then Exit(Some(Obj1("error", JStr("Empty stdin"))), "", 0)
    else match decode(raw)
      case None => Crashed
      case Some(payload) =>
        if !payload.JObj? then Crashed
        else if "featuresList" in payload.fields then RunBatch(payload.fields["featuresList"], parseNumeral, classify)
        else if "features" in payload.fields then RunSingle(payload.fields["features"], parseNumeral, classify)
        else Crashed
  }

  /** With `featuresList` present the batch branch runs, whatever `features` holds; a
      successful batch has one result per input map, in input order, each labelled by the
      0.5 threshold. */
  lemma {:induction false} BatchWinsAndKeepsOrder(stdin: string, decode: string -> Option<Json>,
      parseNumeral: string -> Option<real>, classify: Classifier, m: map<string, Json>, items: seq<Json>)
    requires !Text.PyStripsToEmpty(stdin) && decode(Text.PyStrip(stdin)) == Some(JObj(m))
    requires "featuresList" in m && m["featuresList"] == JArr(items)
    requires Run(stdin, decode, parseNumeral, classify).Exit?
    ensures items != []
    ensures var out := Run(stdin, decode, parseNumeral, classify).stdout.value;
      out == Obj1("results", out.fields["results"]) && out.fields["results"].JArr?
      && |out.fields["results"].items| == |items|
      && forall i :: 0 <= i < |items| ==>
           items[i].JObj? && FeaturesToRow(items[i].fields, parseNumeral).Some?
           && out.fields["results"].items[i] == Prediction(classify(FeaturesToRow(items[i].fields, parseNumeral).value))
  {
    var rows := BatchRows(items, parseNumeral);
    assert rows.Some?;
    var res := Results(rows.value, classify);
    assert Run(stdin, decode, parseNumeral, classify).stdout.value == Obj1("results", JArr(res));
  }

  /** A successful single request answers with exactly `label` and `probability`, the label
      being 1 exactly when the probability reaches 0.5. */
  lemma SingleAnswerShape(stdin: string, decode: string -> Option<Json>,
      parseNumeral: string -> Option<real>, classify: Classifier, m: map<string, Json>)
    requires !Text.PyStripsToEmpty(stdin) && decode(Text.PyStrip(stdin)) == Some(JObj(m))
    requires "featuresList" !in m
    requires Run(stdin, decode, parseNumeral, classify).Exit?
    ensures "features" in m && m["features"].JObj?
    ensures var out := Run(stdin, decode, parseNumeral, classify).stdout.value;
      var p := classify(FeaturesToRow(m["features"].fields, parseNumeral).value);
      out.JObj? && out.fields.Keys == {"label", "probability"}
      && out.fields["probability"] == JFloat(p)
      && (out.fields["label"] == JInt(1) <==> p >= 0.5)
  {
  }

  /** Python whitespace around the request, including the characters `json.loads` itself
      would refuse (form feed, U+00A0, U+2028, ...), does not change the run: the script
      decodes the stripped text. */
  lemma LeadingWhitespaceIgnored(pad: string, stdin: string, decode: string -> Option<Json>,
      parseNumeral: string -> Option<real>, classify: Classifier)
    requires Text.PyStripsToEmpty(pad)
    ensures Run(pad + stdin, decode, parseNumeral, classify) == Run(stdin, decode, parseNumeral, classify)
  {
    Text.PyStripIgnoresLeadingSpace(pad, stdin);
    Text.PyStripEmptyIff(pad + stdin);
    Text.PyStripEmptyIff(stdin);
  }

  /** A payload with neither `featuresList` nor `features` raises on `payload["features"]`:
      no error object is written. */
  lemma NeitherKeyCrashes(stdin: string, decode: string -> Option<Json>,
      parseNumeral: string -> Option<real>, classify: Classifier, m: map<string, Json>)
    requires !Text.PyStripsToEmpty(stdin) && decode(Text.PyStrip(stdin)) == Some(JObj(m))
    requires "featuresList" !in m && "features" !in m
    ensures Run(stdin, decode, parseNumeral, classify) == Crashed
  {
  }
}
