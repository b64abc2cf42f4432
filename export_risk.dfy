/** The export script that writes the sprint-risk training data as CSV: a header naming the
    six risk features and the label, then one line per stored risk prediction. */
module ExportRiskData {
  import opened Wrappers
  import opened Js
  import Text
  import PredictRisk
  import Scrum

  const Header: seq<string> := [
    "committedEffort",
    "teamCapacity",
    "historicalVelocity",
    "missedStories",
    "teamChanges",
    "bugsOpen",
    "riskLevel"
  ]

  /** The header is the risk predictor's feature order followed by the label column. */
  lemma HeaderIsFeaturesThenLabel()
    ensures |Header| == 7 && Header[..6] == PredictRisk.RiskFeatureKeys && Header[6] == "riskLevel"
  {
  }

  /** A stored risk prediction: the label, three nullable numeric columns and the `factors`
      JSON column. */
  datatype RiskRow = RiskRow(
    riskLevel: Scrum.RiskLevel,
    committedEffort: Option<real>,
    teamCapacity: Option<real>,
    historicalVelocity: Option<real>,
    factors: Value)

  /** `column ?? ''` for a nullable number. */
  function OrEmpty(x: Option<real>): (v: Value)
    ensures x.None? ==> v == Str("")
    ensures x.Some? ==> v == Num(x.value)
  {
    match x
    case None => Str("")
    case Some(n) => Num(n)
  }

  /** The seven values of one line in header order. `factors` that is falsy is read as `{}`;
      a factor that is null or missing becomes 0. */
  function LineValues(row: RiskRow): (r: seq<Value>)
    ensures |r| == |Header|
    ensures r[0] == OrEmpty(row.committedEffort) && r[1] == OrEmpty(row.teamCapacity)
      && r[2] == OrEmpty(row.historicalVelocity)
    ensures forall i :: 3 <= i < 6 ==>
      r[i] == (if Truthy(row.factors) then Coalesce(Prop(row.factors, Header[i]).value, Num(0.0)) else Num(0.0))
    ensures r[6] == Str(Scrum.RiskName(row.riskLevel))
  {
    var f := if Truthy(row.factors) then row.factors else Obj(map[]);
    [
      OrEmpty(row.committedEffort),
      OrEmpty(row.teamCapacity),
      OrEmpty(row.historicalVelocity),
      Coalesce(Prop(f, "missedStories").value, Num(0.0)),
      Coalesce(Prop(f, "teamChanges").value, Num(0.0)),
      Coalesce(Prop(f, "bugsOpen").value, Num(0.0)),
      Str(Scrum.RiskName(row.riskLevel))
    ]
  }

  /** The seven field texts of a row, in header order. */
  function Fields(row: RiskRow, show: real -> string): (r: seq<string>)
    ensures |r| == |Header|
  {
    Texts(LineValues(row), show)
  }

  /** One data line: the row's fields joined by commas. */
  function Line(row: RiskRow, show: real -> string): string {
    Text.Join(Fields(row, show), ',')
  }

  /** The whole file the script writes. */
  function Csv(rows: seq<RiskRow>, show: real -> string): string {
    Text.Join([Text.Join(Header, ',')] + seq(|rows|, i requires 0 <= i < |rows| => Line(rows[i], show)), '\n')
  }

  /** `main` without the database read and the file write: the loop that pushes one
      formatted line per row after the header line. */
  method Export(rows: seq<RiskRow>, show: real -> string) returns (csv: string)
    ensures csv == Csv(rows, show)
  {
    var data: seq<string> := [];
    var i := 0;
    while i < |rows|
      invariant 0 <= i <= |rows| && |data| == i
      invariant forall j :: 0 <= j < i ==> data[j] == Line(rows[j], show)
    {
      data := data + [Line(rows[i], show)];
      i := i + 1;
    }
    assert data == seq(|rows|, i requires 0 <= i < |rows| => Line(rows[i], show));
    csv := Text.Join([Text.Join(Header, ',')] + data, '\n');
  }

  /** A row whose missing figures were never recorded exports them as empty fields, and a
      row without factors exports 0 for each factor; the label is the last field. */
  lemma {:induction false} NullsAndMissingFactors(row: RiskRow, show: real -> string)
    requires row.committedEffort.None? && row.teamCapacity.None? && row.historicalVelocity.None?
    requires Nullish(row.factors)
    ensures Fields(row, show) == ["", "", "", show(0.0), show(0.0), show(0.0), Scrum.RiskName(row.riskLevel)]
  {
    var v := LineValues(row);
    var t := Fields(row, show);
    assert forall i :: 3 <= i < 6 ==> v[i] == Num(0.0);
    assert t == ["", "", "", show(0.0), show(0.0), show(0.0), Scrum.RiskName(row.riskLevel)] by {
      forall i | 0 <= i < 7 ensures t[i] == ["", "", "", show(0.0), show(0.0), show(0.0), Scrum.RiskName(row.riskLevel)][i] {
        assert t[i] == JoinText(v[i], show);
      }
    }
  }

  /** Every field renders without commas or newlines. */
  predicate PlainRow(row: RiskRow, show: real -> string) {
    forall k :: 0 <= k < |Header| ==> ',' !in Fields(row, show)[k] && '\n' !in Fields(row, show)[k]
  }

  /** A line of plain fields splits back into its seven fields, the label last. */
  lemma LineReadsBack(row: RiskRow, show: real -> string)
    requires PlainRow(row, show)
    ensures Text.Split(Line(row, show), ',') == Fields(row, show)
    ensures Text.Split(Line(row, show), ',')[6] == Scrum.RiskName(row.riskLevel)
    ensures '\n' !in Line(row, show)
  {
    var texts := Fields(row, show);
    Text.SplitJoin(texts, ',');
    Text.NoCharInJoin(texts, ',', '\n');
    assert texts[6] == JoinText(LineValues(row)[6], show);
  }

  /** When every field is plain, the file reads back as the header followed by one line per
      row, in row order, each holding that row's fields. */
  lemma CsvReadsBack(rows: seq<RiskRow>, show: real -> string)
    requires forall i :: 0 <= i < |rows| ==> PlainRow(rows[i], show)
    ensures var lines := Text.Split(Csv(rows, show), '\n');
      |lines| == |rows| + 1 && lines[0] == Text.Join(Header, ',')
      && forall i :: 0 <= i < |rows| ==> Text.Split(lines[i + 1], ',') == Fields(rows[i], show)
  {
    HeaderHasNoNewline();
    FileReadsBack(Text.Join(Header, ','), rows, show);
  }

  lemma HeaderHasNoNewline()
    ensures '\n' !in Text.Join(Header, ',')
  {
    Text.NoCharInJoin(Header, ',', '\n');
  }

  /** The file with any newline-free first line reads back line by line. */
  lemma FileReadsBack(head: string, rows: seq<RiskRow>, show: real -> string)
    requires '\n' !in head
    requires forall i :: 0 <= i < |rows| ==> PlainRow(rows[i], show)
    ensures var data := seq(|rows|, i requires 0 <= i < |rows| => Line(rows[i], show));
      var lines := Text.Split(Text.Join([head] + data, '\n'), '\n');
      |lines| == |rows| + 1 && lines[0] == head
      && forall i :: 0 <= i < |rows| ==> Text.Split(lines[i + 1], ',') == Fields(rows[i], show)
  {
    var data := seq(|rows|, i requires 0 <= i < |rows| => Line(rows[i], show));
    DataReadsBack(rows, show, data);
    Text.LinesReadBack(head, data);
    var lines := Text.Split(Text.Join([head] + data, '\n'), '\n');
    assert lines == [head] + data;
    assert forall i :: 0 <= i < |rows| ==> lines[i + 1] == data[i];
  }

  /** Each data line of a plain row splits back into its fields and holds no newline. */
  lemma DataReadsBack(rows: seq<RiskRow>, show: real -> string, data: seq<string>)
    requires forall i :: 0 <= i < |rows| ==> PlainRow(rows[i], show)
    requires |data| == |rows| && forall i :: 0 <= i < |rows| ==> data[i] == Line(rows[i], show)
    ensures forall i :: 0 <= i < |rows| ==> Text.Split(data[i], ',') == Fields(rows[i], show) && '\n' !in data[i]
  {
    forall i | 0 <= i < |rows| ensures Text.Split(data[i], ',') == Fields(rows[i], show) && '\n' !in data[i] {
      LineReadsBack(rows[i], show);
    }
  }
}
