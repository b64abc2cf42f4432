/** The export script that writes the assignment training data as CSV: one header line
    naming nine columns, then one line per stored training row, joined by newlines. */
module ExportAssignmentData {
  import opened Wrappers
  import opened Js
  import Text
  import PredictAssignment

  const Header: seq<string> := [
    "storyPriority",
    "storyBusinessValue",
    "taskEffort",
    "sprintNumber",
    "isBug",
    "developerPastTasksCompleted",
    "developerPastDefectsFixed",
    "assignedToSuggested",
    "wasSuccessful"
  ]

  /** The header names the classifier's seven features first, in the classifier's order. */
  lemma HeaderStartsWithFeatureOrder()
    ensures |Header| == 9 && Header[..7] == PredictAssignment.FeatureOrder
  {
  }

  /** A stored training row: the `features` and `outcome` JSON columns and the nullable
      `wasSuccessful` flag. */
  datatype TrainingRow = TrainingRow(features: Value, outcome: Value, wasSuccessful: Option<bool>)

  /** The nine values of one line in header order, or None when `features` is null, where
      reading a property throws and the script stops before writing anything. */
  function LineValues(row: TrainingRow): (r: Option<seq<Value>>)
    ensures r.Some? <==> !Nullish(row.features)
    ensures r.Some? ==> |r.value| == |Header|
    ensures r.Some? ==> forall i :: 0 <= i < 7 && i != 4 ==> Some(r.value[i]) == Prop(row.features, Header[i])
    ensures r.Some? ==> r.value[4] == Flag(Truthy(Prop(row.features, "isBug").value))
    ensures r.Some? ==> r.value[7] == Flag(Truthy(row.outcome) && Truthy(Prop(row.outcome, "assignedToSuggested").value))
    ensures r.Some? ==> r.value[8] == Flag(row.wasSuccessful == Some(true))
  {
    var f := row.features;
    var o := if Truthy(row.outcome) then row.outcome else Obj(map[]);
    if Nullish(f) then None
    else
      Some([
        Prop(f, "storyPriority").value,
        Prop(f, "storyBusinessValue").value,
        Prop(f, "taskEffort").value,
        Prop(f, "sprintNumber").value,
        Flag(Truthy(Prop(f, "isBug").value)),
        Prop(f, "developerPastTasksCompleted").value,
        Prop(f, "developerPastDefectsFixed").value,
        Flag(Truthy(Prop(o, "assignedToSuggested").value)),
        Flag(row.wasSuccessful == Some(true))
      ])
  }

  /** The nine field texts of a row, in header order. */
  function Fields(row: TrainingRow, show: real -> string): (r: seq<string>)
    requires LineValues(row).Some?
    ensures |r| == |Header|
  {
    Texts(LineValues(row).value, show)
  }

  /** One data line: the row's fields joined by commas. */
  function Line(row: TrainingRow, show: real -> string): (r: Option<string>)
    ensures r.Some? <==> LineValues(row).Some?
    ensures r.Some? ==> r.value == Text.Join(Fields(row, show), ',')
  {
    if LineValues(row).None? then None else Some(Text.Join(Fields(row, show), ','))
  }

  /** The data lines for `rows`, in row order, or None if one row stops the script. */
  function DataLines(rows: seq<TrainingRow>, show: real -> string): (r: Option<seq<string>>)
    ensures r.Some? <==> forall i :: 0 <= i < |rows| ==> Line(rows[i], show).Some?
    ensures r.Some? ==> |r.value| == |rows| && forall i :: 0 <= i < |rows| ==> Some(r.value[i]) == Line(rows[i], show)
  {
    if forall i :: 0 <= i < |rows| ==> Line(rows[i], show).Some? then
      Some(seq(|rows|, i requires 0 <= i < |rows| && Line(rows[i], show).Some? => Line(rows[i], show).value))
    else None
  }

  /** The whole file the script writes. */
  function Csv(rows: seq<TrainingRow>, show: real -> string): Option<string> {
    match DataLines(rows, show)
    case None => None
    case Some(lines) => Some(Text.Join([Text.Join(Header, ',')] + lines, '\n'))
  }

  /** `main` without the database read and the file write: the loop that pushes one
      formatted line per row after the header line. */
  method Export(rows: seq<TrainingRow>, show: real -> string) returns (csv: Option<string>)
    ensures csv == Csv(rows, show)
  {
    var data: seq<string> := [];
    var i := 0;
    while i < |rows|
      invariant 0 <= i <= |rows| && |data| == i
      invariant forall j :: 0 <= j < i ==> Some(data[j]) == Line(rows[j], show)
    {
      var line := Line(rows[i], show);
      if line.None? {
        csv := None;
        return;
      }
      data := data + [line.value];
      i := i + 1;
    }
    DataLinesAre(rows, show, data);
    csv := Some(Text.Join([Text.Join(Header, ',')] + data, '\n'));
  }

  /** Lines that agree with `Line` row by row are the data lines. */
  lemma DataLinesAre(rows: seq<TrainingRow>, show: real -> string, data: seq<string>)
    requires |data| == |rows| && forall j :: 0 <= j < |rows| ==> Some(data[j]) == Line(rows[j], show)
    ensures DataLines(rows, show) == Some(data)
  {
    assert DataLines(rows, show).value == data;
  }

  /** No comma and no newline: the text can sit in a CSV field unquoted. */
  predicate Plain(t: string) {
    ',' !in t && '\n' !in t
  }

  /** The header line splits back into the nine column names. */
  lemma HeaderReadsBack()
    ensures Text.Split(Text.Join(Header, ','), ',') == Header
    ensures '\n' !in Text.Join(Header, ',')
  {
    assert forall k :: 0 <= k < |Header| ==> Plain(Header[k]);
    Text.SplitJoin(Header, ',');
    Text.NoCharInJoin(Header, ',', '\n');
  }

  /** Every field of the row renders without commas or newlines. */
  predicate PlainRow(row: TrainingRow, show: real -> string) {
    LineValues(row).Some? ==> forall k :: 0 <= k < |Header| ==> Plain(Fields(row, show)[k])
  }

  /** A line of plain fields splits back into its nine fields and holds no newline. */
  lemma LineReadsBack(row: TrainingRow, show: real -> string, line: string)
    requires Line(row, show) == Some(line) && PlainRow(row, show)
    ensures Text.Split(line, ',') == Fields(row, show)
    ensures '\n' !in line
  {
    var texts := Fields(row, show);
    Text.SplitJoin(texts, ',');
    Text.NoCharInJoin(texts, ',', '\n');
  }

  /** When every field renders without commas or newlines, the file reads back as the
      header followed by one line per row, each line holding that row's nine fields in
      header order. */
  lemma CsvReadsBack(rows: seq<TrainingRow>, show: real -> string)
    requires Csv(rows, show).Some?
    requires forall i :: 0 <= i < |rows| ==> PlainRow(rows[i], show)
    ensures var lines := Text.Split(Csv(rows, show).value, '\n');
      |lines| == |rows| + 1 && Text.Split(lines[0], ',') == Header
      && forall i :: 0 <= i < |rows| ==> LineValues(rows[i]).Some? && Text.Split(lines[i + 1], ',') == Fields(rows[i], show)
  {
    var data := DataLines(rows, show).value;
    HeaderReadsBack();
    forall i | 0 <= i < |rows|
      ensures LineValues(rows[i]).Some? && Text.Split(data[i], ',') == Fields(rows[i], show) && '\n' !in data[i]
    {
      DataLineReadsBack(rows, show, data, i);
    }
    Text.LinesReadBack(Text.Join(Header, ','), data);
    var lines := Text.Split(Csv(rows, show).value, '\n');
    assert lines == [Text.Join(Header, ',')] + data;
    assert forall i :: 0 <= i < |rows| ==> lines[i + 1] == data[i];
  }

  /** Data line `i` of a plain row splits back into that row's fields and holds no newline. */
  lemma DataLineReadsBack(rows: seq<TrainingRow>, show: real -> string, data: seq<string>, i: nat)
    requires DataLines(rows, show) == Some(data)
    requires i < |rows| && PlainRow(rows[i], show)
    ensures LineValues(rows[i]).Some? && Text.Split(data[i], ',') == Fields(rows[i], show)
    ensures '\n' !in data[i]
  {
    LineReadsBack(rows[i], show, data[i]);
  }
}
