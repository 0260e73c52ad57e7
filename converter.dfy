/**
 * The row-transformation pipeline of the LabGuru data converter: the
 * uploaded freezer-inventory table and the form's constant values become
 * one LabGuru stock row per input row, in the fixed 33-column layout of
 * the stock upload template, with the `Volume units` column cleaned up
 * last.
 */
module Converter {
  import opened Wrappers
  import Units

  // ---------------------------------------------------------------------
  // The parsed input table

  /**
   * One cell as the CSV reader delivers it: text, an integer, a
   * floating-point number (kept as its lexeme) or a missing value (NaN).
   */
  datatype Value = Text(s: string) | Int(n: int) | Float(lexeme: string) | NaN

  predicate IsNumeric(v: Value) {
    v.Int? || v.Float?
  }

  /** A table: column names and, for each row, one cell per column. */
  datatype Table = Table(header: seq<string>, rows: seq<seq<Value>>)

  /** What the CSV reader guarantees: distinct column names and rectangular rows. */
  predicate WellFormed(t: Table) {
    (forall i, j :: 0 <= i < j < |t.header| ==> t.header[i] != t.header[j]) &&
    (forall r :: 0 <= r < |t.rows| ==> |t.rows[r]| == |t.header|)
  }

  /** Position of column `name` in `header`. */
  function IndexOf(header: seq<string>, name: string): (k: nat)
    requires name in header
    ensures k < |header| && header[k] == name
    ensures forall j :: 0 <= j < k ==> header[j] != name
  {
    if header[0] == name then 0 else 1 + IndexOf(header[1..], name)
  }

  /** The cell of row `i` in column `name`: the one column of that name, since names are distinct. */
  function Cell(t: Table, i: nat, name: string): Value
    requires WellFormed(t) && i < |t.rows| && name in t.header
  {
    t.rows[i][IndexOf(t.header, name)]
  }

  /** Why a run stops: a column lookup that fails, or text concatenated with a number. */
  datatype Error = KeyError(column: string) | TypeError(column: string)

  /**
   * `df[name]`: the whole column, or a `KeyError` when the table has no
   * such column.  The cells returned are those of the one column of that
   * name, row by row.
   */
  function Column(t: Table, name: string): (r: Result<seq<Value>, Error>)
    requires WellFormed(t)
    ensures r.Ok? <==> name in t.header
    ensures r.Err? ==> r.error == KeyError(name)
    ensures r.Ok? ==> |r.value| == |t.rows|
    ensures r.Ok? ==> forall i, k :: 0 <= i < |t.rows| && 0 <= k < |t.header| && t.header[k] == name ==>
                        r.value[i] == t.rows[i][k]
  {
    if name in t.header then Ok(seq(|t.rows|, i requires 0 <= i < |t.rows| => Cell(t, i, name)))
    else Err(KeyError(name))
  }

  /**
   * The text a cell of a text column contributes to a concatenation after
   * `fillna('')`: its text, or "" when it is missing.
   */
  function FillNa(v: Value): string
  {
    if v.Text? then v.s else ""
  }

  /** `fillna('')` on one cell: a missing value becomes the empty text, anything else is kept. */
  function FillNaCell(v: Value): (r: Value)
    ensures !r.NaN?
    ensures r.Text? <==> !IsNumeric(v)
    ensures r.Text? ==> r.s == FillNa(v)
    ensures IsNumeric(v) ==> r == v
  {
    if v.NaN? then Text("") else v
  }

  /**
   * A column used as an operand of string concatenation: every cell must be
   * text, otherwise the concatenation raises `TypeError`.
   */
  function ConcatOperand(col: seq<Value>, name: string): (r: Result<seq<string>, Error>)
    ensures r.Ok? <==> forall i :: 0 <= i < |col| ==> col[i].Text?
    ensures r.Err? ==> r.error == TypeError(name)
    ensures r.Ok? ==> |r.value| == |col| && forall i :: 0 <= i < |col| ==> r.value[i] == col[i].s
  {
    if forall i :: 0 <= i < |col| ==> col[i].Text? then Ok(seq(|col|, i requires 0 <= i < |col| => col[i].s))
    else Err(TypeError(name))
  }

  /**
   * `col.fillna('')` followed by its use in a concatenation: the two steps
   * in turn.  It fails exactly when the original column holds a number.
   */
  function FillNaText(col: seq<Value>, name: string): (r: Result<seq<string>, Error>)
    ensures r.Err? <==> exists i :: 0 <= i < |col| && IsNumeric(col[i])
    ensures r.Err? ==> r.error == TypeError(name)
    ensures r.Ok? ==> |r.value| == |col| && forall i :: 0 <= i < |col| ==> r.value[i] == FillNa(col[i])
  {
    var filled := seq(|col|, i requires 0 <= i < |col| => FillNaCell(col[i]));
    assert forall i :: 0 <= i < |col| ==> (filled[i].Text? <==> !IsNumeric(col[i]));
    ConcatOperand(filled, name)
  }

  // ---------------------------------------------------------------------
  // The form's constants and the output row

  /** The constants the user enters once per run; each is broadcast to every row. */
  datatype Config = Config(
    concentration: string,
    concentrationUnits: string,
    concentrationRemarks: string,
    volumeUnits: string,
    volumeRemarks: string,
    stockUnits: string,
    stockLot: string,
    owner: string,
    frozenBy: string,
    frozenOn: string,
    collection: string,
    itemName: string)

  /** One row of the LabGuru stock upload template, fields in column order. */
  datatype StockRow = StockRow(
    stockId: string,
    stockName: Value,
    privacy: string,
    stockType: string,
    stockColor: string,
    description: string,
    concentration: string,
    concentrationUnits: string,
    concentrationRemarks: string,
    volume: Value,
    volumeUnits: string,
    volumeRemarks: string,
    weight: string,
    weightUnits: string,
    weightRemarks: string,
    stockUnits: string,
    count: string,
    lot: string,
    barcode: string,
    expiryDate: string,
    owner: string,
    frozenBy: string,
    frozenOn: string,
    createdAt: string,
    boxName: Value,
    boxRows: string,
    boxColumns: string,
    rackCells: string,
    position: nat,
    storageLocation: string,
    collection: string,
    itemName: string,
    itemSysId: string)

  /** The source columns the mapping reads. */
  const LabelColumn := "Label"
  const DiagnosisColumn := "Diagnosis"
  const HistologyColumn := "Histology"
  const StageColumn := "Pathologic_Stage"
  const VolumeColumn := "Approx. Volume (uL)"
  const BoxColumn := "Box Label"

  /** The output columns, in the order the upload template expects. */
  const OutputColumns: seq<string> := [
    "Stock ID", "Stock name *", "Privacy", "Stock type", "Stock color",
    "Stock description", "Stock concentration", "Concentration units",
    "Concentration remarks", "Stock volume", "Volume units", "Volume remarks",
    "Stock weight", "Weight units", "Weight remarks", "Stock units",
    "Stock count", "Stock lot", "Stock barcode", "Stock expiry date",
    "Stock owner", "Stored / Frozen By", "Stored / Frozen On",
    "Created at", "Box name", "Box dimensions - # rows", "Box dimensions - # columns",
    "Box location in Rack - Cells", "Stock position", "Storage location",
    "Inventory collection *", "Inventory item name", "Inventory item sysID"]

  /** The stock description: the three clinical fields joined by single spaces. */
  function Description(diagnosis: string, histology: string, stage: string): (r: string)
    ensures |r| == |diagnosis| + |histology| + |stage| + 2
    ensures r[..|diagnosis|] == diagnosis && r[|diagnosis|] == ' ' && r[|r| - |stage|..] == stage
  {
    diagnosis + " " + histology + " " + stage
  }

  /** The output row built from input row `i` (0-based) and its source cells. */
  function MakeRow(i: nat, labelCell: Value, description: string, volume: Value, box: Value, cfg: Config): StockRow {
    StockRow(
      stockId := "",
      stockName := labelCell,
      privacy := "Public",
      stockType := "Tube",
      stockColor := "gray",
      description := description,
      concentration := cfg.concentration,
      concentrationUnits := cfg.concentrationUnits,
      concentrationRemarks := cfg.concentrationRemarks,
      volume := volume,
      volumeUnits := cfg.volumeUnits,
      volumeRemarks := cfg.volumeRemarks,
      weight := "",
      weightUnits := "",
      weightRemarks := "",
      stockUnits := cfg.stockUnits,
      count := "1",
      lot := cfg.stockLot,
      barcode := "",
      expiryDate := "",
      owner := cfg.owner,
      frozenBy := cfg.frozenBy,
      frozenOn := cfg.frozenOn,
      createdAt := "",
      boxName := box,
      boxRows := "",
      boxColumns := "",
      rackCells := "",
      position := i + 1,
      storageLocation := "",
      collection := cfg.collection,
      itemName := cfg.itemName,
      itemSysId := "")
  }

  // ---------------------------------------------------------------------
  // The pipeline

  /** The cells the mapping takes from the input, column by column. */
  datatype Sources = Sources(labels: seq<Value>, descriptions: seq<string>, volumes: seq<Value>, boxes: seq<Value>)

  /**
   * The reads of the column assignments: every source column is looked up
   * (and the clinical ones concatenated) in the order the script evaluates
   * them, so the first failing step names the error.
   */
  function ReadSources(t: Table): (r: Result<Sources, Error>)
    requires WellFormed(t)
    ensures r.Ok? ==> |r.value.labels| == |r.value.descriptions| == |r.value.volumes| == |r.value.boxes| == |t.rows|
  {
    var labels :- Column(t, LabelColumn);
    var descriptions :- ReadDescriptions(t);
    var volumes :- Column(t, VolumeColumn);
    var boxes :- Column(t, BoxColumn);
    Ok(Sources(labels, descriptions, volumes, boxes))
  }

  /** `df[c].fillna('')` as an operand of the description's concatenation. */
  function TextColumn(t: Table, c: string): (r: Result<seq<string>, Error>)
    requires WellFormed(t)
    ensures r.Ok? ==> |r.value| == |t.rows|
  {
    var col :- Column(t, c);
    FillNaText(col, c)
  }

  /** The `Stock description` column, built from the three clinical columns. */
  function ReadDescriptions(t: Table): (r: Result<seq<string>, Error>)
    requires WellFormed(t)
    ensures r.Ok? ==> |r.value| == |t.rows|
  {
    var diagnosis :- TextColumn(t, DiagnosisColumn);
    var histology :- TextColumn(t, HistologyColumn);
    var stage :- TextColumn(t, StageColumn);
    Ok(seq(|t.rows|, i requires 0 <= i < |t.rows| => Description(diagnosis[i], histology[i], stage[i])))
  }

  /** The output rows: one per input row, in input order. */
  function BuildRows(src: Sources, cfg: Config): (rows: seq<StockRow>)
    requires |src.labels| == |src.descriptions| == |src.volumes| == |src.boxes|
    ensures |rows| == |src.labels|
  {
    seq(|src.labels|, i requires 0 <= i < |src.labels| =>
      MakeRow(i, src.labels[i], src.descriptions[i], src.volumes[i], src.boxes[i], cfg))
  }

  /** The column assignments followed by the selection of the template columns. */
  function MapTable(t: Table, cfg: Config): (r: Result<seq<StockRow>, Error>)
    requires WellFormed(t)
    ensures r.Ok? ==> |r.value| == |t.rows|
  {
    var src :- ReadSources(t);
    Ok(BuildRows(src, cfg))
  }

  /** The clean-up of the `Volume units` column, applied to every row. */
  function NormalizeVolumeUnits(rows: seq<StockRow>): (r: seq<StockRow>)
    ensures |r| == |rows|
  {
    seq(|rows|, i requires 0 <= i < |rows| => rows[i].(volumeUnits := Units.NormalizeUnits(rows[i].volumeUnits)))
  }

  /** The whole run: mapping, then the unit clean-up; a failure yields no rows at all. */
  function Convert(t: Table, cfg: Config): (r: Result<seq<StockRow>, Error>)
    requires WellFormed(t)
    ensures r.Ok? ==> |r.value| == |t.rows|
  {
    var rows :- MapTable(t, cfg);
    Ok(NormalizeVolumeUnits(rows))
  }

  /** One output row as cells, in the order of `OutputColumns`. */
  function Fields(r: StockRow): (cells: seq<Value>)
    ensures |cells| == |OutputColumns|
  {
    [Text(r.stockId), r.stockName, Text(r.privacy), Text(r.stockType), Text(r.stockColor),
     Text(r.description), Text(r.concentration), Text(r.concentrationUnits),
     Text(r.concentrationRemarks), r.volume, Text(r.volumeUnits), Text(r.volumeRemarks),
     Text(r.weight), Text(r.weightUnits), Text(r.weightRemarks), Text(r.stockUnits),
     Text(r.count), Text(r.lot), Text(r.barcode), Text(r.expiryDate),
     Text(r.owner), Text(r.frozenBy), Text(r.frozenOn),
     Text(r.createdAt), r.boxName, Text(r.boxRows), Text(r.boxColumns),
     Text(r.rackCells), Int(r.position), Text(r.storageLocation),
     Text(r.collection), Text(r.itemName), Text(r.itemSysId)]
  }

  /** The output table handed to the CSV writer. */
  function OutputTable(rows: seq<StockRow>): (out: Table)
    ensures out.header == OutputColumns && |out.rows| == |rows|
  {
    Table(OutputColumns, seq(|rows|, i requires 0 <= i < |rows| => Fields(rows[i])))
  }

  // ---------------------------------------------------------------------
  // Failure: which step raises, and that nothing is produced

  /** The steps of the mapping that can raise, in the order the script runs them. */
  datatype Step = Lookup(column: string) | Concat(column: string)

  const Steps: seq<Step> := [
    Lookup(LabelColumn),
    Lookup(DiagnosisColumn), Concat(DiagnosisColumn),
    Lookup(HistologyColumn), Concat(HistologyColumn),
    Lookup(StageColumn), Concat(StageColumn),
    Lookup(VolumeColumn),
    Lookup(BoxColumn)]

  /** Step `st` raises on table `t`: its column is absent, or holds a number where text is concatenated. */
  predicate Fails(t: Table, st: Step)
    requires WellFormed(t)
  {
    match st
    case Lookup(c) => c !in t.header
    case Concat(c) => c in t.header && exists i :: 0 <= i < |t.rows| && IsNumeric(Cell(t, i, c))
  }

  /** The exception a failing step raises. */
  function Raised(st: Step): Error {
    match st
    case Lookup(c) => KeyError(c)
    case Concat(c) => TypeError(c)
  }

  /** Step `k` is the first one to fail. */
  predicate FirstFailure(t: Table, k: nat)
    requires WellFormed(t)
  {
    k < |Steps| && Fails(t, Steps[k]) && forall j :: 0 <= j < k ==> !Fails(t, Steps[j])
  }

  /** All six source columns are present. */
  predicate HasSourceColumns(t: Table) {
    LabelColumn in t.header && DiagnosisColumn in t.header && HistologyColumn in t.header &&
    StageColumn in t.header && VolumeColumn in t.header && BoxColumn in t.header
  }

  /**
   * A run succeeds exactly when no step fails; otherwise it produces no
   * rows at all and reports the exception of the first failing step.
   */
  lemma ConvertOutcome(t: Table, cfg: Config)
    requires WellFormed(t)
    ensures Convert(t, cfg).Ok? <==> forall k :: 0 <= k < |Steps| ==> !Fails(t, Steps[k])
    ensures forall k: nat :: FirstFailure(t, k) ==> Convert(t, cfg) == Err(Raised(Steps[k]))
  {
    ReadSourcesOutcome(t);
  }

  /** How reading one clinical column fails, in terms of its two steps. */
  lemma TextColumnOutcome(t: Table, c: string)
    requires WellFormed(t)
    ensures TextColumn(t, c).Ok? <==> !Fails(t, Lookup(c)) && !Fails(t, Concat(c))
    ensures Fails(t, Lookup(c)) ==> TextColumn(t, c) == Err(KeyError(c))
    ensures !Fails(t, Lookup(c)) && Fails(t, Concat(c)) ==> TextColumn(t, c) == Err(TypeError(c))
  {
    if c in t.header {
      var col := Column(t, c).value;
      if FillNaText(col, c).Err? {
        var i :| 0 <= i < |col| && IsNumeric(col[i]);
        assert IsNumeric(Cell(t, i, c));
      }
    }
  }

  lemma ReadDescriptionsOutcome(t: Table)
    requires WellFormed(t)
    ensures ReadDescriptions(t).Ok? <==> forall k :: 1 <= k < 7 ==> !Fails(t, Steps[k])
    ensures forall k: nat :: 1 <= k < 7 && FirstFailure(t, k) ==> ReadDescriptions(t) == Err(Raised(Steps[k]))
  {
    TextColumnOutcome(t, DiagnosisColumn);
    TextColumnOutcome(t, HistologyColumn);
    TextColumnOutcome(t, StageColumn);
    assert Steps[1] == Lookup(DiagnosisColumn) && Steps[2] == Concat(DiagnosisColumn);
    assert Steps[3] == Lookup(HistologyColumn) && Steps[4] == Concat(HistologyColumn);
    assert Steps[5] == Lookup(StageColumn) && Steps[6] == Concat(StageColumn);
  }

  lemma ReadSourcesOutcome(t: Table)
    requires WellFormed(t)
    ensures ReadSources(t).Ok? <==> forall k :: 0 <= k < |Steps| ==> !Fails(t, Steps[k])
    ensures forall k: nat :: FirstFailure(t, k) ==> ReadSources(t) == Err(Raised(Steps[k]))
  {
    ReadDescriptionsOutcome(t);
    assert Steps[0] == Lookup(LabelColumn);
    assert Steps[7] == Lookup(VolumeColumn) && Steps[8] == Lookup(BoxColumn);
    forall k: nat | FirstFailure(t, k)
      ensures ReadSources(t) == Err(Raised(Steps[k]))
    {
      if k == 0 {
      } else if k < 7 {
        assert !Fails(t, Steps[0]);
      } else {
        assert !Fails(t, Steps[0]);
        assert forall j :: 1 <= j < 7 ==> !Fails(t, Steps[j]);
      }
    }
  }

  /** A table lacking any of the six source columns yields an error and no output table. */
  lemma MissingColumnFails(t: Table, cfg: Config)
    requires WellFormed(t) && !HasSourceColumns(t)
    ensures Convert(t, cfg).Err?
  {
    ConvertOutcome(t, cfg);
  }

  /**
   * A table with text clinical columns but no `Box Label` column fails with
   * a `KeyError` naming it, however many rows it has.
   */
  lemma MissingBoxLabel(t: Table, cfg: Config)
    requires WellFormed(t) && BoxColumn !in t.header
    requires LabelColumn in t.header && VolumeColumn in t.header
    requires DiagnosisColumn in t.header && HistologyColumn in t.header && StageColumn in t.header
    requires forall i :: 0 <= i < |t.rows| ==>
               !IsNumeric(Cell(t, i, DiagnosisColumn)) && !IsNumeric(Cell(t, i, HistologyColumn)) &&
               !IsNumeric(Cell(t, i, StageColumn))
    ensures Convert(t, cfg) == Err(KeyError("Box Label"))
  {
    TextColumnOutcome(t, DiagnosisColumn);
    TextColumnOutcome(t, HistologyColumn);
    TextColumnOutcome(t, StageColumn);
    assert ReadDescriptions(t).Ok?;
    assert ReadSources(t) == Err(KeyError(BoxColumn));
  }

  // ---------------------------------------------------------------------
  // Successful runs

  /** One output row per input row, in input order, with the three copied cells. */
  lemma ConvertCopiesCells(t: Table, cfg: Config)
    requires WellFormed(t) && Convert(t, cfg).Ok?
    ensures HasSourceColumns(t)
    ensures |Convert(t, cfg).value| == |t.rows|
    ensures forall i :: 0 <= i < |t.rows| ==>
              Convert(t, cfg).value[i].stockName == Cell(t, i, LabelColumn) &&
              Convert(t, cfg).value[i].volume == Cell(t, i, VolumeColumn) &&
              Convert(t, cfg).value[i].boxName == Cell(t, i, BoxColumn)
  {
    ConvertOutcome(t, cfg);
  }

  /** The set of stock positions used by `rows`. */
  function Positions(rows: seq<StockRow>): set<int> {
    set i | 0 <= i < |rows| :: rows[i].position as int
  }

  /** Stock positions count the rows: 1 for the first, N for the last, ignoring every input column. */
  lemma ConvertPositions(t: Table, cfg: Config)
    requires WellFormed(t) && Convert(t, cfg).Ok?
    ensures forall i :: 0 <= i < |Convert(t, cfg).value| ==> Convert(t, cfg).value[i].position == i + 1
    ensures forall p: int :: p in Positions(Convert(t, cfg).value) <==> 1 <= p <= |t.rows|
  {
    var rows := Convert(t, cfg).value;
    assert |rows| == |t.rows|;
    forall p: int | 1 <= p <= |t.rows|
      ensures p in Positions(rows)
    {
      assert rows[p - 1].position == p;
    }
  }

  /** The hard-coded literals and the always-blank columns. */
  lemma ConvertFixedColumns(t: Table, cfg: Config)
    requires WellFormed(t) && Convert(t, cfg).Ok?
    ensures forall i :: 0 <= i < |Convert(t, cfg).value| ==>
              var r := Convert(t, cfg).value[i];
              r.privacy == "Public" && r.stockType == "Tube" && r.stockColor == "gray" && r.count == "1" &&
              r.stockId == "" && r.weight == "" && r.weightUnits == "" && r.weightRemarks == "" &&
              r.barcode == "" && r.expiryDate == "" && r.createdAt == "" &&
              r.boxRows == "" && r.boxColumns == "" && r.rackCells == "" &&
              r.storageLocation == "" && r.itemSysId == ""
  {
  }

  /** Every form constant reaches every row unchanged, except that the volume units are cleaned up. */
  lemma ConvertBroadcastsConfig(t: Table, cfg: Config)
    requires WellFormed(t) && Convert(t, cfg).Ok?
    ensures forall i :: 0 <= i < |Convert(t, cfg).value| ==>
              var r := Convert(t, cfg).value[i];
              r.concentration == cfg.concentration && r.concentrationUnits == cfg.concentrationUnits &&
              r.concentrationRemarks == cfg.concentrationRemarks &&
              r.volumeUnits == Units.NormalizeUnits(cfg.volumeUnits) &&
              r.volumeRemarks == cfg.volumeRemarks && r.stockUnits == cfg.stockUnits &&
              r.lot == cfg.stockLot && r.owner == cfg.owner && r.frozenBy == cfg.frozenBy &&
              r.frozenOn == cfg.frozenOn && r.collection == cfg.collection && r.itemName == cfg.itemName
  {
  }

  /**
   * The description joins Diagnosis, Histology and Pathologic_Stage of the
   * same row with single spaces, a missing value counting as "".
   */
  lemma ConvertDescription(t: Table, cfg: Config)
    requires WellFormed(t) && Convert(t, cfg).Ok?
    ensures HasSourceColumns(t)
    ensures forall i :: 0 <= i < |t.rows| ==>
              !IsNumeric(Cell(t, i, DiagnosisColumn)) && !IsNumeric(Cell(t, i, HistologyColumn)) &&
              !IsNumeric(Cell(t, i, StageColumn))
    ensures forall i :: 0 <= i < |t.rows| ==>
              var d, h, p := FillNa(Cell(t, i, DiagnosisColumn)), FillNa(Cell(t, i, HistologyColumn)), FillNa(Cell(t, i, StageColumn));
              |Convert(t, cfg).value| == |t.rows| &&
              Convert(t, cfg).value[i].description == d + " " + h + " " + p &&
              |Convert(t, cfg).value[i].description| == |d| + |h| + |p| + 2
  {
    ConvertOutcome(t, cfg);
  }

  /** Worked examples of the description rule. */
  lemma DescriptionExamples()
    ensures Description(FillNa(Text("Melanoma")), FillNa(Text("Nodular")), FillNa(Text("T3"))) == "Melanoma Nodular T3"
    ensures Description(FillNa(NaN), FillNa(Text("Nodular")), FillNa(Text(""))) == " Nodular "
    ensures Description(FillNa(NaN), FillNa(NaN), FillNa(NaN)) == "  "
  {
  }

  /** Re-applying the unit clean-up to a converted table changes nothing. */
  lemma ConvertUnitsStable(t: Table, cfg: Config)
    requires WellFormed(t) && Convert(t, cfg).Ok?
    ensures NormalizeVolumeUnits(Convert(t, cfg).value) == Convert(t, cfg).value
    ensures forall i :: 0 <= i < |Convert(t, cfg).value| ==> Units.MicroPaired(Convert(t, cfg).value[i].volumeUnits)
  {
    Units.NormalizeUnitsIdempotent(cfg.volumeUnits);
    Units.NormalizeUnitsPaired(cfg.volumeUnits);
  }

  /** Whichever selector choice the user made, every converted row carries exactly that choice. */
  lemma ConvertKeepsSelectorChoice(t: Table, cfg: Config)
    requires WellFormed(t) && Convert(t, cfg).Ok? && Units.IsSelectorChoice(cfg.volumeUnits)
    ensures forall i :: 0 <= i < |Convert(t, cfg).value| ==> Convert(t, cfg).value[i].volumeUnits == cfg.volumeUnits
  {
    Units.SelectorChoiceUnchanged(cfg.volumeUnits);
    ConvertBroadcastsConfig(t, cfg);
  }

  /** A table with all source columns and no data rows converts to an empty table. */
  lemma EmptyInput(t: Table, cfg: Config)
    requires WellFormed(t) && HasSourceColumns(t) && t.rows == []
    ensures Convert(t, cfg) == Ok([])
  {
    ConvertOutcome(t, cfg);
  }

  // ---------------------------------------------------------------------
  // Independence from every other input column

  /** Tables `t1` and `t2` agree on column `c`: both lack it, or both have it with the same cells. */
  predicate AgreeOn(t1: Table, t2: Table, c: string)
    requires WellFormed(t1) && WellFormed(t2)
  {
    (c in t1.header <==> c in t2.header) &&
    (c in t1.header ==> |t1.rows| == |t2.rows| && forall i :: 0 <= i < |t1.rows| ==> Cell(t1, i, c) == Cell(t2, i, c))
  }

  lemma ColumnsAgree(t1: Table, t2: Table, c: string)
    requires WellFormed(t1) && WellFormed(t2) && AgreeOn(t1, t2, c)
    ensures Column(t1, c) == Column(t2, c)
  {
    if c in t1.header {
      assert Column(t1, c).value == Column(t2, c).value;
    }
  }

  /**
   * The result depends only on the number of rows and the six source
   * columns: every other input column, a position column included, is
   * dropped without effect.
   */
  lemma ConvertReadsOnlySourceColumns(t1: Table, t2: Table, cfg: Config)
    requires WellFormed(t1) && WellFormed(t2) && |t1.rows| == |t2.rows|
    requires AgreeOn(t1, t2, LabelColumn) && AgreeOn(t1, t2, DiagnosisColumn) && AgreeOn(t1, t2, HistologyColumn)
    requires AgreeOn(t1, t2, StageColumn) && AgreeOn(t1, t2, VolumeColumn) && AgreeOn(t1, t2, BoxColumn)
    ensures Convert(t1, cfg) == Convert(t2, cfg)
  {
    ColumnsAgree(t1, t2, LabelColumn);
    ColumnsAgree(t1, t2, DiagnosisColumn);
    ColumnsAgree(t1, t2, HistologyColumn);
    ColumnsAgree(t1, t2, StageColumn);
    ColumnsAgree(t1, t2, VolumeColumn);
    ColumnsAgree(t1, t2, BoxColumn);
  }

  // ---------------------------------------------------------------------
  // The output layout

  /** The 33 output column names are distinct. */
  lemma OutputColumnsDistinct()
    ensures |OutputColumns| == 33
    ensures forall i, j :: 0 <= i < j < |OutputColumns| ==> OutputColumns[i] != OutputColumns[j]
  {
  }

  /**
   * The output table has exactly the 33 template columns, in template
   * order, whatever the input's columns were, and one row per stock row.
   */
  lemma OutputLayout(rows: seq<StockRow>)
    ensures OutputTable(rows).header == OutputColumns && |OutputColumns| == 33
    ensures |OutputTable(rows).rows| == |rows|
    ensures WellFormed(OutputTable(rows))
  {
    OutputColumnsDistinct();
  }

  /** Looking a column up by name in the output table finds the matching field of the row. */
  lemma OutputCellByName(rows: seq<StockRow>, i: nat, k: nat)
    requires i < |rows| && k < |OutputColumns|
    ensures WellFormed(OutputTable(rows))
    ensures Cell(OutputTable(rows), i, OutputColumns[k]) == Fields(rows[i])[k]
  {
    OutputLayout(rows);
    OutputColumnsDistinct();
  }
}
