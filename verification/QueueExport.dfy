/**
 * The remediation-queue export: the CSV the server writes for a document, the JSON rows it would send
 * for the same document, and the cross-field checks both must pass. Field-level patterns (UUIDs,
 * timestamps, lengths) are not part of the checks here, so what follows holds of more documents than
 * the server lets through.
 */
module QueueExport {
  import opened Wrappers
  import opened Text
  import opened Csv
  import opened QueueSection

  /** A JavaScript number by its JSON text; NaN and the infinities have none. */
  datatype Number = Finite(literal: string) | NonFinite

  /** A review marker: which properties it has besides the first two depends on its status. */
  datatype Review = Review(
    status: string, priorReviewExists: bool, reviewId: Option<string>, correctedBand: Option<string>,
    expiresAt: Option<string>)

  datatype Signal =
    | PolicySuperseded | EngineVersionChanged | KevGenerationChanged | ObservedAfterCalculation
    | AssetUpdatedAfterCalculation

  datatype Calculated = Calculated(
    priorityBand: string, priority: Number,
    riskPolicyId: string, policyKey: string, policyVersion: Number, policyDefinitionSha256: string,
    calculatedAt: string, inputsChangedStatus: string, signals: seq<Signal>)

  /** A row object: the calculated part and the message are properties it may or may not have. */
  datatype Row = Row(
    findingId: string, assetId: string, assetName: string, componentName: string, componentVersion: string,
    vulnerabilityPublicId: string, humanReview: Review, calculated: Option<Calculated>,
    comparisonMessage: Option<string>)

  datatype Document = Document(
    rankedCount: int, incomparableCount: int, notCalculatedCount: int, rowCount: int, cap: int,
    ranked: seq<Row>, incomparable: seq<Row>, notCalculated: seq<Row>)

  const EXPORT_CAP := 150
  const COMPARISON_MESSAGE := "recalculation required for comparison"

  const HEADER_IDENTITY: seq<string> :=
    ["section", "findingId", "assetId", "assetName", "componentName", "componentVersion", "vulnerabilityPublicId"]
  const HEADER_REVIEW: seq<string> :=
    ["humanReviewStatus", "humanReviewPriorReviewExists", "humanReviewId", "humanReviewCorrectedBand",
     "humanReviewExpiresAt"]
  const HEADER_POLICY: seq<string> := ["priorityBand", "priority", "riskPolicyId", "policyKey", "policyVersion"]
  const HEADER_CALCULATION: seq<string> :=
    ["policyDefinitionSha256", "calculatedAt", "inputsChangedStatus", "inputsChangedSignals", "comparisonMessage"]

  const HEADER := HEADER_IDENTITY + HEADER_REVIEW + HEADER_POLICY + HEADER_CALCULATION

  function SignalName(s: Signal): (name: string)
    ensures ',' !in name && |name| > 0
  {
    match s
    case PolicySuperseded => "policy_superseded"
    case EngineVersionChanged => "engine_version_changed"
    case KevGenerationChanged => "kev_generation_changed"
    case ObservedAfterCalculation => "observed_after_calculation"
    case AssetUpdatedAfterCalculation => "asset_updated_after_calculation"
  }

  function SignalIndex(s: Signal): int {
    match s
    case PolicySuperseded => 0
    case EngineVersionChanged => 1
    case KevGenerationChanged => 2
    case ObservedAfterCalculation => 3
    case AssetUpdatedAfterCalculation => 4
  }

  function SignalNames(signals: seq<Signal>): (names: seq<string>)
    ensures |names| == |signals|
  {
    seq(|signals|, i requires 0 <= i < |signals| => SignalName(signals[i]))
  }

  /** `join(',')`; an empty list joins to the empty text. */
  function SignalText(signals: seq<Signal>): string { Join(SignalNames(signals), ',') }

  // ---- JSON rows ----

  /** The object `toRow` builds: which properties of the row reach the JSON body. */
  function ToRow(section: Section, row: Row): Row {
    if section.NotCalculated? || row.calculated.None? then row.(calculated := None, comparisonMessage := None)
    else if section.Incomparable? then row
    else row.(comparisonMessage := None)
  }

  predicate InOrder(signals: seq<Signal>) {
    forall i, j | 0 <= i < j < |signals| :: SignalIndex(signals[i]) < SignalIndex(signals[j])
  }

  /** The refinement on `inputsChanged`: signals in catalog order, and a status that says if there are any. */
  method CheckInputsChanged(status: string, signals: seq<Signal>) returns (accepted: bool)
    ensures accepted <==> InOrder(signals) && (status == "detected" <==> |signals| > 0)
  {
    var previous := -1;
    for k := 0 to |signals|
      invariant InOrder(signals[..k])
      invariant previous == if k == 0 then -1 else SignalIndex(signals[k - 1])
    {
      var index := SignalIndex(signals[k]);
      if index <= previous {
        assert k > 0 && !(SignalIndex(signals[k - 1]) < SignalIndex(signals[k]));
        return false;
      }
      assert forall i | 0 <= i < k :: SignalIndex(signals[..k][i]) <= previous;
      previous := index;
    }
    assert signals[..|signals|] == signals;
    accepted := (status == "detected") == (|signals| > 0);
  }

  /** The discriminated union of review markers. */
  predicate ReviewAccepted(r: Review) {
    if r.status == "none" || r.status == "none_for_current_calculation" then
      r == Review(r.status, r.status != "none", None, None, None)
    else if r.status == "accepted" || r.status == "withdrawn" then
      r.reviewId.Some? && r.correctedBand.None? && r.expiresAt.None?
    else if r.status == "corrected" || r.status == "expired" then
      r.reviewId.Some? && r.correctedBand.Some? && r.expiresAt.Some?
    else false
  }

  predicate RowAccepted(section: Section, json: Row) {
    && ReviewAccepted(json.humanReview)
    && (json.calculated.Some? <==> !section.NotCalculated?)
    && (json.comparisonMessage == if section.Incomparable? then Some(COMPARISON_MESSAGE) else None)
    && (json.calculated.Some? ==>
          var c := json.calculated.value;
          && c.priority.Finite? && c.policyVersion.Finite? && InOrder(c.signals)
          && (c.inputsChangedStatus == if |c.signals| > 0 then "detected" else "none_detected"))
  }

  predicate DocumentAccepted(d: Document) {
    && d.rankedCount >= 0 && d.incomparableCount >= 0 && d.notCalculatedCount >= 0
    && d.cap == EXPORT_CAP && 0 <= d.rowCount <= d.cap
    && d.rankedCount + d.incomparableCount + d.notCalculatedCount == d.rowCount
    && |d.ranked| == d.rankedCount && |d.incomparable| == d.incomparableCount
    && |d.notCalculated| == d.notCalculatedCount
    && (forall r | r in d.ranked :: RowAccepted(Ranked, ToRow(Ranked, r)))
    && (forall r | r in d.incomparable :: RowAccepted(Incomparable, ToRow(Incomparable, r)))
    && (forall r | r in d.notCalculated :: RowAccepted(NotCalculated, ToRow(NotCalculated, r)))
  }

  // ---- CSV lines ----

  /** A cell before it is written: csvText takes text, csvNumber takes numbers. */
  datatype Cell = Text(value: string) | Num(number: Number)

  function OrBlank(text: Option<string>): string { if text.Some? then text.value else "" }

  function ReviewCells(r: Review): seq<Cell> {
    [Text(r.status), Text(if r.priorReviewExists then "true" else "false"), Text(OrBlank(r.reviewId)),
     Text(OrBlank(r.correctedBand)), Text(OrBlank(r.expiresAt))]
  }

  const BLANK := Text("")

  function CalculatedCells(calculated: Option<Calculated>): seq<Cell> {
    match calculated
    case None => [BLANK, BLANK, BLANK, BLANK, BLANK, BLANK, BLANK, BLANK, BLANK]
    case Some(c) =>
      [Text(c.priorityBand), Num(c.priority), Text(c.riskPolicyId), Text(c.policyKey), Num(c.policyVersion),
       Text(c.policyDefinitionSha256), Text(c.calculatedAt), Text(c.inputsChangedStatus),
       Text(SignalText(c.signals))]
  }

  /** The 22 cells of an entry, read off its row object. */
  function Cells(section: Section, row: Row): (cells: seq<Cell>)
    ensures |cells| == 22
  {
    [Text(SectionName(section)), Text(row.findingId), Text(row.assetId), Text(row.assetName),
     Text(row.componentName), Text(row.componentVersion), Text(row.vulnerabilityPublicId)]
    + ReviewCells(row.humanReview) + CalculatedCells(row.calculated)
    + [Text(OrBlank(row.comparisonMessage))]
  }

  /** No number of the row makes the serializer throw. */
  predicate Writable(row: Row) {
    row.calculated.Some? ==> row.calculated.value.priority.Finite? && row.calculated.value.policyVersion.Finite?
  }

  function Written(cell: Cell): string
    requires cell.Num? ==> cell.number.Finite?
  {
    if cell.Text? then CsvText(cell.value) else QuoteCsv(cell.number.literal)
  }

  /** `csvLine`; None where csvNumber throws. */
  function CsvLine(section: Section, row: Row): Option<string> {
    if !Writable(row) then None
    else
      var cells := Cells(section, row);
      assert forall k | 0 <= k < |cells| && cells[k].Num? :: cells[k].number.Finite? by { NumbersFinite(section, row); }
      Some(Join(seq(|cells|, k requires 0 <= k < |cells| && (cells[k].Num? ==> cells[k].number.Finite?) =>
                              Written(cells[k])), ','))
  }

  lemma NumbersFinite(section: Section, row: Row)
    requires Writable(row)
    ensures forall k | 0 <= k < 22 && Cells(section, row)[k].Num? :: Cells(section, row)[k].number.Finite?
  {
    hide SectionName, SignalText;
  }

  // ---- what a record means ----

  /** What a reader of the file sees of a cell: text neutralised, a number as its JSON text. */
  function FieldOf(cell: Cell): string {
    if cell.Text? then Neutralise(cell.value) else if cell.number.Finite? then cell.number.literal else ""
  }

  function FieldsOf(cells: seq<Cell>): (fields: seq<string>)
    ensures |fields| == |cells| && forall k | 0 <= k < |cells| :: fields[k] == FieldOf(cells[k])
  {
    seq(|cells|, k requires 0 <= k < |cells| => FieldOf(cells[k]))
  }

  /** The record the writer makes of an entry. */
  function CsvRecord(section: Section, row: Row): seq<string> { FieldsOf(Cells(section, row)) }

  /** The columns in the order of the header, each for one property of a row. */
  datatype Column =
    | InSection | FindingId | AssetId | AssetName | ComponentName | ComponentVersion | VulnerabilityPublicId
    | HumanReviewStatus | HumanReviewPriorReviewExists | HumanReviewId | HumanReviewCorrectedBand | HumanReviewExpiresAt
    | PriorityBand | Priority | RiskPolicyId | PolicyKey | PolicyVersion
    | PolicyDefinitionSha256 | CalculatedAt | InputsChangedStatus | InputsChangedSignals | ComparisonMessage

  const IDENTITY_COLUMNS: seq<Column> :=
    [InSection, FindingId, AssetId, AssetName, ComponentName, ComponentVersion, VulnerabilityPublicId]
  const REVIEW_COLUMNS: seq<Column> :=
    [HumanReviewStatus, HumanReviewPriorReviewExists, HumanReviewId, HumanReviewCorrectedBand, HumanReviewExpiresAt]
  const CALCULATED_COLUMNS: seq<Column> :=
    [PriorityBand, Priority, RiskPolicyId, PolicyKey, PolicyVersion, PolicyDefinitionSha256, CalculatedAt,
     InputsChangedStatus, InputsChangedSignals]

  const COLUMNS: seq<Column> := IDENTITY_COLUMNS + REVIEW_COLUMNS + CALCULATED_COLUMNS + [ComparisonMessage]

  function Heading(column: Column): string {
    match column
    case InSection => "section"
    case FindingId => "findingId"
    case AssetId => "assetId"
    case AssetName => "assetName"
    case ComponentName => "componentName"
    case ComponentVersion => "componentVersion"
    case VulnerabilityPublicId => "vulnerabilityPublicId"
    case HumanReviewStatus => "humanReviewStatus"
    case HumanReviewPriorReviewExists => "humanReviewPriorReviewExists"
    case HumanReviewId => "humanReviewId"
    case HumanReviewCorrectedBand => "humanReviewCorrectedBand"
    case HumanReviewExpiresAt => "humanReviewExpiresAt"
    case PriorityBand => "priorityBand"
    case Priority => "priority"
    case RiskPolicyId => "riskPolicyId"
    case PolicyKey => "policyKey"
    case PolicyVersion => "policyVersion"
    case PolicyDefinitionSha256 => "policyDefinitionSha256"
    case CalculatedAt => "calculatedAt"
    case InputsChangedStatus => "inputsChangedStatus"
    case InputsChangedSignals => "inputsChangedSignals"
    case ComparisonMessage => "comparisonMessage"
  }

  /** The value of a property of a row object. */
  datatype Property =
    | Absent | Str(text: string) | Numeric(number: Number) | Flag(value: bool) | Names(signals: seq<Signal>)

  function Optional(text: Option<string>): Property { if text.Some? then Str(text.value) else Absent }

  /** The property of a row object that a column is about; the section is where the row stands. */
  function PropertyOf(section: Section, row: Row, column: Column): Property {
    match column
    case InSection => Str(SectionName(section))
    case FindingId => Str(row.findingId)
    case AssetId => Str(row.assetId)
    case AssetName => Str(row.assetName)
    case ComponentName => Str(row.componentName)
    case ComponentVersion => Str(row.componentVersion)
    case VulnerabilityPublicId => Str(row.vulnerabilityPublicId)
    case HumanReviewStatus => Str(row.humanReview.status)
    case HumanReviewPriorReviewExists => Flag(row.humanReview.priorReviewExists)
    case HumanReviewId => Optional(row.humanReview.reviewId)
    case HumanReviewCorrectedBand => Optional(row.humanReview.correctedBand)
    case HumanReviewExpiresAt => Optional(row.humanReview.expiresAt)
    case ComparisonMessage => Optional(row.comparisonMessage)
    case _ => if row.calculated.None? then Absent else CalculatedProperty(row.calculated.value, column)
  }

  function CalculatedProperty(c: Calculated, column: Column): Property {
    match column
    case PriorityBand => Str(c.priorityBand)
    case Priority => Numeric(c.priority)
    case RiskPolicyId => Str(c.riskPolicyId)
    case PolicyKey => Str(c.policyKey)
    case PolicyVersion => Numeric(c.policyVersion)
    case PolicyDefinitionSha256 => Str(c.policyDefinitionSha256)
    case CalculatedAt => Str(c.calculatedAt)
    case InputsChangedStatus => Str(c.inputsChangedStatus)
    case InputsChangedSignals => Names(c.signals)
    case _ => Absent
  }

  /** What the JSON body carries for a property: text as it is, a number as its JSON text. */
  function SentText(p: Property): string {
    match p
    case Absent => ""
    case Str(text) => text
    case Numeric(number) => if number.Finite? then number.literal else ""
    case Flag(value) => if value then "true" else "false"
    case Names(signals) => SignalText(signals)
  }

  /** What a reader of the file sees of it: all but numbers neutralised. */
  function ShownText(p: Property): string { if p.Numeric? then SentText(p) else Neutralise(SentText(p)) }

  /** The values the JSON row of an entry carries, in the order of the columns. */
  function JsonRecord(section: Section, row: Row): (values: seq<string>)
    ensures |values| == 22
    ensures forall k | 0 <= k < 22 :: values[k] == SentText(PropertyOf(section, ToRow(section, row), COLUMNS[k]))
  {
    seq(22, k requires 0 <= k < 22 => SentText(PropertyOf(section, ToRow(section, row), COLUMNS[k])))
  }

  function CellOf(p: Property): Cell { if p.Numeric? then Num(p.number) else Text(SentText(p)) }

  lemma ColumnGroups(k: nat)
    requires k < 22
    ensures |COLUMNS| == 22
    ensures COLUMNS[k] == if k < 7 then IDENTITY_COLUMNS[k] else if k < 12 then REVIEW_COLUMNS[k - 7]
                          else if k < 21 then CALCULATED_COLUMNS[k - 12] else ComparisonMessage
  {
  }

  lemma IdentityCells(section: Section, row: Row, k: nat)
    requires k < 7
    ensures Cells(section, row)[k] == CellOf(PropertyOf(section, row, IDENTITY_COLUMNS[k]))
  {
    hide SectionName, ReviewCells, CalculatedCells;
  }

  lemma ReviewCellsInOrder(section: Section, row: Row, k: nat)
    requires k < 5
    ensures |ReviewCells(row.humanReview)| == 5
    ensures ReviewCells(row.humanReview)[k] == CellOf(PropertyOf(section, row, REVIEW_COLUMNS[k]))
  {
  }

  lemma CalculatedCellsInOrder(c: Calculated, k: nat)
    requires k < 9
    ensures |CalculatedCells(Some(c))| == 9
    ensures CalculatedCells(Some(c))[k] == CellOf(CalculatedProperty(c, CALCULATED_COLUMNS[k]))
  {
    hide SignalText;
  }

  lemma NoCalculatedCells(k: nat)
    requires k < 9
    ensures |CalculatedCells(None)| == 9 && CalculatedCells(None)[k] == CellOf(Absent)
  {
  }

  lemma CalculatedColumn(section: Section, row: Row, k: nat)
    requires k < 9
    ensures PropertyOf(section, row, CALCULATED_COLUMNS[k])
         == if row.calculated.None? then Absent else CalculatedProperty(row.calculated.value, CALCULATED_COLUMNS[k])
  {
    hide CalculatedProperty, Optional;
  }

  /** Where the groups of cells lie among the 22. */
  lemma CellGroups(section: Section, row: Row, k: nat)
    requires k < 22 && |ReviewCells(row.humanReview)| == 5 && |CalculatedCells(row.calculated)| == 9
    ensures 7 <= k < 12 ==> Cells(section, row)[k] == ReviewCells(row.humanReview)[k - 7]
    ensures 12 <= k < 21 ==> Cells(section, row)[k] == CalculatedCells(row.calculated)[k - 12]
    ensures k == 21 ==> Cells(section, row)[k] == Text(OrBlank(row.comparisonMessage))
  {
    hide ReviewCells, CalculatedCells, SectionName;
  }

  lemma CellIsProperty(section: Section, row: Row, k: nat)
    requires k < 22
    ensures Cells(section, row)[k] == CellOf(PropertyOf(section, row, COLUMNS[k]))
  {
    ColumnGroups(k);
    ReviewCellsInOrder(section, row, if 7 <= k < 12 then k - 7 else 0);
    var n := if 12 <= k < 21 then k - 12 else 0;
    NoCalculatedCells(n);
    if row.calculated.Some? { CalculatedCellsInOrder(row.calculated.value, n); }
    CellGroups(section, row, k);
    CalculatedColumn(section, row, n);
    if k < 7 { IdentityCells(section, row, k); }
    MessageProperty(section, row);
    hide Cells, ReviewCells, CalculatedCells, COLUMNS, IDENTITY_COLUMNS, REVIEW_COLUMNS, CALCULATED_COLUMNS;
    hide PropertyOf, CellOf;
  }

  lemma MessageProperty(section: Section, row: Row)
    ensures CellOf(PropertyOf(section, row, ComparisonMessage)) == Text(OrBlank(row.comparisonMessage))
  {
  }

  /** Under every heading the record of a row holds the row's property of that name. */
  lemma RecordHoldsProperties(section: Section, row: Row, k: nat)
    requires k < 22
    ensures CsvRecord(section, row)[k] == ShownText(PropertyOf(section, row, COLUMNS[k]))
  {
    hide Cells, PropertyOf, COLUMNS, Neutralise, SentText;
    ColumnGroups(k);
    CellIsProperty(section, row, k);
    NumberAsText(PropertyOf(section, row, COLUMNS[k]));
  }

  lemma NumberAsText(p: Property)
    ensures p.Numeric? ==> SentText(p) == if p.number.Finite? then p.number.literal else ""
  {
  }

  lemma IdentityHeadings(k: nat)
    requires k < 7
    ensures |HEADER_IDENTITY| == 7 && HEADER_IDENTITY[k] == Heading(IDENTITY_COLUMNS[k])
  {
  }

  lemma ReviewHeadings(k: nat)
    requires k < 5
    ensures |HEADER_REVIEW| == 5 && HEADER_REVIEW[k] == Heading(REVIEW_COLUMNS[k])
  {
  }

  lemma PolicyHeadings(k: nat)
    requires k < 5
    ensures |HEADER_POLICY| == 5 && HEADER_POLICY[k] == Heading(CALCULATED_COLUMNS[k])
  {
  }

  lemma CalculationHeadings(k: nat)
    requires k < 5
    ensures |HEADER_CALCULATION| == 5
    ensures HEADER_CALCULATION[k] == Heading(if k < 4 then CALCULATED_COLUMNS[5 + k] else ComparisonMessage)
  {
  }

  /** The header names the columns one after the other. */
  lemma HeadingsInOrder(k: nat)
    requires k < 22
    ensures |COLUMNS| == |HEADER| == 22 && HEADER[k] == Heading(COLUMNS[k])
  {
    ColumnGroups(k);
    IdentityHeadings(if k < 7 then k else 0);
    ReviewHeadings(if 7 <= k < 12 then k - 7 else 0);
    PolicyHeadings(if 12 <= k < 17 then k - 12 else 0);
    CalculationHeadings(if 17 <= k then k - 17 else 0);
    hide COLUMNS, IDENTITY_COLUMNS, REVIEW_COLUMNS, CALCULATED_COLUMNS, Heading;
    hide HEADER_IDENTITY, HEADER_REVIEW, HEADER_POLICY, HEADER_CALCULATION;
  }

  function CsvRecords(section: Section, rows: seq<Row>): (records: seq<seq<string>>)
    ensures |records| == |rows| && forall i | 0 <= i < |rows| :: records[i] == CsvRecord(section, rows[i])
  {
    seq(|rows|, i requires 0 <= i < |rows| => CsvRecord(section, rows[i]))
  }

  function JsonRecords(section: Section, rows: seq<Row>): (records: seq<seq<string>>)
    ensures |records| == |rows| && forall i | 0 <= i < |rows| :: records[i] == JsonRecord(section, rows[i])
  {
    seq(|rows|, i requires 0 <= i < |rows| => JsonRecord(section, rows[i]))
  }

  lemma WrittenQuotesField(cell: Cell)
    requires cell.Num? ==> cell.number.Finite?
    ensures Written(cell) == QuoteCsv(FieldOf(cell))
  {
  }

  /** The line written for a row is the quoted form of its record. */
  lemma LineHoldsRecord(section: Section, row: Row)
    requires Writable(row)
    ensures CsvLine(section, row) == Some(Join(Quoted(CsvRecord(section, row)), ','))
  {
    hide Cells, CsvText, QuoteCsv, Join, Neutralise;
    NumbersFinite(section, row);
    var cells := Cells(section, row);
    var line := seq(|cells|, k requires 0 <= k < |cells| && (cells[k].Num? ==> cells[k].number.Finite?) =>
                               Written(cells[k]));
    forall k | 0 <= k < |cells| ensures line[k] == Quoted(FieldsOf(cells))[k] { WrittenQuotesField(cells[k]); }
    assert line == Quoted(FieldsOf(cells));
  }

  /**
   * The row carries nothing its section leaves out of the JSON: no calculated part among the not
   * calculated, no message where none belongs.
   */
  predicate Conforms(section: Section, row: Row) {
    && (section.NotCalculated? ==> row.calculated.None?)
    && ((section.Incomparable? && row.calculated.Some?)
        || row.comparisonMessage.None? || row.comparisonMessage.value == "")
  }

  predicate Harmless(p: Property) { p.Numeric? || !IsFormula(SentText(p)) }

  /** No text of the row starts with a formula character. */
  predicate NoFormula(section: Section, row: Row) {
    forall k | 0 <= k < 22 :: Harmless(PropertyOf(section, row, COLUMNS[k]))
  }

  predicate LiteralNonempty(row: Row) {
    row.calculated.Some? && row.calculated.value.priority.Finite? ==> |row.calculated.value.priority.literal| > 0
  }

  lemma ShownIsSent(p: Property)
    ensures ShownText(p) == SentText(p) <==> Harmless(p)
  {
    hide SentText;
  }

  /** Leaving out of the JSON what a conforming row does not have changes no value. */
  lemma ConformingRowIsSent(section: Section, row: Row, column: Column)
    requires Conforms(section, row)
    ensures SentText(PropertyOf(section, ToRow(section, row), column)) == SentText(PropertyOf(section, row, column))
  {
  }

  /** On a conforming row the two differ exactly in the cells that are neutralised. */
  lemma ConformingRowsDifferInFormulas(section: Section, row: Row)
    requires Conforms(section, row)
    ensures CsvRecord(section, row) == JsonRecord(section, row) <==> NoFormula(section, row)
  {
    hide CsvRecord, SentText, ShownText, PropertyOf, ToRow, Harmless;
    assert |CsvRecord(section, row)| == 22 by { RecordWidth(section, row); }
    forall k | 0 <= k < 22
      ensures CsvRecord(section, row)[k] == JsonRecord(section, row)[k]
          <==> Harmless(PropertyOf(section, row, COLUMNS[k]))
    {
      RecordHoldsProperties(section, row, k);
      ConformingRowIsSent(section, row, COLUMNS[k]);
      ShownIsSent(PropertyOf(section, row, COLUMNS[k]));
    }
  }

  lemma RecordWidth(section: Section, row: Row)
    ensures |CsvRecord(section, row)| == 22
  {
  }

  /** What the section does not show is in the file and not in the JSON. */
  lemma OtherRowsDiffer(section: Section, row: Row)
    requires Writable(row) && LiteralNonempty(row) && !Conforms(section, row)
    ensures CsvRecord(section, row) != JsonRecord(section, row)
  {
    hide CsvRecord, SectionName, SignalText;
    RecordWidth(section, row);
    assert COLUMNS[13] == Priority && COLUMNS[21] == ComparisonMessage;
    RecordHoldsProperties(section, row, 13);
    RecordHoldsProperties(section, row, 21);
    assert JsonRecord(section, row)[13] == SentText(PropertyOf(section, ToRow(section, row), Priority));
    assert JsonRecord(section, row)[21] == SentText(PropertyOf(section, ToRow(section, row), ComparisonMessage));
  }

  /**
   * CSV and JSON carry the same values for an entry exactly when the row carries only what its section
   * shows and none of its text starts a formula.
   */
  lemma RecordsAgreeIff(section: Section, row: Row)
    requires Writable(row) && LiteralNonempty(row)
    ensures CsvRecord(section, row) == JsonRecord(section, row) <==> Conforms(section, row) && NoFormula(section, row)
  {
    hide CsvRecord, JsonRecord, NoFormula;
    if Conforms(section, row) { ConformingRowsDifferInFormulas(section, row); } else { OtherRowsDiffer(section, row); }
  }

  // ---- the serializer ----

  function LineTexts(rows: seq<seq<string>>): seq<string> {
    seq(|rows|, i requires 0 <= i < |rows| => Join(Quoted(rows[i]), ','))
  }

  /** Joining the lines with LF and ending with one more is LF after every line. */
  lemma {:induction false} JoinedLines(rows: seq<seq<string>>)
    requires |rows| > 0
    ensures Join(LineTexts(rows), '\n') + "\n" == Lines(rows)
  {
    if |rows| == 1 {
      assert rows[1..] == [];
    } else {
      assert LineTexts(rows)[1..] == LineTexts(rows[1..]);
      JoinedLines(rows[1..]);
      assert Lines(rows) == Join(Quoted(rows[0]), ',') + "\n" + (Join(LineTexts(rows[1..]), '\n') + "\n");
    }
  }

  /** The records of the file, and those its JSON counterpart would hold. */
  function Exported(d: Document): seq<seq<string>> {
    CsvRecords(Ranked, d.ranked) + CsvRecords(Incomparable, d.incomparable) + CsvRecords(NotCalculated, d.notCalculated)
  }

  function Sent(d: Document): seq<seq<string>> {
    JsonRecords(Ranked, d.ranked) + JsonRecords(Incomparable, d.incomparable)
        + JsonRecords(NotCalculated, d.notCalculated)
  }

  predicate AllWritable(rows: seq<Row>) { forall r | r in rows :: Writable(r) }

  lemma LineTextsSnoc(records: seq<seq<string>>, k: nat)
    requires k < |records|
    ensures LineTexts(records[..k + 1]) == LineTexts(records[..k]) + [Join(Quoted(records[k]), ',')]
  {
  }

  /** One of the three loops of the serializer; None once it throws. */
  method AppendSection(section: Section, rows: seq<Row>, lines: seq<string>) returns (appended: Option<seq<string>>)
    ensures appended == if AllWritable(rows) then Some(lines + LineTexts(CsvRecords(section, rows))) else None
  {
    hide CsvRecord, Quoted, Join, CsvLine;
    var pushed := lines;
    ghost var records := CsvRecords(section, rows);
    for k := 0 to |rows|
      invariant pushed == lines + LineTexts(records[..k])
      invariant forall i | 0 <= i < k :: Writable(rows[i])
    {
      var line := CsvLine(section, rows[k]);
      if Writable(rows[k]) { LineHoldsRecord(section, rows[k]); } else { UnwritableThrows(section, rows[k]); }
      if line.None? {
        assert rows[k] in rows;
        return None;
      }
      LineTextsSnoc(records, k);
      pushed := pushed + [line.value];
    }
    assert records[..|rows|] == records;
    appended := Some(pushed);
  }

  lemma UnwritableThrows(section: Section, row: Row)
    requires !Writable(row)
    ensures CsvLine(section, row) == None
  {
  }

  /** `serializeExportCsv`: None where it throws. */
  method SerializeExportCsv(d: Document) returns (text: Option<string>)
    ensures text
         == if DocumentAccepted(d) && AllWritable(d.notCalculated) then Some(Lines([HEADER] + Exported(d))) else None
  {
    hide Lines, HEADER, CsvRecords, Join;
    if !DocumentAccepted(d) { return None; }
    SchemaMakesWritable(d);
    HeaderNeedsNoQuotes();
    var lines := [Join(HEADER, ',')];
    var ranked := AppendSection(Ranked, d.ranked, lines);
    var incomparable := AppendSection(Incomparable, d.incomparable, ranked.value);
    var all := AppendSection(NotCalculated, d.notCalculated, incomparable.value);
    if all.None? { return None; }
    text := Some(Join(all.value, '\n') + "\n");
    assert all.value == LineTexts([HEADER] + Exported(d)) by { AllLines(d); }
    JoinedLines([HEADER] + Exported(d));
  }

  lemma SchemaMakesWritable(d: Document)
    requires DocumentAccepted(d)
    ensures AllWritable(d.ranked) && AllWritable(d.incomparable)
  {
    forall r | r in d.ranked ensures Writable(r) { assert RowAccepted(Ranked, ToRow(Ranked, r)); }
    forall r | r in d.incomparable ensures Writable(r) { assert RowAccepted(Incomparable, ToRow(Incomparable, r)); }
  }

  lemma AllLines(d: Document)
    ensures LineTexts([HEADER] + Exported(d))
         == [Join(HEADER, ',')] + LineTexts(CsvRecords(Ranked, d.ranked))
            + LineTexts(CsvRecords(Incomparable, d.incomparable))
            + LineTexts(CsvRecords(NotCalculated, d.notCalculated))
  {
    hide HEADER, CsvRecords, Join, Quoted;
    HeaderNeedsNoQuotes();
  }

  predicate Plain(s: string) { forall i | 0 <= i < |s| :: '0' <= s[i] <= 'z' }

  lemma PlainNeedsNoQuotes(s: string)
    requires Plain(s)
    ensures QuoteCsv(s) == s
  {
  }

  lemma HeaderNeedsNoQuotes()
    ensures |HEADER| == 22 && Quoted(HEADER) == HEADER
  {
    hide QuoteCsv;
    assert forall k | 0 <= k < 7 :: Plain(HEADER_IDENTITY[k]) by { IdentityHeaderIsPlain(); }
    assert forall k | 0 <= k < 5 :: Plain(HEADER_REVIEW[k]) by { ReviewHeaderIsPlain(); }
    assert forall k | 0 <= k < 5 :: Plain(HEADER_POLICY[k]) by { PolicyHeaderIsPlain(); }
    assert forall k | 0 <= k < 5 :: Plain(HEADER_CALCULATION[k]) by { CalculationHeaderIsPlain(); }
    hide Plain, HEADER_IDENTITY, HEADER_REVIEW, HEADER_POLICY, HEADER_CALCULATION;
    forall k | 0 <= k < |HEADER| ensures QuoteCsv(HEADER[k]) == HEADER[k] { PlainNeedsNoQuotes(HEADER[k]); }
  }

  lemma IdentityHeaderIsPlain()
    ensures |HEADER_IDENTITY| == 7 && forall k | 0 <= k < 7 :: Plain(HEADER_IDENTITY[k])
  {
  }

  lemma ReviewHeaderIsPlain()
    ensures |HEADER_REVIEW| == 5 && forall k | 0 <= k < 5 :: Plain(HEADER_REVIEW[k])
  {
  }

  lemma PolicyHeaderIsPlain()
    ensures |HEADER_POLICY| == 5 && forall k | 0 <= k < 5 :: Plain(HEADER_POLICY[k])
  {
  }

  lemma CalculationHeaderIsPlain()
    ensures |HEADER_CALCULATION| == 5 && forall k | 0 <= k < 5 :: Plain(HEADER_CALCULATION[k])
  {
  }

  // ---- main results ----

  /**
   * An RFC 4180 parser applied to the export finds the header and then exactly rowCount records of 22
   * fields each, in ranked, incomparable, not-calculated order.
   */
  lemma ExportParsesBack(d: Document)
    requires DocumentAccepted(d)
    ensures ParseFile(Lines([HEADER] + Exported(d))) == Some([HEADER] + Exported(d))
    ensures |Exported(d)| == d.rowCount <= 150 && forall r | r in [HEADER] + Exported(d) :: |r| == 22
  {
    HeaderNeedsNoQuotes();
    hide HEADER, Cells, FieldOf, RowAccepted, ToRow, ParseFile, Lines;
    ParseUndoesLines([HEADER] + Exported(d));
  }

  /** The i-th entry of the document, sections in export order. */
  function EntryAt(d: Document, i: nat): (Section, Row)
    requires i < |d.ranked| + |d.incomparable| + |d.notCalculated|
  {
    if i < |d.ranked| then (Ranked, d.ranked[i])
    else if i < |d.ranked| + |d.incomparable| then (Incomparable, d.incomparable[i - |d.ranked|])
    else (NotCalculated, d.notCalculated[i - |d.ranked| - |d.incomparable|])
  }

  /**
   * Parsing the export gives back, for every entry and column, the entry's property under the heading with
   * its name: neutralised text, or the number.
   */
  lemma FileHoldsProperties(d: Document, i: nat, k: nat)
    requires DocumentAccepted(d) && i < d.rowCount && k < 22
    ensures var file := ParseFile(Lines([HEADER] + Exported(d)));
      && file.Some? && |file.value| == d.rowCount + 1 && |file.value[0]| == |file.value[1 + i]| == |COLUMNS| == 22
      && file.value[0][k] == Heading(COLUMNS[k])
      && file.value[1 + i][k] == ShownText(PropertyOf(EntryAt(d, i).0, EntryAt(d, i).1, COLUMNS[k]))
  {
    ExportParsesBack(d);
    HeadingsInOrder(k);
    EntryIsExported(d, i);
    RecordHoldsProperties(EntryAt(d, i).0, EntryAt(d, i).1, k);
    hide DocumentAccepted, EntryAt, HEADER, COLUMNS, CsvRecord, PropertyOf, ShownText, Heading;
    hide Lines, ParseFile, Exported;
    assert ([HEADER] + Exported(d))[1 + i] == Exported(d)[i];
  }

  lemma EntryIsExported(d: Document, i: nat)
    requires i < |d.ranked| + |d.incomparable| + |d.notCalculated|
    ensures i < |Exported(d)| && Exported(d)[i] == CsvRecord(EntryAt(d, i).0, EntryAt(d, i).1)
  {
    hide CsvRecord;
  }

  predicate Faithful(section: Section, row: Row) { Conforms(section, row) && NoFormula(section, row) }

  predicate AllFaithful(d: Document) {
    && (forall r | r in d.ranked :: Faithful(Ranked, r))
    && (forall r | r in d.incomparable :: Faithful(Incomparable, r))
    && (forall r | r in d.notCalculated :: Faithful(NotCalculated, r))
  }

  predicate LiteralsNonempty(rows: seq<Row>) { forall r | r in rows :: LiteralNonempty(r) }

  /**
   * The CSV and the JSON of an accepted document carry the same values exactly when every row carries
   * only what its section shows and no text of a row starts a formula.
   */
  lemma CsvAgreesWithJson(d: Document)
    requires DocumentAccepted(d) && AllWritable(d.notCalculated)
    requires LiteralsNonempty(d.ranked) && LiteralsNonempty(d.incomparable) && LiteralsNonempty(d.notCalculated)
    ensures Exported(d) == Sent(d) <==> AllFaithful(d)
  {
    hide Faithful, CsvRecord, JsonRecord;
    SchemaMakesWritable(d);
    SectionAgrees(Ranked, d.ranked);
    SectionAgrees(Incomparable, d.incomparable);
    SectionAgrees(NotCalculated, d.notCalculated);
    SplitAgain(CsvRecords(Ranked, d.ranked), CsvRecords(Incomparable, d.incomparable),
               CsvRecords(NotCalculated, d.notCalculated), JsonRecords(Ranked, d.ranked),
               JsonRecords(Incomparable, d.incomparable), JsonRecords(NotCalculated, d.notCalculated));
  }

  lemma SectionAgrees(section: Section, rows: seq<Row>)
    requires AllWritable(rows) && LiteralsNonempty(rows)
    ensures CsvRecords(section, rows) == JsonRecords(section, rows) <==> forall r | r in rows :: Faithful(section, r)
  {
    hide CsvRecord, JsonRecord, Conforms, NoFormula, Writable, LiteralNonempty;
    var shown, sent := CsvRecords(section, rows), JsonRecords(section, rows);
    forall i | 0 <= i < |rows| ensures shown[i] == sent[i] <==> Faithful(section, rows[i]) {
      RecordsAgreeIff(section, rows[i]);
    }
    assert forall i | 0 <= i < |rows| :: rows[i] in rows;
    if shown == sent {
      forall r | r in rows ensures Faithful(section, r) {
        var i :| 0 <= i < |rows| && rows[i] == r;
        assert shown[i] == sent[i];
      }
    }
  }

  lemma SplitAgain<T>(a: seq<T>, b: seq<T>, c: seq<T>, a': seq<T>, b': seq<T>, c': seq<T>)
    requires |a| == |a'| && |b| == |b'| && |c| == |c'|
    ensures a + b + c == a' + b' + c' <==> a == a' && b == b' && c == c'
  {
    if a + b + c == a' + b' + c' {
      assert a == (a + b + c)[..|a|] == a';
      assert b == (a + b + c)[|a|..|a| + |b|] == (a' + b' + c')[|a|..|a| + |b|] == b';
      assert c == (a + b + c)[|a| + |b|..] == (a' + b' + c')[|a| + |b|..] == c';
    }
  }

  /** No text field reads back as a formula, and exactly the fields that are no formula read back as they are. */
  lemma ExportIsSafe(section: Section, row: Row, k: nat)
    requires k < 22 && !PropertyOf(section, row, COLUMNS[k]).Numeric?
    ensures !IsFormula(CsvRecord(section, row)[k])
    ensures CsvRecord(section, row)[k] != "" ==> CsvRecord(section, row)[k][0] !in "=+-@\t\r"
    ensures CsvRecord(section, row)[k] == SentText(PropertyOf(section, row, COLUMNS[k]))
       <==> !IsFormula(SentText(PropertyOf(section, row, COLUMNS[k])))
  {
    hide CsvRecord, PropertyOf, SentText;
    RecordHoldsProperties(section, row, k);
    TextCellIsSafe(SentText(PropertyOf(section, row, COLUMNS[k])), "");
  }

  /** Splitting the signals field on commas gives the signal names back, unless there are none. */
  lemma SignalsRecoverable(section: Section, row: Row)
    requires row.calculated.Some?
    ensures var signals := row.calculated.value.signals; var field := CsvRecord(section, row)[20];
      if signals == [] then field == "" else Split(field, ',') == SignalNames(signals)
  {
    hide CsvRecord, SectionName, SignalName;
    var signals := row.calculated.value.signals;
    assert COLUMNS[20] == InputsChangedSignals;
    RecordHoldsProperties(section, row, 20);
    assert PropertyOf(section, row, InputsChangedSignals) == Names(signals);
    assert SentText(Names(signals)) == SignalText(signals);
    SignalTextIsPlain(signals);
    if signals != [] { SplitJoin(SignalNames(signals), ','); }
  }

  lemma SignalTextIsPlain(signals: seq<Signal>)
    ensures Neutralise(SignalText(signals)) == SignalText(signals)
  {
    hide SignalName;
    if signals != [] {
      NameStartsWithLetter(signals[0]);
      assert SignalText(signals)[0] == SignalName(signals[0])[0];
    }
  }

  lemma NameStartsWithLetter(s: Signal)
    ensures 'a' <= SignalName(s)[0] <= 'z'
  {
  }
}
