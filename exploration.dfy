/**
 * The Data Exploration tab's record-level queries: the machine-type and
 * sensor-range filter, the count of failures per failure type, the grouping
 * of the filtered rows by failure type that feeds the box plots, and the
 * keys and columns of the mean-feature table.
 */
module Exploration {
  import opened Wrappers
  import opened Sequences
  import opened StringOrder
  import opened MaintenanceData

  // ---------------------------------------------------------------------
  // Machine-type codes
  // ---------------------------------------------------------------------

  /** The one-letter code the dataset's Type column uses for a machine type. */
  function DatasetCode(m: MachineType): (code: string)
    ensures MachineTypeOfCode(code) == Some(m)
  {
    match m
    case Low => "L"
    case Medium => "M"
    case High => "H"
  }

  /** The machine type a dataset code stands for, if any. */
  function MachineTypeOfCode(code: string): (m: Option<MachineType>)
    ensures m.Some? <==> code in {"L", "M", "H"}
  {
    if code == "L" then Some(Low)
    else if code == "M" then Some(Medium)
    else if code == "H" then Some(High)
    else None
  }

  /** Distinct machine types have distinct dataset codes. */
  lemma DatasetCodeInjective(a: MachineType, b: MachineType)
    ensures DatasetCode(a) == DatasetCode(b) ==> a == b
  {
    var ca, cb := DatasetCode(a), DatasetCode(b);
    assert MachineTypeOfCode(ca) == Some(a) && MachineTypeOfCode(cb) == Some(b);
  }

  // ---------------------------------------------------------------------
  // The filter
  // ---------------------------------------------------------------------

  /** The selected machine type and the five inclusive (low, high) slider ranges. */
  datatype FilterCriteria = FilterCriteria(
    machineType: MachineType,
    airTemperature: (real, real),
    processTemperature: (real, real),
    rotationalSpeed: (int, int),
    torque: (real, real),
    toolWear: (int, int))

  /** The eleven conjuncts of the boolean mask: the type code and both ends of every range. */
  predicate Matches(c: FilterCriteria, o: Observation)
    ensures Matches(c, o) ==> MachineTypeOfCode(o.machineType) == Some(c.machineType)
    ensures Matches(c, o) ==>
      && c.airTemperature.0 <= c.airTemperature.1 && c.processTemperature.0 <= c.processTemperature.1
      && c.rotationalSpeed.0 <= c.rotationalSpeed.1 && c.torque.0 <= c.torque.1
      && c.toolWear.0 <= c.toolWear.1
  {
    && o.machineType == DatasetCode(c.machineType)
    && o.airTemperature >= c.airTemperature.0 && o.airTemperature <= c.airTemperature.1
    && o.processTemperature >= c.processTemperature.0 && o.processTemperature <= c.processTemperature.1
    && o.torque >= c.torque.0 && o.torque <= c.torque.1
    && o.toolWear >= c.toolWear.0 && o.toolWear <= c.toolWear.1
    && o.rotationalSpeed >= c.rotationalSpeed.0 && o.rotationalSpeed <= c.rotationalSpeed.1
  }

  /** The mask of the criteria, as a test on one row. */
  function Selects(c: FilterCriteria): Observation -> bool {
    o => Matches(c, o)
  }

  /** The rows of the dataset that pass every test of the criteria. */
  function FilteredData(dataset: seq<Observation>, c: FilterCriteria): (rows: seq<Observation>)
    ensures |rows| <= |dataset|
    ensures forall k :: 0 <= k < |rows| ==> Matches(c, rows[k])
    ensures forall o :: o in rows <==> o in dataset && Matches(c, o)
  {
    Where(dataset, Selects(c))
  }

  /**
   * The filtered rows are the dataset's rows at the selected positions, in
   * the dataset's order: a position is selected exactly when its row matches.
   */
  lemma FilteredDataKeepsOrder(dataset: seq<Observation>, c: FilterCriteria)
    ensures var rows, p := FilteredData(dataset, c), Selected(dataset, Selects(c));
      && |rows| == |p|
      && (forall k :: 0 <= k < |p| ==> p[k] < |dataset| && rows[k] == dataset[p[k]])
      && (forall k, l :: 0 <= k < l < |p| ==> p[k] < p[l])
      && (forall i :: 0 <= i < |dataset| ==> (i in p <==> Matches(c, dataset[i])))
  {
    WhereAtSelected(dataset, Selects(c));
  }

  /** The criteria the exploration sliders start from: each range spans its slider's domain. */
  function DefaultCriteria(m: MachineType): (c: FilterCriteria)
    ensures c.machineType == m
    ensures forall o :: Matches(c, o) <==> o.machineType == DatasetCode(m) && WithinSliderDomains(o)
  {
    FilterCriteria(m, (290.0, 310.0), (300.0, 320.0), (1000, 3000), (3.5, 77.0), (0, 250))
  }

  /** A row whose readings all lie inside the slider domains. */
  predicate WithinSliderDomains(o: Observation) {
    && 290.0 <= o.airTemperature <= 310.0
    && 300.0 <= o.processTemperature <= 320.0
    && 1000 <= o.rotationalSpeed <= 3000
    && 3.5 <= o.torque <= 77.0
    && 0 <= o.toolWear <= 250
  }

  /** The test "the row's Type column holds this code". */
  function OfType(code: string): Observation -> bool {
    (o: Observation) => o.machineType == code
  }

  /**
   * With the sliders at their full ranges and every reading inside them, the
   * filter reduces to the machine-type test: Medium yields the rows typed "M".
   */
  lemma DefaultCriteriaSelectType(dataset: seq<Observation>, m: MachineType)
    requires forall i :: 0 <= i < |dataset| ==> WithinSliderDomains(dataset[i])
    ensures FilteredData(dataset, DefaultCriteria(m)) == Where(dataset, OfType(DatasetCode(m)))
  {
    WhereCongruent(dataset, Selects(DefaultCriteria(m)), OfType(DatasetCode(m)));
  }

  /**
   * Even at the full ranges the filter returns the whole dataset only when
   * every row has the selected type.
   */
  lemma DefaultCriteriaWholeDataset(dataset: seq<Observation>, m: MachineType)
    requires forall i :: 0 <= i < |dataset| ==> WithinSliderDomains(dataset[i])
    ensures FilteredData(dataset, DefaultCriteria(m)) == dataset
        <==> forall i :: 0 <= i < |dataset| ==> dataset[i].machineType == DatasetCode(m)
  {
    var rows := FilteredData(dataset, DefaultCriteria(m));
    if forall i :: 0 <= i < |dataset| ==> dataset[i].machineType == DatasetCode(m) {
      WhereAll(dataset, Selects(DefaultCriteria(m)));
    }
    if rows == dataset {
      forall i | 0 <= i < |dataset| ensures dataset[i].machineType == DatasetCode(m) {
        assert Matches(DefaultCriteria(m), rows[i]);
      }
    }
  }

  // ---------------------------------------------------------------------
  // Failures per failure type
  // ---------------------------------------------------------------------

  /** A row recording an actual failure: Target is 1 and the label is not "No Failure". */
  predicate IsFailureRecord(o: Observation) {
    o.target == 1 && o.failureType != NO_FAILURE
  }

  /** The rows that record an actual failure, in order. */
  function FailureRecords(rows: seq<Observation>): (failures: seq<Observation>)
    ensures forall o :: o in failures <==> o in rows && IsFailureRecord(o)
  {
    Where(rows, IsFailureRecord)
  }

  /** The Failure Type column of some rows, in order. */
  function FailureTypes(rows: seq<Observation>): (col: seq<string>)
    ensures |col| == |rows|
    ensures forall i :: 0 <= i < |rows| ==> col[i] == rows[i].failureType
  {
    Project(rows, FailureTypeOf)
  }

  /** The number of failure records per failure type (the bar chart's data). */
  function FailureCounts(rows: seq<Observation>): (counts: map<string, nat>)
    ensures NO_FAILURE !in counts
    ensures forall f :: f in counts ==> counts[f] > 0
  {
    ValueCounts(FailureTypes(FailureRecords(rows)))
  }

  /** The test "the row is a failure record of type f". */
  function FailureOfType(f: string): Observation -> bool {
    (o: Observation) => IsFailureRecord(o) && o.failureType == f
  }

  /** A failure type is a key exactly when some failure record carries it. */
  lemma FailureCountsKeys(rows: seq<Observation>, f: string)
    ensures f in FailureCounts(rows) <==> exists o :: o in rows && IsFailureRecord(o) && o.failureType == f
  {
    var failures := FailureRecords(rows);
    var types := FailureTypes(failures);
    if f in FailureCounts(rows) {
      var i :| 0 <= i < |types| && types[i] == f;
      assert failures[i] in rows && IsFailureRecord(failures[i]);
    }
    if o :| o in rows && IsFailureRecord(o) && o.failureType == f {
      var i :| 0 <= i < |failures| && failures[i] == o;
      assert types[i] == f;
    }
  }

  /** The count of a failure type is the number of failure records that carry it. */
  lemma FailureCountsValue(rows: seq<Observation>, f: string)
    requires f in FailureCounts(rows)
    ensures FailureCounts(rows)[f] == |Where(rows, FailureOfType(f))|
  {
    var failures := FailureRecords(rows);
    WhereKeySize(failures, HasFailureType(f), FailureTypeOf, f);
    WhereWhere(rows, IsFailureRecord, HasFailureType(f), FailureOfType(f));
  }

  /**
   * The counts add up to the number of failure records: summed over any
   * duplicate-free listing of the keys, every failure record counts once.
   */
  lemma FailureCountsTotal(rows: seq<Observation>, keys: seq<string>)
    requires Distinct(keys)
    requires forall f :: f in keys <==> f in FailureCounts(rows)
    ensures SumAt(FailureCounts(rows), keys) == |FailureRecords(rows)|
  {
    ValueCountsTotal(FailureTypes(FailureRecords(rows)), keys);
  }

  // ---------------------------------------------------------------------
  // Grouping by failure type
  // ---------------------------------------------------------------------

  /** The distinct failure types of the rows, in order of first appearance. */
  function FailureTypeList(rows: seq<Observation>): (types: seq<string>)
    ensures Distinct(types)
    ensures forall f :: f in types <==> f in FailureTypes(rows)
  {
    Unique(FailureTypes(rows))
  }

  /** Some row before position i carries failure type f. */
  predicate AppearsBefore(rows: seq<Observation>, f: string, i: int) {
    exists j :: 0 <= j < i && j < |rows| && rows[j].failureType == f
  }

  /**
   * The listing follows first appearance: wherever a row carries a later
   * type of the listing, a still earlier row carries each earlier type.
   */
  lemma FailureTypeListFirstAppearance(rows: seq<Observation>)
    ensures forall k, l, i :: 0 <= k < l < |FailureTypeList(rows)| && 0 <= i < |rows| && rows[i].failureType == FailureTypeList(rows)[l] ==>
      AppearsBefore(rows, FailureTypeList(rows)[k], i)
  {
    var col, types := FailureTypes(rows), FailureTypeList(rows);
    UniqueFirstAppearance(col);
    forall k, l, i | 0 <= k < l < |types| && 0 <= i < |rows| && rows[i].failureType == types[l]
      ensures AppearsBefore(rows, types[k], i)
    {
      assert col[i] == types[l];
      assert types[k] in col[..i];
      var j :| 0 <= j < i && col[..i][j] == types[k];
      assert rows[j].failureType == types[k];
    }
  }

  /** The test "the row's Failure Type column holds f". */
  function HasFailureType(f: string): Observation -> bool {
    (o: Observation) => o.failureType == f
  }

  /** The rows of failure type f, in order. */
  function GroupOf(rows: seq<Observation>, f: string): (group: seq<Observation>)
    ensures forall o :: o in group <==> o in rows && o.failureType == f
  {
    Where(rows, HasFailureType(f))
  }

  /** One group of rows per listed failure type, in the listing's order. */
  function GroupsFor(rows: seq<Observation>, types: seq<string>): (groups: seq<seq<Observation>>)
    ensures |groups| == |types|
    ensures forall i :: 0 <= i < |types| ==> groups[i] == GroupOf(rows, types[i])
    decreases |types|
  {
    if types == [] then [] else [GroupOf(rows, types[0])] + GroupsFor(rows, types[1..])
  }

  /**
   * The groups of the filtered rows, one per failure type present: group i
   * holds exactly the rows of the i-th failure type in `FailureTypeList`.
   */
  function Groups(rows: seq<Observation>): (groups: seq<seq<Observation>>)
    ensures |groups| == |FailureTypeList(rows)|
    ensures forall i, o :: 0 <= i < |groups| ==>
      (o in groups[i] <==> o in rows && o.failureType == FailureTypeList(rows)[i])
  {
    GroupsFor(rows, FailureTypeList(rows))
  }

  lemma {:induction false} GroupsForTotal(rows: seq<Observation>, types: seq<string>)
    ensures TotalLength(GroupsFor(rows, types)) == CountSum(FailureTypes(rows), types)
    decreases |types|
  {
    if types != [] {
      GroupsForTotal(rows, types[1..]);
      WhereKeySize(rows, HasFailureType(types[0]), FailureTypeOf, types[0]);
    }
  }

  /**
   * The groups partition the rows: group i holds exactly the rows of the
   * i-th failure type, distinct groups share no row, every row lies in some
   * group, and the group sizes add up to the number of rows.
   */
  lemma GroupsPartition(rows: seq<Observation>)
    ensures var types, groups := FailureTypeList(rows), Groups(rows);
      && |groups| == |types|
      && (forall i, o :: 0 <= i < |groups| ==> (o in groups[i] <==> o in rows && o.failureType == types[i]))
      && (forall i, j, o :: 0 <= i < j < |groups| && o in groups[i] ==> o !in groups[j])
      && (forall o :: o in rows ==> exists i :: 0 <= i < |groups| && o in groups[i])
      && TotalLength(groups) == |rows|
  {
    var types, groups := FailureTypeList(rows), Groups(rows);
    forall o | o in rows ensures exists i :: 0 <= i < |groups| && o in groups[i] {
      var k :| 0 <= k < |rows| && rows[k] == o;
      assert FailureTypes(rows)[k] == o.failureType;
      assert o.failureType in types;
      var i :| 0 <= i < |types| && types[i] == o.failureType;
      assert o in groups[i];
    }
    GroupsForTotal(rows, types);
    CountSumCovers(FailureTypes(rows), types);
  }

  /** The sensor column, as an accessor on one row. */
  function ReadingOf(s: Sensor): Observation -> real {
    o => SensorValue(s, o)
  }

  /**
   * The values a box plot draws for a sensor, one box per failure type:
   * box i holds exactly the sensor readings of the rows of the i-th type.
   */
  function BoxplotData(rows: seq<Observation>, s: Sensor): (data: seq<seq<real>>)
    ensures |data| == |FailureTypeList(rows)|
    ensures forall i, x :: 0 <= i < |data| ==>
      (x in data[i] <==> exists o :: o in rows && o.failureType == FailureTypeList(rows)[i] && SensorValue(s, o) == x)
  {
    var groups := Groups(rows);
    seq(|groups|, i requires 0 <= i < |groups| => Project(groups[i], ReadingOf(s)))
  }

  /**
   * Box i shows the sensor values of the rows of the i-th failure type in
   * their order, and the boxes together show every filtered row once.
   */
  lemma BoxplotDataCoversRows(rows: seq<Observation>, s: Sensor)
    ensures var types, data := FailureTypeList(rows), BoxplotData(rows, s);
      && |data| == |types|
      && (forall i :: 0 <= i < |data| ==>
            |data[i]| == |GroupOf(rows, types[i])| &&
            forall k :: 0 <= k < |data[i]| ==> data[i][k] == SensorValue(s, GroupOf(rows, types[i])[k]))
      && TotalLength(data) == |rows|
  {
    var types, groups, data := FailureTypeList(rows), Groups(rows), BoxplotData(rows, s);
    GroupsPartition(rows);
    TotalLengthAgrees(data, groups);
  }

  // ---------------------------------------------------------------------
  // The mean-feature table
  // ---------------------------------------------------------------------

  /** The numeric columns, in the dataset's order. */
  function NumericColumns(columns: seq<Column>): (numeric: seq<Column>)
    ensures forall c :: c in numeric <==> c in columns && IsNumeric(c)
  {
    Where(columns, IsNumeric)
  }

  /** The test "the column is not among the labels". */
  function NotAmong(labels: seq<Column>): Column -> bool {
    c => c !in labels
  }

  /** Dropping columns by label: fails when a label is not a column, as pandas raises then. */
  function DropColumns(columns: seq<Column>, labels: seq<Column>): (r: Option<seq<Column>>)
    ensures r.Some? <==> forall l :: l in labels ==> l in columns
    ensures r.Some? ==> forall c :: c in r.value <==> c in columns && c !in labels
  {
    if forall l :: l in labels ==> l in columns then Some(Where(columns, NotAmong(labels))) else None
  }

  /** The test "the group key is not No Failure". */
  predicate IsNotNoFailure(f: string) {
    f != NO_FAILURE
  }

  /** The shape of the mean-feature table: its columns and its row keys, top to bottom. */
  datatype MeanFeatures = MeanFeatures(columns: seq<Column>, keys: seq<string>)

  /**
   * The table of means of the numeric columns other than Target and UDI,
   * grouped by failure type (keys sorted, the key as first column), with
   * the No Failure row dropped. The mean values themselves are not modelled.
   */
  function MeanFeatureTable(rows: seq<Observation>): (t: MeanFeatures)
    ensures Target !in t.columns && Udi !in t.columns
    ensures NO_FAILURE !in t.keys
  {
    var numeric := NumericColumns(DATASET_COLUMNS);
    assert Target in numeric && Udi in numeric;
    var values := DropColumns(numeric, [Target, Udi]);
    var groupKeys := Sort(Unique(FailureTypes(rows)));
    MeanFeatures([FailureType] + values.value, Where(groupKeys, IsNotNoFailure))
  }

  /**
   * The table's columns are the failure type followed by the five sensor
   * columns, in the dataset's order.
   */
  lemma MeanFeatureTableColumns(rows: seq<Observation>)
    ensures MeanFeatureTable(rows).columns == [FailureType] + SENSOR_COLUMNS
  {
    NumericColumnsOfDataset();
    DropTargetAndUdi();
  }

  /** The five sensor columns, in the dataset's order. */
  const SENSOR_COLUMNS: seq<Column> := [
    Reading(AirTemperature), Reading(ProcessTemperature), Reading(RotationalSpeed),
    Reading(Torque), Reading(ToolWear)
  ]

  lemma SensorColumnsKept(keep: Column -> bool)
    requires forall s :: keep(Reading(s))
    ensures Where(SENSOR_COLUMNS, keep) == SENSOR_COLUMNS
  {
    forall i | 0 <= i < |SENSOR_COLUMNS| ensures keep(SENSOR_COLUMNS[i]) {
      assert SENSOR_COLUMNS[i] == Reading(SENSOR_COLUMNS[i].sensor);
    }
    WhereAll(SENSOR_COLUMNS, keep);
  }

  lemma NumericTail()
    ensures Where([Target, FailureType, Udi], IsNumeric) == [Target, Udi]
  {
    assert Where([Udi], IsNumeric) == [Udi] by {
      WhereCons(Udi, [], IsNumeric);
    }
    assert Where([FailureType, Udi], IsNumeric) == [Udi] by {
      WhereCons(FailureType, [Udi], IsNumeric);
    }
    WhereCons(Target, [FailureType, Udi], IsNumeric);
  }

  lemma NumericSensorsAndTail()
    ensures Where(SENSOR_COLUMNS + [Target, FailureType, Udi], IsNumeric) == SENSOR_COLUMNS + [Target, Udi]
  {
    NumericTail();
    SensorColumnsKept(IsNumeric);
    WhereAppend(SENSOR_COLUMNS, [Target, FailureType, Udi], IsNumeric);
  }

  lemma NumericColumnsOfDataset()
    ensures NumericColumns(DATASET_COLUMNS) == SENSOR_COLUMNS + [Target, Udi]
  {
    var rest := SENSOR_COLUMNS + [Target, FailureType, Udi];
    NumericSensorsAndTail();
    assert DATASET_COLUMNS == [Type] + rest;
    WhereCons(Type, rest, IsNumeric);
  }

  lemma DropTargetAndUdi()
    ensures Where(SENSOR_COLUMNS + [Target, Udi], NotAmong([Target, Udi])) == SENSOR_COLUMNS
  {
    var drop := NotAmong([Target, Udi]);
    assert Where([Target, Udi], drop) == [] by {
      WhereCons(Udi, [], drop);
      WhereCons(Target, [Udi], drop);
    }
    SensorColumnsKept(drop);
    WhereAppend(SENSOR_COLUMNS, [Target, Udi], drop);
  }

  /**
   * The table's keys are the failure types present other than No Failure,
   * each once, in ascending order.
   */
  lemma MeanFeatureTableKeys(rows: seq<Observation>)
    ensures forall f :: f in MeanFeatureTable(rows).keys <==> f in FailureTypes(rows) && f != NO_FAILURE
    ensures StrictlySorted(MeanFeatureTable(rows).keys)
  {
    var unique := Unique(FailureTypes(rows));
    var groupKeys := Sort(unique);
    SortElements(unique);
    SortSorted(unique);
    WhereKeepsOrder(groupKeys, IsNotNoFailure, Less);
  }

  /** An empty selection yields empty aggregates rather than an error. */
  lemma EmptySelectionAggregates(rows: seq<Observation>)
    requires rows == []
    ensures FailureCounts(rows) == map[]
    ensures FailureTypeList(rows) == [] && Groups(rows) == []
    ensures MeanFeatureTable(rows).keys == []
  {
  }
}
