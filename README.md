# Predictive Maintenance Dashboard — record-level model

This project models the record-level logic of a single-page predictive-maintenance
dashboard (`app2.py`). The dashboard has two working tabs:

- **Prediction.** The user picks a machine type (Low, Medium, High) and five operating
  parameters. The machine type is encoded as an ordinal (Low 0, Medium 1, High 2). The six
  features go to a pre-trained classifier in a fixed order. The answer is shown as `Failure`
  (class 1) or `No Failure`, and the inputs and the answer are appended to a session-scoped
  prediction history.
- **Data Exploration.** The maintenance dataset is reduced to the rows of the selected machine
  type whose five sensor readings lie in the five inclusive slider ranges. From the filtered
  rows the tab derives:
  - the number of failure records per failure type;
  - the distinct failure types in order of first appearance, with one group of rows per type
    (the data behind the box plots);
  - a table of per-failure-type means with the `No Failure` row removed.

Modules:

- `Sequences` (`sequences.dfy`): the dataframe operations used, stated over sequences.
  - `Where` is selection by a boolean mask. `Selected` gives the surviving positions.
  - `Project` is column projection.
  - `Unique` is pandas `unique`: distinct values in order of first appearance.
  - `ValueCounts` is pandas `value_counts`.
- `StringOrder` (`string_order.dfy`): Python's code-point order on strings, and the sort that
  `groupby` applies to its keys.
- `MaintenanceData` (`maintenance_data.dfy`): one `Observation` per dataset row, the machine
  types, the sensors and the dataset's columns.
- `Exploration` (`exploration.dfy`): the filter, the failure counts, the grouping by failure
  type and the mean-feature table's columns and keys. These are pure functions with lemmas.
  The dataset is a value, so filtering cannot change it.
- `Prediction` (`prediction.dfy`): the type ordinal, the feature vector with a decoder that
  inverts it, and the verdict label. The history is a `Session` class. Its `predictionHistory`
  field is a `seq` that the methods extend at the end.

The classifier is a parameter `classify: seq<real> -> int`. The code tests only `== 1`, so
any other answer is logged as `No Failure` and no 0/1 precondition is imposed. Sensor values
are `real` (temperatures, torque) or `int` (rotational speed, tool wear). The filter only
compares them, so no floating-point arithmetic is involved.

Full-range criteria do not return the whole dataset: the machine-type test
`Type == reverse_type_mapping[machine_type]` always applies, and the slider defaults equal the
slider domains, so a row with a reading outside a domain is dropped even at full ranges. At full
ranges, and when every reading lies inside the slider domains, the filter returns the rows of
the selected type (`DefaultCriteriaSelectType`). It returns the whole dataset only when, in
addition, every row has that type (`DefaultCriteriaWholeDataset`).

## Model

| member | source | states |
|---|---|---|
| `Sequences.Where` | app2.py:136-141 | a boolean-mask selection keeps only rows the mask accepts, keeps every accepted row of the input, and never grows |
| `Sequences.Selected` | app2.py:136 | the index labels that survive the mask are in range, strictly ascending, and a label survives iff the mask holds for its row |
| `Sequences.WhereAtSelected` | app2.py:136-141 | the k-th selected row is the input row at the k-th selected position, so selection preserves the input order |
| `Sequences.Unique` | app2.py:159 | `unique` lists no value twice and lists exactly the values present |
| `Sequences.UniqueFirstAppearance` | app2.py:159 | `unique` lists values in order of first appearance: before any occurrence of a later-listed value, every earlier-listed value has already occurred |
| `Sequences.ValueCounts` | app2.py:148 | `value_counts` has a key for exactly the values present, each mapped to its positive number of occurrences |
| `Sequences.ValueCountsTotal` | app2.py:148 | summed over any duplicate-free listing of its keys, `value_counts` adds up to the length of the column |
| `StringOrder.Sort` | app2.py:225 | sorting the group keys permutes them (same multiset) |
| `StringOrder.SortSorted` | app2.py:225 | sorting distinct keys lists them in strictly ascending code-point order |
| `StringOrder.Less` | app2.py:225 | Python's `str` `<`, by which groupby orders its keys: a string never sorts before itself or before the empty string, and sorts before another only if its first code point is not greater |
| `Exploration.DatasetCode` | app2.py:135 | `reverse_type_mapping` gives each machine type a code that the decoder maps back to that type (L, M, H) |
| `Exploration.DatasetCodeInjective` | app2.py:135 | distinct machine types have distinct dataset codes |
| `Exploration.FilteredData` | app2.py:136-141 | a row is in `filtered_data` iff it is in the dataset and passes all eleven conjuncts: the type code and both inclusive ends of the five ranges |
| `Exploration.Matches` | app2.py:136-141 | a row passing the eleven-conjunct mask has the type code of the selected machine type, and then every slider range is non-empty |
| `Exploration.FilteredDataKeepsOrder` | app2.py:136-141 | `filtered_data` is the dataset rows at strictly ascending positions, and a position is selected iff its row matches |
| `Exploration.DefaultCriteria` | app2.py:125-131 | the slider defaults keep the selected type and span exactly the slider domains: a row passes the default mask iff it has the selected type code and every reading lies inside its slider domain |
| `Exploration.DefaultCriteriaSelectType` | app2.py:125-141 | with the sliders at their full default ranges and all readings inside them, the filter equals the type-only selection (Medium gives the rows typed "M") |
| `Exploration.DefaultCriteriaWholeDataset` | app2.py:125-141 | with full default ranges, the filter returns the whole dataset iff every row has the selected type code |
| `Exploration.FailureRecords` | app2.py:148 | a row is a failure record iff it is a filtered row with `Target == 1` and a failure type other than `No Failure` |
| `Exploration.FailureCounts` | app2.py:148 | the bar chart's counts never have the key `No Failure`, and every count is positive |
| `Exploration.FailureCountsKeys` | app2.py:148 | a failure type is a key iff some row with `Target == 1` and that type (not `No Failure`) exists |
| `Exploration.FailureCountsValue` | app2.py:148 | each count is the number of rows that are failure records of that type |
| `Exploration.FailureCountsTotal` | app2.py:148 | summed over any duplicate-free listing of the keys, the counts equal the number of failure records |
| `Exploration.FailureTypes` | app2.py:159 | the `Failure Type` column has one cell per row, in row order |
| `Exploration.FailureTypeList` | app2.py:159 | `failure_types` has no duplicates and holds exactly the failure types present in the filtered rows |
| `Exploration.FailureTypeListFirstAppearance` | app2.py:203 | `failure_types` follows first appearance in the filtered rows |
| `Exploration.GroupOf` | app2.py:206 | the group of a failure type holds exactly the filtered rows of that type |
| `Exploration.Groups` | app2.py:203-206 | one group per entry of `failure_types`, and group i holds exactly the filtered rows of the i-th type |
| `Exploration.GroupsPartition` | app2.py:203-206 | the per-type groups are indexed like `failure_types`, are pairwise disjoint, cover every row, and their sizes sum to the number of filtered rows |
| `Exploration.BoxplotData` | app2.py:164 | one box per failure type, and box i holds exactly the sensor readings of the filtered rows of the i-th type |
| `Exploration.BoxplotDataCoversRows` | app2.py:164 | box i holds the sensor values of group i in row order, and the boxes together hold one value per filtered row |
| `Exploration.NumericColumns` | app2.py:222 | `select_dtypes(include=[np.number])` keeps exactly the numeric columns |
| `Exploration.DropColumns` | app2.py:222 | dropping columns succeeds iff every label is a column, and then keeps exactly the other columns |
| `Exploration.MeanFeatureTable` | app2.py:222-228 | the mean-feature table has no `Target` or `UDI` column and no `No Failure` row |
| `Exploration.MeanFeatureTableColumns` | app2.py:222-225 | the table's columns are `Failure Type` followed by the five sensor columns in dataset order |
| `Exploration.MeanFeatureTableKeys` | app2.py:225-228 | the table's row keys are exactly the failure types present other than `No Failure`, strictly ascending (groupby's sort) |
| `Exploration.EmptySelectionAggregates` | app2.py:148-228 | an empty filter result gives no counts, no failure types, no groups and no mean-table rows |
| `Prediction.TypeOrdinal` | app2.py:38 | `type_mapping` gives each machine type an ordinal below 3 that decodes back to that type |
| `Prediction.TypeOrdinalIsPosition` | app2.py:38 | each selector choice's ordinal is its position among the mapping's keys (Low 0, Medium 1, High 2), so the mapping is injective |
| `Prediction.FeatureVector` | app2.py:68-70 | the classifier input has six features and decodes back to the request: ordinal, air temperature, process temperature, rotational speed, torque, tool wear |
| `Prediction.FeatureVectorInjective` | app2.py:68-70 | different requests reach the classifier as different feature vectors |
| `Prediction.PredictionLabel` | app2.py:71-76 | the verdict is `Failure` iff the classifier returned 1, and `No Failure` otherwise |
| `Prediction.Session.constructor` | app2.py:41 | a new session has no history yet |
| `Prediction.Session.InitHistory` | app2.py:41-42 | after initialisation a history exists; it is empty if the session had none, otherwise unchanged |
| `Prediction.Session.Append` | app2.py:87 | the history grows by exactly the new entry at its end; earlier entries are unchanged |
| `Prediction.Session.Predict` | app2.py:67-87 | the verdict is `Failure` iff the classifier answers 1 on the feature vector, and exactly one entry (the request and verdict) is appended |
| `Prediction.Session.RunPredictionTab` | app2.py:41-87 | one run of the tab keeps or creates the history and appends one entry iff the button was pressed |

## Left out

- Streamlit UI is not modelled: page setup, tabs, sliders, buttons, markdown, `st.write` / `st.json`, the data preview (`head()`) and the footer. These are rendering and event handling.
- The classifier loaded with `joblib.load` is not modelled. It is a foreign pre-trained model and appears only as the `classify` parameter.
- Reading the CSV file and opening or cropping images are not modelled. They are file I/O, and the dataset is a parameter.
- The correlation matrix (lines 152-156) is not modelled. It is floating-point statistics.
- The numeric values of the group means are not modelled, because they are floating-point arithmetic.
- The box plots' quartiles and styling are not modelled. They are plotting-library behaviour.
- The commented-out predict block (lines 61-65) is dead code.
- `Exploration.FailureCounts`: a map from failure type to count, without the order of the resulting Series. `value_counts` sorts by descending count and leaves the order of ties unspecified, so only the key-to-count pairs are stated.
- `Exploration.MeanFeatureTable`: states the table's columns and row keys, not the mean values.
- The dataset's text product-identifier column is not in the schema. It is not numeric, so `select_dtypes` drops it and it cannot reach any modelled result.
- Missing cells (NaN) in any column are not modelled; every cell holds a present value. For the `Failure Type` column this matters: `unique` would list NaN, `value_counts` and `groupby` drop it, and `== ft` never matches it, so such a row would lie in no group.
- `Prediction.HistoryEntry` stores the machine type as `MachineType`, not as its display string. The display string is a one-to-one rendering of it.
- `Prediction.Session.Predict` and `Prediction.Session.Append` require that a history exists. The script always runs the initialisation (lines 41-42) before the button handler, and `Prediction.Session.RunPredictionTab` models both together.
