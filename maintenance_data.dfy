/**
 * The schema of the historical maintenance dataset: one Observation per
 * row, the machine types the dashboard offers, and the dataset's columns.
 */
module MaintenanceData {

  /** The machine types offered by the machine-type selectors. */
  datatype MachineType = Low | Medium | High

  /** One of the five numeric sensor columns. */
  datatype Sensor = AirTemperature | ProcessTemperature | RotationalSpeed | Torque | ToolWear

  /**
   * One row of the dataset. `machineType` holds the dataset's own one-letter
   * code ("L", "M" or "H"); `failureType` is a label such as "No Failure".
   */
  datatype Observation = Observation(
    machineType: string,
    airTemperature: real,      // Air temperature [K]
    processTemperature: real,  // Process temperature [K]
    rotationalSpeed: int,      // Rotational speed [rpm]
    torque: real,              // Torque [Nm]
    toolWear: int,             // Tool wear [min]
    target: int,
    failureType: string,
    udi: int)

  /** The failure-type label of the rows where nothing failed. */
  const NO_FAILURE: string := "No Failure"

  /**
   * The dataset's columns (its schema). Only the relative order of the five
   * sensor columns reaches a modelled result.
   */
  datatype Column = Type | Reading(sensor: Sensor) | Target | FailureType | Udi

  const DATASET_COLUMNS: seq<Column> := [
    Type,
    Reading(AirTemperature), Reading(ProcessTemperature), Reading(RotationalSpeed),
    Reading(Torque), Reading(ToolWear),
    Target, FailureType, Udi
  ]

  /** The columns pandas stores with a numeric dtype; Type and Failure Type hold text. */
  predicate IsNumeric(c: Column) {
    !c.Type? && !c.FailureType?
  }

  /** The failure-type cell of a row. */
  function FailureTypeOf(o: Observation): string {
    o.failureType
  }

  /** The value of a sensor column in a row, as a number. */
  function SensorValue(s: Sensor, o: Observation): real {
    match s
    case AirTemperature => o.airTemperature
    case ProcessTemperature => o.processTemperature
    case RotationalSpeed => o.rotationalSpeed as real
    case Torque => o.torque
    case ToolWear => o.toolWear as real
  }
}
