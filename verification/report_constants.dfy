/** The report screen's configuration tables (`constants/report/index.ts`). */
module ReportConstants {
  import opened Text
  import opened JsValues

  /** `FIELD_LABELS` of the report: column headings per field, in declaration order. */
  function FieldLabels(): (r: Entries<string>)
    ensures |r| == 15 && DistinctKeys(r)
    ensures r[0] == ("timestamp", "Timestamp") && r[1].0 == "location" && r[2].0 == "sensor_id"
  {
    [ ("timestamp", "Timestamp"),
      ("location", "Location"),
      ("sensor_id", "Sensor ID"),
      ("readings_humidity_dht", "Humidity (%)"),
      ("readings_temperature_dht", "Temperature (\U{00B0}C)"),
      ("readings_pzem_current", "Current (A)"),
      ("readings_pzem_voltage", "Voltage (V)"),
      ("readings_pzem_power", "Power (W)"),
      ("readings_pzem_energy", "Energy (kWh)"),
      ("readings_pzem_frequency", "Frequency (Hz)"),
      ("readings_pzem_power_factor", "Power Factor"),
      ("readings_voltage_ads", "Voltage ADS (V)"),
      ("readings_temperature_ds18b20", "Temperature (\U{00B0}C)"),
      ("readings_door", "Door"),
      ("status_ip", "IP") ]
  }

  /** A time-range option `<unit>:<n>`. */
  function OptionText(unit: string, n: nat): string
  {
    unit + ":" + NatToString(n)
  }

  /** The unit and amount behind each time-range option. */
  function TimeRangeParts(): (r: seq<(string, nat)>)
    ensures |r| == 7
    ensures forall i :: 0 <= i < |r| ==> (r[i].0 == "hours" || r[i].0 == "days") && r[i].1 > 0
  {
    [("hours", 1), ("hours", 2), ("hours", 5), ("days", 1), ("days", 7), ("days", 15), ("days", 30)]
  }

  /** `TIME_RANGE_OPTIONS`: each option is `<unit>:<n>` with the unit hours or
      days and `n` positive, and no option appears twice. */
  function TimeRangeOptions(): (r: seq<string>)
    ensures |r| == |TimeRangeParts()|
    ensures forall i :: 0 <= i < |r| ==> r[i] == OptionText(TimeRangeParts()[i].0, TimeRangeParts()[i].1)
    ensures forall i, j :: 0 <= i < j < |r| ==> r[i] != r[j]
  {
    assert NatToString(15) == "15" && NatToString(30) == "30";
    ["hours:1", "hours:2", "hours:5", "days:1", "days:7", "days:15", "days:30"]
  }

  /** `AGGREGATION_WINDOW_OPTIONS`, without duplicates. */
  function AggregationWindowOptions(): (r: seq<string>)
    ensures |r| == 6
    ensures forall i, j :: 0 <= i < j < |r| ==> r[i] != r[j]
  {
    ["1m", "5m", "10m", "30m", "1h", "1d"]
  }

  /** `UNDESIRED_FIELDS`: bookkeeping columns never shown. */
  function UndesiredFields(): set<string>
  {
    {"_start", "_stop", "_measurement", "topic"}
  }

  /** A report time range: the single `{unit: amount}` entry the screen keeps. */
  datatype TimeRange = TimeRange(unit: string, amount: Num)

  /** `DEFAULT_TIME_RANGE`, `{hours: 1}`. */
  function DefaultTimeRange(): TimeRange
  {
    TimeRange("hours", IntNum(1))
  }

  /** `DEFAULT_AGG_WINDOW`, one of the menu's choices. */
  function DefaultAggWindow(): (w: string)
    ensures w in AggregationWindowOptions()
  {
    "5m"
  }
}
