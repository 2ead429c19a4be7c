/** The shapes of the dashboard's data (the interfaces of the dashboard type
    declarations) and its configuration tables: field labels, default
    thresholds and poll-interval choices. */
module DashboardTypes {
  import opened Wrappers
  import opened JsValues

  /** One entry of `GET /sensors`. `status` is compared with `'up'` as a string. */
  datatype SensorInfo = SensorInfo(sensorId: string, status: string, location: string, lastSeen: Option<string>)

  /** One probe of `GET /sensor/{id}/details`: a named metric reading. */
  datatype Probe = Probe(
    name: string,
    value: Json,
    timestamp: string,
    breached: bool,
    thresholdMin: Option<Num>,
    thresholdMax: Option<Num>)

  /** A threshold range as edited in the configuration panel. The fields are
      declared as numbers but checked with `typeof` before use, so they are
      kept as general values. */
  datatype Range = Range(min: Json, max: Json)

  /** The per-location summary shown on a location card. */
  datatype LocationInfo = LocationInfo(name: string, count: nat, up: nat, lastSeen: Option<string>)

  /** One card of the live view. */
  datatype DataRow = DataRow(
    key: string,
    name: string,
    data: string,
    num: Option<Num>,
    breached: bool,
    min: Option<Num>,
    max: Option<Num>)

  /** One choice of the poll-interval menu, in milliseconds. */
  datatype PollOption = PollOption(caption: string, value: int)
}

/** The dashboard configuration tables (`constants/dashboard/index.ts`). */
module DashboardConstants {
  import opened JsValues
  import opened DashboardTypes

  /** `FIELD_LABELS`: display label per probe name, in declaration order. */
  function FieldLabels(): (r: Entries<string>)
    ensures |r| == 11 && DistinctKeys(r)
    ensures forall i :: 0 <= i < |r| ==> "readings_" <= r[i].0
  {
    [ ("readings_humidity_dht", "Humidity (%RH)"),
      ("readings_pzem_current", "Current (A)"),
      ("readings_pzem_energy", "Energy (kWh)"),
      ("readings_pzem_frequency", "Frequency (Hz)"),
      ("readings_pzem_power", "Power (W)"),
      ("readings_pzem_power_factor", "Power Factor"),
      ("readings_pzem_voltage", "Voltage (V)"),
      ("readings_temperature_dht", "Temperature (\U{00B0}C)"),
      ("readings_voltage_ads", "Voltage ADS (V)"),
      ("readings_door", "Door"),
      ("readings_temperature_ds18b20", "Temperature (\U{00B0}C)") ]
  }

  /** The all-zero range `{min: 0, max: 0}`. */
  const ZeroRange := Range(Number(IntNum(0)), Number(IntNum(0)))

  /** `DEFAULT_THRESHOLDS`: derived from the keys of `FIELD_LABELS`, every
      range all-zero. */
  function DefaultThresholds(): (r: Entries<Range>)
    ensures |r| == |FieldLabels()|
    ensures forall i :: 0 <= i < |r| ==> r[i] == (FieldLabels()[i].0, ZeroRange)
    ensures DistinctKeys(r)
  {
    var labels := FieldLabels();
    seq(|labels|, i requires 0 <= i < |labels| => (labels[i].0, ZeroRange))
  }

  /** `POLL_OPTIONS`: the interval menu, positive and strictly increasing,
      starting at ten seconds. */
  function PollOptions(): (r: seq<PollOption>)
    ensures |r| == 5 && r[0].value == 10000
    ensures forall i :: 0 <= i < |r| ==> r[i].value > 0
    ensures forall i, j :: 0 <= i < j < |r| ==> r[i].value < r[j].value
  {
    [ PollOption("10 sec", 10000),
      PollOption("30 sec", 30000),
      PollOption("45 sec", 45000),
      PollOption("1 min", 60000),
      PollOption("5 min", 300000) ]
  }

  /** The interval used when none was stored: `POLL_OPTIONS[0].value`. */
  function DefaultPollInterval(): int
  {
    PollOptions()[0].value
  }
}

/** The older shared configuration file `constants.ts`. */
module LegacyConstants {
  import opened JsValues

  /** `Range` of `constants.ts`: integer bounds. */
  datatype IntRange = IntRange(min: int, max: int)

  /** `FIELD_LABELS` of `constants.ts` (nine probes, no door or DS18B20 probe). */
  function FieldLabels(): (r: Entries<string>)
    ensures |r| == 9 && DistinctKeys(r)
    ensures forall i :: 0 <= i < |r| ==> "readings_" <= r[i].0
  {
    [ ("readings_humidity_dht", "Humidity (%RH)"),
      ("readings_pzem_current", "Current (A)"),
      ("readings_pzem_energy", "Energy (kWh)"),
      ("readings_pzem_frequency", "Frequency (Hz)"),
      ("readings_pzem_power", "Power (W)"),
      ("readings_pzem_power_factor", "Power Factor"),
      ("readings_pzem_voltage", "Voltage (V)"),
      ("readings_temperature_dht", "Temperature (\U{00B0}C)"),
      ("readings_voltage_ads", "Voltage ADS (V)") ]
  }

  /** `DEFAULT_THRESHOLDS` of `constants.ts`: one range per labelled probe,
      each with `min <= max`. */
  function DefaultThresholds(): (r: Entries<IntRange>)
    ensures |r| == |FieldLabels()|
    ensures forall i :: 0 <= i < |r| ==> r[i].0 == FieldLabels()[i].0
    ensures forall i :: 0 <= i < |r| ==> r[i].1.min <= r[i].1.max
  {
    [ ("readings_humidity_dht", IntRange(0, 60)),
      ("readings_pzem_current", IntRange(0, 10)),
      ("readings_pzem_energy", IntRange(0, 100)),
      ("readings_pzem_frequency", IntRange(0, 60)),
      ("readings_pzem_power", IntRange(0, 500)),
      ("readings_pzem_power_factor", IntRange(0, 1)),
      ("readings_pzem_voltage", IntRange(0, 240)),
      ("readings_temperature_dht", IntRange(-20, 30)),
      ("readings_voltage_ads", IntRange(0, 5)) ]
  }

  /** `POLL_OPTIONS` of `constants.ts`: positive, strictly increasing, first 10000. */
  function PollOptionValues(): (r: seq<int>)
    ensures |r| == 5 && r[0] == 10000
    ensures forall i :: 0 <= i < |r| ==> r[i] > 0
    ensures forall i, j :: 0 <= i < j < |r| ==> r[i] < r[j]
  {
    [10000, 30000, 45000, 60000, 300000]
  }

  /** `FRIENDLY`: the column headings of the older report export. */
  function Friendly(): (r: Entries<string>)
    ensures |r| == 15 && DistinctKeys(r)
    ensures r[0] == ("_time", "Timestamp") && r[14] == ("timestamp", "Device Timestamp")
  {
    [ ("_time", "Timestamp"),
      ("location", "Location"),
      ("sensor_id", "SensorID"),
      ("host", "Host"),
      ("readings_humidity_dht", "Humidity"),
      ("readings_temperature_dht", "Temperature"),
      ("readings_pzem_current", "Current (A)"),
      ("readings_pzem_voltage", "Voltage (V)"),
      ("readings_pzem_power", "Power (W)"),
      ("readings_pzem_energy", "Energy (kWh)"),
      ("readings_pzem_frequency", "Frequency (Hz)"),
      ("readings_pzem_power_factor", "Power Factor"),
      ("readings_voltage_ads", "Voltage ADS (V)"),
      ("status_uptime_sec", "Uptime (s)"),
      ("timestamp", "Device Timestamp") ]
  }
}
