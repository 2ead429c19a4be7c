# Sensor dashboard and push backend, modelled in Dafny

This project models the logic of an IoT monitoring app and of its push backend.
The app is a React Native (Expo) client that shows sensors grouped by location,
a live view of one sensor's latest readings, threshold configuration, reports
with CSV export, and push registration. The backend is a small FastAPI service
that stores Expo push tokens and turns alert webhooks into notifications.

The model covers:

- the dashboard hooks: location summaries, live rows and meta text, the
  polling lifecycle, and saving thresholds;
- the report hooks and screen: the location and sensor pickers, time ranges,
  the query, column filtering and cell formatting, and the CSV export;
- the configuration tables;
- the earlier screens:
  - the InfluxDB line-protocol threshold writer;
  - annotated-CSV parsing;
  - reading cards and their colours;
  - the MQTT live view, with its one-client rule and message rendering;
  - uptime formatting;
- push registration: the stable device id and the permission, token and
  register flow;
- the backend: token registry, per-token fan-out, and the alert webhook.

Effects are values. HTTP answers, storage, clocks, date formatting, JSON
parsing, SHA-1 and the Expo SDK are function parameters or plain maps. Every
operation is a pure function whose result datatype lists what the JavaScript
would set or send, in order.

Files, one module each unless noted:

| file | module | models |
|---|---|---|
| wrappers.dfy | Wrappers | `Option`, `Result` |
| text.dfy | Text | `split`, `join`, `trim`, `replace`, integer rendering and parsing |
| sequences.dfy | Sequences | filter and map with their positions |
| js_values.dfy | JsValues | JS numbers, JSON values, objects as ordered entries |
| key_order.dfy | KeyOrder | the order `Object.entries` lists an object's keys in |
| dashboard_constants.dfy | DashboardTypes, DashboardConstants, LegacyConstants | `types/dashboard`, `constants/dashboard`, `constants.ts` |
| sensor_list.dfy | SensorList | `useSensorList` |
| live_rows.dfy | LiveRows | `useLiveData` rows, meta text, stored interval |
| polling.dfy | Polling | `useLiveData` effects and interval timer |
| thresholds.dfy | Thresholds | `useThresholds` |
| report_constants.dfy | ReportConstants | `constants/report` |
| report_ranges.dfy | ReportRanges | range selection and labels |
| report.dfy | Report | `useReport` |
| report_export.dfy | ReportExport | `useReportExport` CSV |
| sensor_picker.dfy | SensorPicker | `useSensorData` |
| report_screen.dfy | ReportScreen | `report_new.tsx`, `report_backup.tsx` menus |
| line_protocol.dfy | LineProtocol | `writeThreshold` and its escapes |
| legacy_csv.dfy | LegacyCsv | annotated-CSV parsing of the earlier screens |
| uptime.dfy | Uptime | `fmtUptime` |
| legacy_readings.dfy | LegacyReadings | live view, locations and saving of the InfluxDB screens |
| mqtt_live.dfy | MqttLive | MQTT live view |
| device_id.dfy | DeviceId | `pushRegistration.ts` |
| push_registry.dfy | PushRegistry | `send_push.py` |

## Model

| member | source | states |
|---|---|---|
| DashboardConstants.FieldLabels | constants/dashboard/index.ts:3-15 | eleven distinct probe names, all starting with `readings_` |
| DashboardConstants.DefaultThresholds | constants/dashboard/index.ts:17-19 | one all-zero range per labelled probe, in label order, keys distinct |
| DashboardConstants.PollOptions | constants/dashboard/index.ts:21-27 | five positive intervals, strictly increasing, the first 10000 ms |
| LegacyConstants.FieldLabels | constants.ts:10-20 | nine distinct probe names, all starting with `readings_` |
| LegacyConstants.DefaultThresholds | constants.ts:22-32 | one range per labelled probe, in the same order, each with min <= max |
| LegacyConstants.PollOptionValues | constants.ts:34-40 | five positive, strictly increasing intervals, the first 10000 |
| LegacyConstants.Friendly | constants.ts:42-58 | fifteen distinct column headings; InfluxDB's `_time` is the `Timestamp` column and the device's own `timestamp` is `Device Timestamp` |
| ReportConstants.FieldLabels | constants/report/index.ts:5-21 | fifteen distinct column headings, led by `timestamp` (`Timestamp`), `location` and `sensor_id` |
| ReportConstants.TimeRangeParts | constants/report/index.ts:23-31 | seven options, each in hours or days with a positive amount |
| ReportConstants.TimeRangeOptions | constants/report/index.ts:23-31 | each option is `<unit>:<n>` of its parts, and no option repeats |
| ReportConstants.AggregationWindowOptions | constants/report/index.ts:33-40 | six distinct window choices |
| ReportConstants.DefaultAggWindow | constants/report/index.ts:50 | the default window is one of the menu's choices |
| SensorList.IndexOfLoc | hooks/dashboard/useSensorList.ts:22-23 | the position of the summary for a location, when there is one |
| SensorList.Group | hooks/dashboard/useSensorList.ts:17-41 | one summary per location in the list, no location twice; each has its sensor count and up count; its `last_seen` is one of its sensors' stamps, the latest when all are valid dates; counts add up to the list length |
| SensorList.NextLastLatest | hooks/dashboard/useSensorList.ts:26-32 | the `last` update keeps "one of the stamps seen so far, and the latest when all are valid dates" when a new stamp arrives |
| SensorList.InvalidLastSticks | hooks/dashboard/useSensorList.ts:26-32 | a kept stamp that is an Invalid Date is never replaced, since no date is after it |
| SensorList.InvalidFirstStampKept | hooks/dashboard/useSensorList.ts:21-33 | an invalid first stamp outlives a valid later one at the same location |
| SensorList.VisitKeepsSummary | hooks/dashboard/useSensorList.ts:21-33 | one `forEach` step keeps the summary promise for the longer prefix |
| SensorList.FetchSensorList | hooks/dashboard/useSensorList.ts:11-45 | success keeps the list as received, summarises it and clears the error; failure changes only the error |
| SensorList.DownIsNatural | hooks/dashboard/useSensorList.ts:34-41 | `count - up` is never negative, and the counts add up to the number of sensors |
| SensorList.Example | hooks/dashboard/useSensorList.ts:21-41 | two sensors at A (one up) and one at B (up) give A 2/1 and B 1/1 |
| LiveRows.StripReadings | hooks/dashboard/useLiveData.ts:34 | removes the prefix `readings_` exactly when present |
| LiveRows.FallbackLabelShape | hooks/dashboard/useLiveData.ts:34 | the fallback label is the stripped name with every `_` a space |
| LiveRows.Label | hooks/dashboard/useLiveData.ts:34 | the configured non-empty label, else the fallback |
| LiveRows.FirstOpen | hooks/dashboard/useLiveData.ts:40 | the leftmost position where `\((.*)\)$` can match |
| LiveRows.UnitOf | hooks/dashboard/useLiveData.ts:40 | the text between the leftmost matching `(` and the final `)`, or empty |
| LiveRows.UnitOfParenthesised | hooks/dashboard/useLiveData.ts:40 | `name (unit)` has unit `unit` |
| LiveRows.UnitOfPlain | hooks/dashboard/useLiveData.ts:40 | a label without trailing parentheses has no unit |
| LiveRows.ToRow | hooks/dashboard/useLiveData.ts:33-53 | the row keeps the probe's name, breach flag and bounds, takes its label, and has a number exactly when the value is one |
| LiveRows.RowData | hooks/dashboard/useLiveData.ts:36-42 | a labelled number shows two decimals and the unit; anything else shows `String(value)` |
| LiveRows.Rows | hooks/dashboard/useLiveData.ts:33 | one row per probe, in order, each the row of its probe |
| LiveRows.FetchLatest | hooks/dashboard/useLiveData.ts:15-63 | no sensor does nothing; otherwise rows per probe or an error text with no rows, and busy ends false |
| LiveRows.StoredInterval | hooks/dashboard/useLiveData.ts:65-70 | a stored non-empty text is read as a number, anything else gives 10000 |
| LiveRows.IntervalRoundTrip | hooks/dashboard/useLiveData.ts:67-68 | an interval stored as `String(ms)` reads back as `ms` |
| LiveRows.IntervalDefault | hooks/dashboard/useLiveData.ts:67-68 | without a stored interval the view polls every 10 seconds |
| Polling.StepInv | hooks/dashboard/useLiveData.ts:65-82 | every event keeps the invariant: at most one live timer, the current one, fetching the view shown |
| Polling.AtMostOneTimer | hooks/dashboard/useLiveData.ts:72-82 | at most one timer is ever live |
| Polling.IdleHasNoTimer | hooks/dashboard/useLiveData.ts:73 | a closed view, or one with no interval yet, has no timer |
| Polling.TickFetchesCurrent | hooks/dashboard/useLiveData.ts:76 | a tick fetches at most once, for the view shown |
| Polling.RestartShape | hooks/dashboard/useLiveData.ts:74-76 | a (re)start clears the old timer, fetches once and installs one new timer |
| Polling.UnchangedDepsKeepTimer | hooks/dashboard/useLiveData.ts:82 | unchanged dependencies leave the timers alone and fetch nothing |
| Polling.OpenLoads | hooks/dashboard/useLiveData.ts:65-70 | opening a closed view starts the storage read |
| Polling.UnmountClears | hooks/dashboard/useLiveData.ts:77-81 | unmounting leaves no timer |
| Polling.Trace | hooks/dashboard/useLiveData.ts:65-82 | open, interval read, tick, close, late tick: the expected fetches and no timer at the end |
| Thresholds.Payload | hooks/dashboard/useThresholds.ts:14-26 | one item per range that is numeric and not all-zero |
| Thresholds.PayloadIsFilter | hooks/dashboard/useThresholds.ts:14-26 | item k comes from the k-th range worth sending, in entry order |
| Thresholds.PayloadItems | hooks/dashboard/useThresholds.ts:20-26 | every item names its probe and copies its bounds; `string_match` is null |
| Thresholds.PayloadEmpty | hooks/dashboard/useThresholds.ts:15-19 | the payload is empty exactly when no range is worth sending |
| Thresholds.SaveRemote | hooks/dashboard/useThresholds.ts:11-48 | empty payload sends nothing; otherwise one POST of the whole payload, and its failure is re-raised |
| Thresholds.DefaultSendsNothing | hooks/dashboard/useThresholds.ts:30-33 | saving the untouched defaults sends nothing |
| ReportRanges.SelectedRange | assets/report_new.tsx:81-85 | the range's unit is the text before the first `:` |
| ReportRanges.StartsWithHours | assets/report_new.tsx:100-104 | an option starts with `hours` exactly when its unit does |
| ReportRanges.LabelsAgree | hooks/report/useReport.ts:37-40 | the menu label of `<u>:<n>` equals the label of the range it selects |
| ReportRanges.MenuLabelsAgree | assets/report_new.tsx:100-104 | for every menu option, the two labels agree |
| ReportRanges.SelectedRangeOfOption | assets/report_new.tsx:81-85 | selecting `<u>:<n>` gives exactly `{u: n}` |
| ReportRanges.DefaultIsFirstOption | hooks/report/useReport.ts:12 | the default range is what the first option selects, labelled `Last 1 hr` |
| ReportScreen.OpenMenu | assets/report_new.tsx:127-130 | pressing a field opens its own menu only |
| ReportScreen.CloseMenu | assets/report_new.tsx:151-176 | cancelling closes that menu only |
| ReportScreen.Select | assets/report_new.tsx:71-90 | each selection sets its one value and closes its menu; a location choice goes through `ChooseLocation`, so re-choosing the current location keeps the sensor |
| ReportScreen.SelectClosesOnlyItsMenu | assets/report_new.tsx:71-90 | other open menus stay open |
| ReportScreen.RangeSelectReplaces | assets/report_new.tsx:81-85 | the new range is exactly the option's single entry |
| ReportScreen.Submit | assets/report_new.tsx:92-94 | the query runs for the chosen location and sensor |
| ReportScreen.DownloadCsv | assets/report_new.tsx:96-98 | the CSV of the table shown reads back as that table |
| ReportScreen.BackupMenusAgree | assets/report_backup.tsx:387-413 | the inline menu options are the shared constants |
| Report.FirstMatch | hooks/report/useReport.ts:32 | the leftmost start of `\.?0+$`, or the end |
| Report.TrimZeros | hooks/report/useReport.ts:32 | the replacement removes exactly the leftmost match |
| Report.TrimZerosIsStrip | hooks/report/useReport.ts:32 | the regex trim equals the reference trim: drop trailing zeros and a dot just before them |
| Report.TrimFourDecimals | hooks/report/useReport.ts:30-32 | a trimmed `toFixed(4)` keeps its integer part, has no dangling dot and no trailing zero after a dot |
| Report.TrimWholeNumber | hooks/report/useReport.ts:30-32 | the fraction `.0000` is removed with its dot |
| Report.FormatValue | hooks/report/useReport.ts:23-35 | timestamp column shows the date or the raw value; a number shows its trimmed four decimals; else `String` |
| Report.WholeNumberCell | hooks/report/useReport.ts:29-33 | a whole number shows without decimals |
| Report.WantedMeans | hooks/report/useReport.ts:78-80 | the filter removes `_`-prefixed keys and `topic`, nothing else |
| Report.Columns | hooks/report/useReport.ts:78-80 | the wanted keys of the first row, in order |
| Report.ColumnsMembership | hooks/report/useReport.ts:78-80 | a key is a column iff it is a key of the first row and wanted |
| Report.ColumnsInOrder | hooks/report/useReport.ts:78-80 | column c is the key at the c-th wanted position |
| Report.FormatRow | hooks/report/useReport.ts:84-88 | exactly the columns, in order, each holding the formatted field |
| Report.RunQuery | hooks/report/useReport.ts:43-98 | no location or sensor does nothing; otherwise one POST; busy ends false |
| Report.NoDataClears | hooks/report/useReport.ts:70-75 | an empty answer reports `No data returned.` and clears the table |
| Report.FailureKeepsTable | hooks/report/useReport.ts:91-92 | a failure records its message and keeps the table |
| Report.RowsOpen | hooks/report/useReport.ts:77-90 | rows open the modal: columns from the first row, one formatted row per raw row |
| Report.BackupFilterAgrees | assets/report_backup.tsx:146-149 | the inline undesired set equals the shared constant |
| ReportExport.BodyIsJoin | hooks/report/useReportExport.ts:16-20 | the body is the row lines joined by line breaks |
| ReportExport.EmptyReport | hooks/report/useReportExport.ts:21 | with no rows the document is the header and one line break |
| ReportExport.QuoteRoundTrip | hooks/report/useReportExport.ts:18 | stripping the outer quotes and collapsing doubled quotes gives the text back |
| ReportExport.QuoteLength | hooks/report/useReportExport.ts:18 | a quoted cell is two longer plus one per quote |
| ReportExport.QuotePlain | hooks/report/useReportExport.ts:18 | a text without quotes is only wrapped |
| ReportExport.ReadFieldInverse | hooks/report/useReportExport.ts:18 | a quoted cell before a delimiter reads back as the text |
| ReportExport.ReadCellsInverse | hooks/report/useReportExport.ts:18 | a record line reads back as its cells |
| ReportExport.LineIsQuotedCells | hooks/report/useReportExport.ts:17-19 | a row line is the row's quoted cells joined by commas |
| ReportExport.HeaderIsQuotedCells | hooks/report/useReportExport.ts:15 | the header is the quoted headings when no heading has a quote |
| ReportExport.ReadBodyInverse | hooks/report/useReportExport.ts:16-20 | the body reads back as one record per row |
| ReportExport.CsvRoundTrip | hooks/report/useReportExport.ts:14-21 | the document reads back as the headings then each row's cells, in order |
| SensorPicker.Utf16Injective | hooks/report/useSensorData.ts:25 | strings with the same UTF-16 code units are equal, and only they |
| SensorPicker.LessTotal | hooks/report/useSensorData.ts:25 | the default sort order, UTF-16 code unit by code unit, is total on distinct strings |
| SensorPicker.SurrogatesSortFirst | hooks/report/useSensorData.ts:25 | a character above U+FFFF sorts by its leading surrogate, so U+1F600 comes before U+FF00 although its code point is larger |
| SensorPicker.Insert | hooks/report/useSensorData.ts:25 | insertion keeps the list strictly sorted and adds exactly `x` |
| SensorPicker.Locations | hooks/report/useSensorData.ts:25 | each location once, strictly increasing in UTF-16 code-unit order |
| SensorPicker.LocationsExact | hooks/report/useSensorData.ts:25 | no duplicates, and exactly the input locations |
| SensorPicker.FirstIsLeast | hooks/report/useSensorData.ts:25-27 | the first location precedes every other one in UTF-16 code-unit order |
| SensorPicker.SensorsAtMembership | hooks/report/useSensorData.ts:40-42 | a sensor is listed iff an entry puts it at the location |
| SensorPicker.SensorsAtInOrder | hooks/report/useSensorData.ts:40-42 | listed sensors keep input order |
| SensorPicker.SyncSensors | hooks/report/useSensorData.ts:39-45 | the sensors of the location, and the first (or `''`) chosen |
| SensorPicker.Load | hooks/report/useSensorData.ts:19-36 | success keeps the data, sorts locations in UTF-16 code-unit order and picks the first, then syncs the sensors; failure records its message only |
| SensorPicker.ChooseLocation | hooks/report/useSensorData.ts:39-45 | a different location resyncs its sensors and picks the first; the current location again changes nothing, since the effect does not re-run |
| SensorPicker.ChoiceKeepsSynced | hooks/report/useSensorData.ts:39-45 | after a load, and after any choice of location, the sensor list is that of the chosen location |
| SensorPicker.LoadedChoiceExists | hooks/report/useSensorData.ts:25-44 | after loading, the chosen location and sensor exist in the data (or are `''` when none) |
| LineProtocol.EscapeTagIsPerCharacter | utils/influx.ts:25-27 | the three replacements equal one per-character escape |
| LineProtocol.EscapeTagLength | utils/influx.ts:25-27 | one backslash added per special character; no specials means unchanged |
| LineProtocol.ReadTagValueInverse | utils/influx.ts:25-27 | an escaped tag value reads back, stopping at the `,` or space after it |
| LineProtocol.StringContentAgrees | utils/influx.ts:28-30 | without backslashes, the full escape equals the source's replacement |
| LineProtocol.EscapeFieldStringAgrees | utils/influx.ts:28-30 | the corrected and as-written field strings agree without backslashes |
| LineProtocol.ReadStringFieldInverse | utils/influx.ts:28-30 | escaped content reads back |
| LineProtocol.FieldStringRoundTrip | utils/influx.ts:28-30 | the corrected field reads back as the description |
| LineProtocol.TrailingBackslashBreaksField | utils/influx.ts:28-30 | as written, `a\` never closes its field |
| LineProtocol.ThresholdLine | utils/influx.ts:41-49 | measurement, comma, tags, one space, fields (with the corrected description escape) |
| LineProtocol.FieldSetShape | utils/influx.ts:47-48 | the description field is present iff a non-empty description is given |
| LineProtocol.TagListRoundTrip | utils/influx.ts:41-46 | the tags read back in order |
| LineProtocol.TagSetRoundTrip | utils/influx.ts:41-46 | the four tags of a threshold read back in their fixed order |
| LineProtocol.ThresholdLineRoundTrip | utils/influx.ts:49 | a line reads back as measurement, four tags and its field set |
| LineProtocol.WriteThreshold | utils/influx.ts:32-60 | the posted line reads back as its four tags and fields; an error names the status and text outside 200-299 |
| LineProtocol.FieldSetAgrees | utils/influx.ts:28-30 | the corrected field set equals the program's when the description has no backslash |
| LineProtocol.WriteThresholdAsWritten | utils/influx.ts:41-49 | the posted line equals the program's line when the description has no backslash |
| LegacyCsv.LastCell | utils/mqttworkingfine.tsx:62 | the trimmed text after the last `,` |
| LegacyCsv.DataCells | utils/firebaseworking.tsx:172-175 | the last cells of the data lines, in order |
| LegacyCsv.DataCellsMembership | utils/firebaseworking.tsx:172-175 | a cell is listed iff it is some data line's last cell |
| LegacyCsv.TagValues | utils/firebaseworking.tsx:172-176 | the data cells without the `_value` header |
| LegacyCsv.LastField | utils/mqttworkingfine.tsx:56-64 | the tag values without blanks |
| LegacyCsv.LastFieldMembership | utils/mqttworkingfine.tsx:56-64 | listed iff the non-blank last cell of a data line, other than `_value` |
| LegacyCsv.LastFieldDropsBlanks | assets/bkp3.tsx:40-44 | `lastField` is the firebaseworking extraction with blanks dropped |
| LegacyCsv.StripQuotesOfQuoted | utils/firebaseworking.tsx:298 | a quoted cell loses exactly its two quotes |
| LegacyCsv.StripQuotesOfPlain | utils/firebaseworking.tsx:298 | a cell without outer quotes is kept |
| LegacyCsv.PutGet | utils/firebaseworking.tsx:299 | after `rec[k] = v`, `k` reads `v` and others read as before |
| LegacyCsv.PutKeys | utils/firebaseworking.tsx:299 | in creation order, keys keep their places and a new key is appended |
| LegacyCsv.PairRecordShape | utils/firebaseworking.tsx:299 | the record has each header once and nothing else |
| LegacyCsv.PairRecordValues | utils/firebaseworking.tsx:299 | each header reads its own column's value, the last occurrence winning, `''` past the end |
| LegacyCsv.PairRecordKeys | utils/threshholdswrokingfine.tsx:274 | distinct headers give the record's keys in creation order, which is header order |
| KeyOrder.InsertIndex | utils/firebaseworking.tsx:310 | an index entry placed among ascending ones keeps them ascending, same entries |
| KeyOrder.SortIndex | utils/firebaseworking.tsx:310 | index entries come out ascending, same entries |
| KeyOrder.Enumerated | utils/firebaseworking.tsx:310 | same entries; the array-index keys first and ascending, then no index key |
| KeyOrder.EnumeratedKeepsNamedOrder | utils/threshholdswrokingfine.tsx:287 | keys that are not array indices keep their creation order |
| KeyOrder.NamedThenIndex | utils/threshholdswrokingfine.tsx:287 | an index key created after a named key is listed before it |
| KeyOrder.IndexKeyFirst | utils/threshholdswrokingfine.tsx:287 | `{a: 0, 1: 1}` lists `1` before `a` |
| LegacyCsv.LatestRecord | utils/firebaseworking.tsx:289-299 | headers from the first content line, values from the second; none when fewer than two lines |
| Uptime.JsRem | utils/threshholdswrokingfine.tsx:91-97 | JavaScript `%`: the sign follows the dividend |
| Uptime.UptimeParts | utils/threshholdswrokingfine.tsx:91-97 | for a non-negative count, the parts are in range and add back up to it |
| Uptime.UptimeUnique | utils/mqttworkingfine.tsx:70-76 | in-range parts adding up to a count are the printed ones |
| Uptime.NegativeCount | utils/mqttworkingfine.tsx:70-76 | -1 prints as `-1d -1h -1m -1s`, which does not add up to -1 |
| Uptime.FmtUptimeRoundTrip | assets/bkp3.tsx:46-52 | the printed uptime of a non-negative count reads back as that count |
| LegacyReadings.ReadNumber | utils/threshholdswrokingfine.tsx:286-297 | blank text reads as 0, an integer numeral exactly |
| LegacyReadings.FmtNumOfInt | utils/threshholdswrokingfine.tsx:88-90 | an integer prints without decimals |
| LegacyReadings.ReadingLabel | utils/firebaseworking.tsx:310-322 | configured label, else the key without `readings_` |
| LegacyReadings.FirebaseCard | utils/firebaseworking.tsx:310-322 | a number shows two decimals and the unit, else the text as it came |
| LegacyReadings.BlankReadingShowsZero | utils/threshholdswrokingfine.tsx:286-297 | as written, a blank reading shows `0`+unit and counts as the number 0 |
| LegacyReadings.ThresholdsCardData | utils/threshholdswrokingfine.tsx:286-297 | a blank reading: `—` and no number where the program shows `0` with the unit; any other reading gets the program's card |
| LegacyReadings.ThresholdsCardsAsWritten | utils/threshholdswrokingfine.tsx:286-297 | with no blank reading, the cards are exactly the program's |
| LegacyReadings.CardsFollowEntries | utils/firebaseworking.tsx:310-320 | the cards of the entries as `Object.entries` lists them are the cards in creation order |
| LegacyReadings.CardsInOrder | utils/firebaseworking.tsx:310-322 | card k is that of the k-th `readings_` entry, and every such entry has one |
| LegacyReadings.CardColour | utils/firebaseworking.tsx:512-515 | green iff value <= threshold, red iff above, neutral when either is missing |
| LegacyReadings.RaisingThresholdKeepsGreen | utils/threshholdswrokingfine.tsx:488-491 | raising a threshold never turns green to red |
| LegacyReadings.BlankReadingColour | utils/threshholdswrokingfine.tsx:488-491 | a blank is green as written, neutral once corrected |
| LegacyReadings.ShownTime | utils/threshholdswrokingfine.tsx:275-283 | empty exactly when the record has no `_time` |
| LegacyReadings.FirebaseMeta | utils/firebaseworking.tsx:301-308 | three lines: location, sensor, time or empty |
| LegacyReadings.ThresholdsMeta | utils/threshholdswrokingfine.tsx:275-283 | three lines: location, sensor id, time or empty |
| LegacyReadings.FirebaseFetchLatest | utils/firebaseworking.tsx:277-330 | error text and no cards on failure; `—` under two lines; else meta and cards; busy ends false |
| LegacyReadings.ThresholdsFetchLatest | utils/threshholdswrokingfine.tsx:253-306 | the same, with trimmed cells and the corrected blank card |
| LegacyReadings.FirstFailure | utils/firebaseworking.tsx:178-190 | none iff every query succeeded; otherwise the first failure |
| LegacyReadings.FetchLocations | utils/firebaseworking.tsx:163-196 | success: each tag value with its sensor count, in order; failure keeps the grid and sets the error |
| LegacyReadings.KeysNeverCollide | utils/threshholdswrokingfine.tsx:228-241 | interval and threshold keys of any two views differ |
| LegacyReadings.ParsedInterval | utils/threshholdswrokingfine.tsx:228-241 | a stored integer reads back; nothing stored gives 10000 |
| LegacyReadings.ChosenIntervalReadsBack | utils/threshholdswrokingfine.tsx:317-322 | a chosen interval reads back; stored thresholds are untouched |
| LegacyReadings.LoadThresholds | utils/firebaseworking.tsx:260-266 | the parse of a non-empty stored text, else the defaults |
| LegacyReadings.FieldPosts | utils/firebaseworking.tsx:341-355 | one post per entry, in entry order, carrying that field's line (with the corrected description escape) |
| LegacyReadings.PostAll | utils/firebaseworking.tsx:341-355 | the posts do not depend on the answers: every entry is written whatever became of the earlier writes; the failures are counted |
| LegacyReadings.SaveThresholds | utils/firebaseworking.tsx:333-368 | local write first, then one post per field (corrected description escape); the message depends on alerts; the panel closes |
| LegacyReadings.FieldLineReadsBack | utils/firebaseworking.tsx:341-355 | each line carries the field and the sensor as tags and `Threshold for <field>` |
| LegacyReadings.SaveLocally | utils/threshholdswrokingfine.tsx:309-314 | only the local write, then the panel closes |
| MqttLive.TopicIsJoin | utils/mqttworkingfine.tsx:162 | the topic is five segments joined by `/` |
| MqttLive.TopicSegments | assets/bkp3.tsx:134 | for names without `/` the topic splits back into its segments |
| MqttLive.TopicInjective | utils/mqttworkingfine.tsx:162 | distinct views subscribe to distinct topics |
| MqttLive.Initial | utils/mqttworkingfine.tsx:152-159 | no clients, nothing connected, view closed |
| MqttLive.AtMostOneConnected | utils/mqttworkingfine.tsx:161-166 | at most one client is connected |
| MqttLive.DisconnectCurrent | utils/mqttworkingfine.tsx:161 | only the referenced client is disconnected |
| MqttLive.OpenLive | assets/bkp3.tsx:128-136 | old client disconnected, new client referenced and connected; open, busy, no rows |
| MqttLive.OpenLiveClearing | utils/mqttworkingfine.tsx:153-166 | as above, and the meta text is cleared |
| MqttLive.CloseLive | assets/bkp3.tsx:179 | after closing, no client is connected |
| MqttLive.ConnectFailed | utils/mqttworkingfine.tsx:205-208 | the view stops being busy |
| MqttLive.Field | utils/mqttworkingfine.tsx:171-180 | a missing key reads as `undefined` |
| MqttLive.ShownOrDash | utils/mqttworkingfine.tsx:174-175 | a falsy value shows `—` |
| MqttLive.Optional | utils/mqttworkingfine.tsx:176-180 | the line when truthy, nothing otherwise |
| MqttLive.UptimeText | utils/mqttworkingfine.tsx:180 | a whole number of seconds prints with `fmtUptime` |
| MqttLive.MetaParts | utils/mqttworkingfine.tsx:173-180 | seven parts: location and sensor lines first, the fourth is the IP line |
| MqttLive.MetaPartsInitials | utils/mqttworkingfine.tsx:173-180 | no present part other than the IP line starts with `I`, so none can be taken for it |
| MqttLive.MqttMeta | utils/mqttworkingfine.tsx:173-181 | the lines are the present parts, in order, location and sensor first |
| MqttLive.IpLineShown | utils/mqttworkingfine.tsx:177 | an IP line shows iff the status has a truthy `ip` |
| MqttLive.ReadingData | utils/mqttworkingfine.tsx:187 | null shows `—`, a number `fmtNum`+unit, else `String` |
| MqttLive.MqttRows | utils/mqttworkingfine.tsx:185-188 | one row per readings entry, in order, named by its key |
| MqttLive.UnitlessNumber | utils/mqttworkingfine.tsx:78-83 | a number without a unit is shown bare |
| MqttLive.MqttMessage | utils/mqttworkingfine.tsx:168-195 | a parse failure leaves meta and rows; busy ends false |
| MqttLive.Unwrap | assets/bkp3.tsx:145-149 | an object with a truthy `payload` is replaced by it |
| MqttLive.BkpData | assets/bkp3.tsx:162 | a number `fmtNum`+unit, else `String` |
| MqttLive.BkpRows | assets/bkp3.tsx:154-164 | a `Time` row first iff there is a timestamp, then every other key in order |
| MqttLive.BkpRowCount | assets/bkp3.tsx:154-164 | distinct keys give exactly one row per key |
| MqttLive.DropOnce | assets/bkp3.tsx:161 | dropping a present key from distinct keys removes exactly one entry |
| MqttLive.BkpMessage | assets/bkp3.tsx:141-169 | a parse failure leaves the rows; busy ends false |
| MqttLive.Step | utils/mqttworkingfine.tsx:152-210 | every event keeps the one-client invariant; messages reach connected clients only |
| MqttLive.RunKeepsOneClient | utils/mqttworkingfine.tsx:161-166 | after any events, at most the referenced client is connected |
| MqttLive.StaleClientIgnored | utils/mqttworkingfine.tsx:161 | a message for an earlier client changes nothing |
| DeviceId.NativeId | app/pushRegistration.ts:83-92 | present iff Android with an Android id or iOS with an IDFV |
| DeviceId.PresentFields | app/pushRegistration.ts:99-107 | the truthy hardware fields, each once, in their order |
| DeviceId.PresentFieldsInOrder | app/pushRegistration.ts:99-107 | the k-th present field is the field at the k-th truthy position |
| DeviceId.RawId | app/pushRegistration.ts:99-109 | never empty; `<os>-unknown` with no fields; otherwise splits back into them |
| DeviceId.FallbackId | app/pushRegistration.ts:111-118 | `<os>-` followed by the first 20 characters of the digest |
| DeviceId.StableDeviceId | app/pushRegistration.ts:80-119 | native id, else the stored id, else the derived id, which is stored |
| DeviceId.IdIsStable | app/pushRegistration.ts:95-118 | asking again gives the same id and writes nothing |
| DeviceId.StoreChangesOnce | app/pushRegistration.ts:116-118 | storage changes only at the id's key |
| DeviceId.Register | app/pushRegistration.ts:22-64 | not a device does nothing; asks only when not granted; a denial alerts and fetches no token; success ends by registering the id and token |
| DeviceId.RegisterTwiceSameId | app/pushRegistration.ts:121-134 | registering twice posts the same device id |
| PushRegistry.SaveToken | assets/send_push.py:80-97 | empty user or token gives 400 and no change; otherwise the token is added and other users are unchanged |
| PushRegistry.SaveIdempotent | assets/send_push.py:94 | saving twice equals saving once |
| PushRegistry.SavedTokenPersists | assets/send_push.py:94 | a saved token stays registered |
| PushRegistry.SendPush | assets/send_push.py:37-76 | no auth gives RuntimeError; invalid token gives ValueError; else one message and its receipts or a RuntimeError |
| PushRegistry.FanOut | assets/send_push.py:133-142 | receipts of the successful sends, in order |
| PushRegistry.FanOutAppend | assets/send_push.py:134-140 | the loop over two runs is the loop over each |
| PushRegistry.FailureIsolated | assets/send_push.py:138-140 | a failing token costs the others nothing |
| PushRegistry.ValidMembership | assets/send_push.py:53-54 | valid iff listed and accepted by Expo |
| PushRegistry.EveryValidTokenTried | assets/send_push.py:133-142 | with auth set, each valid token gets exactly one message, in order |
| PushRegistry.Title | assets/send_push.py:124-129 | `Influx Alert: ` followed by the id or `Influx Alert` |
| PushRegistry.DataOf | assets/send_push.py:126-131 | the value field and the time or `""` |
| PushRegistry.PushFor | assets/send_push.py:123-131 | title, body (message or default) and data of an alert |
| PushRegistry.InfluxAlerts | assets/send_push.py:101-142 | missing user gives 400; no tokens gives a success saying so; else the fan-out's receipts |
| PushRegistry.MissingAuthSendsNothing | assets/send_push.py:44-49 | without auth nothing is sent, yet the webhook reports success |
| PushRegistry.SavedTokenReached | assets/send_push.py:94-136 | a saved, valid token gets a message from the next alert for its user |

## Left out

- Network transport is not modelled. The HTTP client, `apiFetch`, `influx()`, MQTT connect and subscribe, and FastAPI routing are replaced by answers given as parameters.
- `JsValues.JsNumber` reads only integer numerals and blanks. Fractions, exponents, hex and `Infinity` read as NaN; floating-point parsing is not modelled.
- `LegacyReadings.ReadNumber` hands every non-integer string to a parameter instead.
- Floating-point rendering is not modelled. `toFixed`, `String(x)`, dayjs formatting, `toISOString` and date arithmetic are carried by `Num` or passed as parameters.
- `Report.TrimFourDecimals`: states the trim for any text shaped like `toFixed(4)`. It does not prove that the runtime produces that shape.
- JSON parsing is a parameter, and the order of object keys comes with the parsed entries. Non-object `readings` in MQTT messages are not modelled.
- `MqttLive.DisconnectCurrent`: disconnecting a paho client that is not connected throws, and the model treats it as a no-op. `assets/bkp3.tsx` catches the throw, so there it is one. In `utils/mqttworkingfine.tsx` the call is unguarded (:161, :318, :327, :344). After a failed connect the throw ends `openLive` after it has cleared the rows and opened the drawer but before a new client exists, and it ends the close handlers before `setLiveOpen(false)`, so the drawer stays open. The model does not capture this.
- SHA-1 (`expo-crypto`), the Expo notifications SDK, `expo-device` and `expo-application` are parameters.
- `PushRegistry.FanOut`: iterates the tokens in the order of a `listing` parameter, because Python's set iteration order is unspecified.
- `PushRegistry.SendPush`: Expo's chunking of a single message is assumed to give one chunk.
- `PushRegistry.InfluxAlerts`: the Pydantic validation of the request body is not modelled. Its 422 answers happen before the handler runs.
- `LegacyReadings.FetchLocations`: when several queries fail, `Promise.all` rejects with whichever fails first in time. The model takes the first failure in location order.
- `MqttLive.UptimeText`: only a whole number of seconds is rendered by the model. Other values go to a parameter.
- Concurrency between overlapping fetches (a late answer overwriting a newer one) is not modelled. Each operation runs to completion.
- Left out as presentation only: UI components, layout, styling, the PDF export (`downloadPDF`), `Alert.alert` prompts and console logging.
- `utils/mqttClient.ts`, `app/api.ts` and `utils/notifs.ts` are not part of this model.
- Strings are sequences of Unicode scalar values, not of UTF-16 code units. `SensorPicker.Less` compares the UTF-16 encoding explicitly, so the sort order is JavaScript's. Lengths and indices elsewhere count characters, whereas JavaScript counts code units, so they differ for characters above U+FFFF.
- `LineProtocol.ThresholdLine`: writes the description with the corrected escape, which also escapes `\`. The program escapes only `"` (see Findings). `LineProtocol.WriteThresholdAsWritten` proves the two lines equal for every description without a backslash.
- `LineProtocol.WriteThreshold`: posts the corrected line. For a description with a backslash it does not post what the program posts.
- `LegacyReadings.FieldPosts`: each post carries the corrected line, not the program's escape of `utils/firebaseworking.tsx`.
- `LegacyReadings.SaveThresholds`: posts the corrected lines through `FieldPosts`. The descriptions it writes, `Threshold for <field>`, hold a backslash only if a field name does.
- `LegacyReadings.ThresholdsFetchLatest`: shows a blank reading as `—` with no number, using the corrected card. The program shows `0` with the unit (see Findings). `LegacyReadings.ThresholdsCardsAsWritten` proves the cards are the program's whenever no reading is blank.
- `SensorList.Group`, `MqttLive.UnitFor` and `LiveRows.Label`: a JavaScript lookup on an object literal also sees inherited keys such as `constructor` and `__proto__`. The `Entries` lookup sees only the keys put there, so a location or reading named after an `Object.prototype` member is not modelled.

- `LegacyCsv.PutKeys`: keeps keys in creation order. `Object.entries` lists array-index keys such as `"0"` first, in increasing order, and then the others in creation order. `KeyOrder.Enumerated` models that listing, and `LegacyReadings.CardsFollowEntries` proves the reading cards are the same either way, because a `readings_` key is never an array index.
- `LegacyCsv.PairRecordKeys`: the header order it states is the creation order. The order `Object.entries` lists is `KeyOrder.Enumerated` of it, which differs when a header is an array index.
- `SensorList.Group`: the latest-stamp promise is stated only when every `last_seen` of the location is a valid date. `SensorList.InvalidFirstStampKept` shows an invalid stamp that is met first being kept.
- `Report.RunQuery`: `startOf` is a total parameter. In JavaScript a range whose amount is NaN would make `toISOString` throw a RangeError, which the `catch` turns into an error message. The ranges of the fixed menu all have whole amounts, so this cannot happen.

## Findings

| source | as written | input that shows it | evidently intended | confidence | as-written member | corrected member |
|---|---|---|---|---|---|---|
| utils/influx.ts:28-30 (same in utils/firebaseworking.tsx:89-91) | `escapeFieldString` escapes `"` but not `\` | description `a\`: the line ends `description="a\"`, and the backslash escapes the closing quote | both `"` and `\` escaped, as line protocol requires for string fields | not executed | LineProtocol.EscapeFieldStringAsWritten (LineProtocol.TrailingBackslashBreaksField) | LineProtocol.EscapeFieldString (LineProtocol.FieldStringRoundTrip) |
| utils/threshholdswrokingfine.tsx:286-297 | a card is numeric when `!isNaN(Number(val))`, and only otherwise falls back to `val \|\| '—'` | reading `""`: `Number('')` is 0, so the card shows `0` with the unit and is coloured green | a blank reading shows `—` and is not compared against the threshold | not executed | LegacyReadings.ThresholdsCardAsWritten (LegacyReadings.BlankReadingShowsZero) | LegacyReadings.ThresholdsCard (LegacyReadings.ThresholdsCardData) |
