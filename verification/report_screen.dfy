/** The report screen (`report_new`, and the inline `report_backup`): four
    bottom-sheet menus whose selections set one value each, the submit button
    that runs the query for the chosen location and sensor, and the CSV
    download of the current table. */
module ReportScreen {
  import opened Wrappers
  import opened JsValues
  import opened ReportConstants
  import opened ReportRanges
  import opened Report
  import opened ReportExport
  import opened SensorPicker
  import opened Sequences

  /** The four menus. */
  datatype Menu = LocationMenu | SensorMenu | RangeMenu | WindowMenu

  /** The screen: which menus are open, and the state of the two hooks. */
  datatype Screen = Screen(menus: set<Menu>, picker: PickerState, report: ReportState)

  /** Pressing a field of the form opens its menu. */
  function OpenMenu(sc: Screen, m: Menu): (r: Screen)
    ensures r.menus == sc.menus + {m}
    ensures r.picker == sc.picker && r.report == sc.report
  {
    sc.(menus := sc.menus + {m})
  }

  /** Cancelling a menu closes it. */
  function CloseMenu(sc: Screen, m: Menu): (r: Screen)
    ensures r.menus == sc.menus - {m}
    ensures r.picker == sc.picker && r.report == sc.report
  {
    sc.(menus := sc.menus - {m})
  }

  /** The `onSelect` of each menu: `handleLocationSelect` (followed by the
      sensors effect it triggers), `handleSensorSelect`, `handleRangeSelect`
      and `handleAggWindowSelect`. */
  function Select(sc: Screen, m: Menu, value: string): (r: Screen)
    ensures r.menus == sc.menus - {m}
    ensures m == LocationMenu ==> r.picker == ChooseLocation(sc.picker, value) && r.report == sc.report
    ensures m == SensorMenu ==> r.picker == sc.picker.(sensor := value) && r.report == sc.report
    ensures m == RangeMenu ==> r.report == sc.report.(range := SelectedRange(value)) && r.picker == sc.picker
    ensures m == WindowMenu ==> r.report == sc.report.(aggWindow := value) && r.picker == sc.picker
  {
    var closed := sc.menus - {m};
    match m
    case LocationMenu => Screen(closed, ChooseLocation(sc.picker, value), sc.report)
    case SensorMenu => Screen(closed, sc.picker.(sensor := value), sc.report)
    case RangeMenu => Screen(closed, sc.picker, sc.report.(range := SelectedRange(value)))
    case WindowMenu => Screen(closed, sc.picker, sc.report.(aggWindow := value))
  }

  /** A selection closes only its own menu: every other open menu stays open. */
  lemma SelectClosesOnlyItsMenu(sc: Screen, m: Menu, value: string, other: Menu)
    requires other != m
    ensures other in Select(sc, m, value).menus <==> other in sc.menus
    ensures m !in Select(sc, m, value).menus
  {
  }

  /** Selecting a time range replaces the whole range with the option's
      single entry; nothing of the previous range survives. */
  lemma RangeSelectReplaces(sc: Screen, u: string, n: nat)
    requires ':' !in u
    ensures Select(sc, RangeMenu, OptionText(u, n)).report.range == TimeRange(u, IntNum(n))
  {
    SelectedRangeOfOption(u, n);
  }

  /** `handleSubmit`: the query runs for the chosen location and sensor. */
  function Submit(sc: Screen, stop: string, startOf: TimeRange -> string,
                  post: ReportQuery -> Result<Reply, string>,
                  stamp: Json -> Option<string>): (out: (Screen, seq<ReportQuery>))
    ensures out.0.picker == sc.picker && out.0.menus == sc.menus
    ensures sc.picker.location != "" && sc.picker.sensor != "" ==>
      |out.1| == 1 && out.1[0].location == sc.picker.location && out.1[0].sensorId == sc.picker.sensor
    ensures sc.picker.location == "" || sc.picker.sensor == "" ==> out == (sc, [])
  {
    var (report, sent) := RunQuery(sc.report, sc.picker.location, sc.picker.sensor, stop, startOf, post, stamp);
    (sc.(report := report), sent)
  }

  /** `handleDownload` choosing CSV: the document of the current columns and
      rows, headed from `labels` (`FIELD_LABELS` of the report in `report_new`,
      `FRIENDLY` in `report_backup`). It reads back as the table shown. */
  function DownloadCsv(sc: Screen, labels: Entries<string>): (doc: string)
    ensures |sc.report.cols| >= 1 && (forall i :: 0 <= i < |sc.report.cols| ==> '"' !in Heading(labels, sc.report.cols[i])) ==>
      ReadRecords(doc) == Some([Map(sc.report.cols, c => Heading(labels, c))] + Records(sc.report.cols, sc.report.rows))
  {
    var cols, rows := sc.report.cols, sc.report.rows;
    var doc := Csv(labels, cols, rows);
    assert |cols| >= 1 && (forall i :: 0 <= i < |cols| ==> '"' !in Heading(labels, cols[i])) ==>
      ReadRecords(doc) == Some([Map(cols, c => Heading(labels, c))] + Records(cols, rows)) by {
      if |cols| >= 1 && (forall i :: 0 <= i < |cols| ==> '"' !in Heading(labels, cols[i])) {
        CsvRoundTrip(labels, cols, rows);
      }
    }
    doc
  }

  /* ----------------------- the inline predecessor ----------------------- */

  /** The range options written out inline in `report_backup`. */
  function BackupRangeOptions(): seq<string>
  {
    ["hours:1", "hours:2", "hours:5", "days:1", "days:7", "days:15", "days:30"]
  }

  /** The window options written out inline in `report_backup`. */
  function BackupWindowOptions(): seq<string>
  {
    ["1m", "5m", "10m", "30m", "1h", "1d"]
  }

  /** The inline menus offer exactly the shared options, so the labels of the
      range menu agree with the range they select there too. */
  lemma BackupMenusAgree()
    ensures BackupRangeOptions() == TimeRangeOptions()
    ensures BackupWindowOptions() == AggregationWindowOptions()
    ensures forall i :: 0 <= i < |BackupRangeOptions()| ==>
      FormatRangeLabel(BackupRangeOptions()[i]) == RangeLabel(SelectedRange(BackupRangeOptions()[i]))
  {
    MenuLabelsAgree();
  }
}
