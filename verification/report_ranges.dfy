/** Time ranges of the report screen: reading a menu option into a range, and
    the two ways the screen labels a range (from the range itself in
    `useReport`, from the option text in the menu). */
module ReportRanges {
  import opened Text
  import opened JsValues
  import opened ReportConstants

  /** `const [u, n] = value.split(':'); setRange({ [u]: +n })`: the option
      replaces the whole range. A missing amount reads as `+undefined`, NaN. */
  function SelectedRange(opt: string): (r: TimeRange)
    ensures r.unit == Split(opt, ':')[0]
  {
    var pieces := Split(opt, ':');
    TimeRange(pieces[0], if |pieces| >= 2 then JsNumber(pieces[1]) else NaN)
  }

  /** `rangeLabel()`: `Last <v> hr` for hours, `Last <v> d` for any other unit. */
  function RangeLabel(r: TimeRange): string
  {
    if r.unit == "hours" then "Last " + NumText(r.amount) + " hr" else "Last " + NumText(r.amount) + " d"
  }

  /** `formatRangeLabel(opt)`: decided by whether the option text starts with
      `hours`, showing the text after the first `:` (or `undefined`). */
  function FormatRangeLabel(opt: string): string
  {
    var pieces := Split(opt, ':');
    var v := if |pieces| >= 2 then pieces[1] else "undefined";
    if "hours" <= opt then "Last " + v + " hr" else "Last " + v + " d"
  }

  lemma DigitsHaveNoColon(s: string)
    requires AllDigits(s)
    ensures ':' !in s
  {
  }

  /** An option `<u>:<n>` starts with `hours` exactly when `u` does. */
  lemma StartsWithHours(u: string, n: nat)
    requires ':' !in u
    ensures "hours" <= OptionText(u, n) <==> "hours" <= u
  {
    var opt := OptionText(u, n);
    assert opt == u + ":" + NatToString(n);
    if |u| < 5 {
      assert opt[|u|] == ':';
      assert forall k :: 0 <= k < 5 ==> "hours"[k] != ':';
    } else {
      assert u[..5] == opt[..5];
    }
    if "hours" <= u {
      assert opt[..5] == u[..5];
    }
  }

  /** The menu label of an option is the label of the range the option
      selects, whenever the unit is `hours` or does not start with `hours`. */
  lemma LabelsAgree(u: string, n: nat)
    requires ':' !in u
    requires u == "hours" || !("hours" <= u)
    ensures FormatRangeLabel(OptionText(u, n)) == RangeLabel(SelectedRange(OptionText(u, n)))
  {
    var digits := NatToString(n);
    DigitsHaveNoColon(digits);
    assert OptionText(u, n) == u + [':'] + digits;
    SplitTwo(u, ':', digits);
    JsNumberRoundTrip(n);
    assert IntToString(n) == digits;
    StartsWithHours(u, n);
  }

  /** For every option of the menu the two labels agree. */
  lemma MenuLabelsAgree()
    ensures forall i :: 0 <= i < |TimeRangeOptions()| ==>
      FormatRangeLabel(TimeRangeOptions()[i]) == RangeLabel(SelectedRange(TimeRangeOptions()[i]))
  {
    var opts := TimeRangeOptions();
    var parts := TimeRangeParts();
    forall i | 0 <= i < |opts|
      ensures FormatRangeLabel(opts[i]) == RangeLabel(SelectedRange(opts[i]))
    {
      LabelsAgree(parts[i].0, parts[i].1);
    }
  }

  /** Selecting `<u>:<n>` gives exactly the range `{u: n}`. */
  lemma SelectedRangeOfOption(u: string, n: nat)
    requires ':' !in u
    ensures SelectedRange(OptionText(u, n)) == TimeRange(u, IntNum(n))
  {
    var digits := NatToString(n);
    DigitsHaveNoColon(digits);
    assert OptionText(u, n) == u + [':'] + digits;
    SplitTwo(u, ':', digits);
    JsNumberRoundTrip(n);
    assert IntToString(n) == digits;
  }

  /** The default range is what the first option selects, and reads `Last 1 hr`. */
  lemma DefaultIsFirstOption()
    ensures SelectedRange(TimeRangeOptions()[0]) == DefaultTimeRange()
    ensures RangeLabel(DefaultTimeRange()) == "Last 1 hr"
  {
    FirstOptionText();
    SelectedRangeOfOption("hours", 1);
    DefaultLabel();
  }

  /** The first option is `hours:1`. */
  lemma FirstOptionText()
    ensures TimeRangeOptions()[0] == OptionText("hours", 1)
  {
    assert TimeRangeParts()[0] == ("hours", 1);
  }

  /** The default range reads `Last 1 hr`. */
  lemma DefaultLabel()
    ensures RangeLabel(DefaultTimeRange()) == "Last 1 hr"
  {
    assert IntToString(1) == "1" by {
      assert NatToString(1) == [DigitChar(1)];
    }
  }
}
