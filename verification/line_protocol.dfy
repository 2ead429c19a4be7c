/** Writing a threshold as one line of InfluxDB v2 line protocol
    (`writeThreshold` in `utils/influx.ts`, copied verbatim into
    `utils/firebaseworking.tsx`):
    `metric_thresholds,<tags> <fields>`. Tag values have `,`, space and `=`
    escaped with a backslash; the description is a quoted string field.
    Readers for both escapes are given as their partners. */
module LineProtocol {
  import opened Wrappers
  import opened Text
  import opened JsValues

  /* ------------------------------ tag values ------------------------------ */

  /** The characters a tag value escapes. */
  predicate TagSpecial(ch: char)
  {
    ch == ',' || ch == ' ' || ch == '='
  }

  /** `escapeTag(v)`: three global replacements, one per special character. */
  function EscapeTag(v: string): string
  {
    ReplaceAll(ReplaceAll(ReplaceAll(v, ',', "\\,"), ' ', "\\ "), '=', "\\=")
  }

  /** One character as a tag value writes it. */
  function EscapeTagChar(ch: char): string
  {
    if TagSpecial(ch) then ['\\', ch] else [ch]
  }

  /** The one-pass reading: every character mapped on its own. */
  function EscapeEach(v: string): string
  {
    if |v| == 0 then "" else EscapeTagChar(v[0]) + EscapeEach(v[1..])
  }

  /** The three passes are one per-character map: a backslash that one pass
      inserts is never touched by a later pass. */
  lemma {:induction false} EscapeTagIsPerCharacter(v: string)
    ensures EscapeTag(v) == EscapeEach(v)
    decreases |v|
  {
    if |v| > 0 {
      EscapeTagIsPerCharacter(v[1..]);
      var h := [v[0]];
      assert v == h + v[1..];
      var r1h := ReplaceAll(h, ',', "\\,");
      var r1t := ReplaceAll(v[1..], ',', "\\,");
      ReplaceAllAppend(h, v[1..], ',', "\\,");
      var r2h := ReplaceAll(r1h, ' ', "\\ ");
      var r2t := ReplaceAll(r1t, ' ', "\\ ");
      ReplaceAllAppend(r1h, r1t, ' ', "\\ ");
      ReplaceAllAppend(r2h, r2t, '=', "\\=");
      assert ReplaceAll(r2h, '=', "\\=") == EscapeTagChar(v[0]) by {
        if v[0] == ',' {
          assert r1h == "\\,";
          assert r2h == "\\,";
        } else if v[0] == ' ' {
          assert r1h == [' '];
          assert r2h == "\\ ";
        } else if v[0] == '=' {
          assert r2h == ['='];
        } else {
          assert r2h == [v[0]];
        }
      }
    }
  }

  /** The number of characters a tag value escapes. */
  function SpecialCount(v: string): nat
  {
    if |v| == 0 then 0 else (if TagSpecial(v[0]) then 1 else 0) + SpecialCount(v[1..])
  }

  /** Escaping adds exactly one backslash per special character, and a value
      without special characters is written unchanged. */
  lemma {:induction false} EscapeTagLength(v: string)
    ensures |EscapeTag(v)| == |v| + SpecialCount(v)
    ensures SpecialCount(v) == 0 ==> EscapeTag(v) == v
    decreases |v|
  {
    EscapeTagIsPerCharacter(v);
    if |v| > 0 {
      EscapeTagLength(v[1..]);
      EscapeTagIsPerCharacter(v[1..]);
      if SpecialCount(v) == 0 {
        assert v == [v[0]] + v[1..];
      }
    }
  }

  /** Reads an escaped tag value up to the first unescaped `,` or space: a
      backslash before a special character stands for that character. */
  function ReadTagValue(s: string): (r: (string, string))
    ensures |r.1| <= |s|
    decreases |s|
  {
    if |s| == 0 then ("", "")
    else if s[0] == ',' || s[0] == ' ' then ("", s)
    else if s[0] == '\\' && |s| >= 2 && TagSpecial(s[1]) then
      var (v, rest) := ReadTagValue(s[2..]);
      ([s[1]] + v, rest)
    else
      var (v, rest) := ReadTagValue(s[1..]);
      ([s[0]] + v, rest)
  }

  /** An escaped tag value reads back, stopping at the `,` or space after it,
      for any value without a backslash. */
  lemma {:induction false} ReadTagValueInverse(v: string, tail: string)
    requires '\\' !in v
    requires tail == "" || tail[0] == ',' || tail[0] == ' '
    ensures ReadTagValue(EscapeEach(v) + tail) == (v, tail)
    decreases |v|
  {
    if |v| == 0 {
      assert EscapeEach(v) + tail == tail;
    } else {
      ReadTagValueInverse(v[1..], tail);
      var inner := EscapeEach(v[1..]) + tail;
      assert EscapeEach(v) + tail == EscapeTagChar(v[0]) + inner;
      ReadTagValueStep(v[0], inner);
      assert [v[0]] + v[1..] == v;
    }
  }

  /** Reading one written character, other than a backslash, puts it in front
      of what the rest reads as. */
  lemma ReadTagValueStep(ch: char, inner: string)
    requires ch != '\\'
    ensures ReadTagValue(EscapeTagChar(ch) + inner) == ([ch] + ReadTagValue(inner).0, ReadTagValue(inner).1)
  {
    var s := EscapeTagChar(ch) + inner;
    if TagSpecial(ch) {
      assert s[0] == '\\' && s[1] == ch;
      assert s[2..] == inner;
    } else {
      assert s[0] == ch;
      assert s[1..] == inner;
    }
  }

  /* ----------------------------- string fields ---------------------------- */

  /** `escapeFieldString(v)` as written: quotes escaped, backslashes not. */
  function EscapeFieldStringAsWritten(v: string): string
  {
    "\"" + ReplaceAll(v, '"', "\\\"") + "\""
  }

  /** Escapes a string field's content as line protocol requires: both `"`
      and `\` get a backslash. */
  function EscapeStringContent(v: string): string
  {
    if |v| == 0 then ""
    else (if v[0] == '"' || v[0] == '\\' then ['\\', v[0]] else [v[0]]) + EscapeStringContent(v[1..])
  }

  /** `escapeFieldString(v)` with backslashes escaped as well. */
  function EscapeFieldString(v: string): string
  {
    "\"" + EscapeStringContent(v) + "\""
  }

  /** Without backslashes in the value, escaping the content is the single
      replacement of `escapeFieldString`. */
  lemma {:induction false} StringContentAgrees(v: string)
    requires '\\' !in v
    ensures EscapeStringContent(v) == ReplaceAll(v, '"', "\\\"")
    decreases |v|
  {
    if |v| > 0 {
      StringContentAgrees(v[1..]);
    }
  }

  /** The two agree on every value without a backslash. */
  lemma EscapeFieldStringAgrees(v: string)
    requires '\\' !in v
    ensures EscapeFieldString(v) == EscapeFieldStringAsWritten(v)
  {
    StringContentAgrees(v);
  }

  /** Reads the inside of a string field after its opening quote: `\"` and
      `\\` stand for `"` and `\`, any other backslash is itself, a lone `"`
      closes the field. */
  function ReadStringField(s: string): (r: Option<(string, string)>)
    decreases |s|
  {
    if |s| == 0 then None
    else if s[0] == '"' then Some(("", s[1..]))
    else if s[0] == '\\' && |s| >= 2 && (s[1] == '"' || s[1] == '\\') then
      match ReadStringField(s[2..])
      case Some((v, rest)) => Some(([s[1]] + v, rest))
      case None => None
    else
      match ReadStringField(s[1..])
      case Some((v, rest)) => Some(([s[0]] + v, rest))
      case None => None
  }

  /** With both characters escaped, every description reads back. */
  lemma {:induction false} ReadStringFieldInverse(v: string, tail: string)
    ensures ReadStringField(EscapeStringContent(v) + "\"" + tail) == Some((v, tail))
    decreases |v|
  {
    var s := EscapeStringContent(v) + "\"" + tail;
    if |v| == 0 {
      assert s == "\"" + tail;
      assert s[1..] == tail;
    } else {
      ReadStringFieldInverse(v[1..], tail);
      var inner := EscapeStringContent(v[1..]) + "\"" + tail;
      if v[0] == '"' || v[0] == '\\' {
        assert s == ['\\', v[0]] + inner;
        assert s[2..] == inner;
      } else {
        assert s == [v[0]] + inner;
        assert s[1..] == inner;
      }
      assert [v[0]] + v[1..] == v;
    }
  }

  /** The corrected field reads back as the description. */
  lemma FieldStringRoundTrip(v: string)
    ensures ReadStringField(EscapeFieldString(v)[1..]) == Some((v, ""))
  {
    ReadStringFieldInverse(v, "");
    assert EscapeFieldString(v)[1..] == EscapeStringContent(v) + "\"" + "";
  }

  /** As written, a description ending in a backslash does not read back: the
      backslash escapes the closing quote and the field never ends. */
  lemma TrailingBackslashBreaksField()
    ensures EscapeFieldStringAsWritten("a\\") == "\"a\\\""
    ensures ReadStringField(EscapeFieldStringAsWritten("a\\")[1..]) == None
  {
    var s := EscapeFieldStringAsWritten("a\\")[1..];
    assert ReplaceAll("a\\", '"', "\\\"") == "a\\";
    assert s == "a\\\"";
    assert s[1..] == "\\\"";
    assert s[1..][2..] == "";
  }

  /* -------------------------------- the line ------------------------------- */

  /** The measurement every threshold line writes to. */
  const Measurement := "metric_thresholds"

  /** One tag: its key, `=`, its escaped value. */
  function TagPair(key: string, value: string): string
  {
    key + "=" + EscapeTag(value)
  }

  /** Tags written one after the other, separated by `,`. */
  function TagList(tags: seq<(string, string)>): string
  {
    if |tags| == 0 then ""
    else if |tags| == 1 then TagPair(tags[0].0, tags[0].1)
    else TagPair(tags[0].0, tags[0].1) + "," + TagList(tags[1..])
  }

  /** The four tags of a threshold, in this fixed order. */
  function ThresholdTags(metricName: string, scopeType: string, scopeValue: string, level: string): seq<(string, string)>
  {
    [("metric_name", metricName), ("scope_type", scopeType), ("scope_value", scopeValue), ("level", level)]
  }

  /** The tag set of a threshold line. */
  function TagSet(metricName: string, scopeType: string, scopeValue: string, level: string): string
  {
    TagList(ThresholdTags(metricName, scopeType, scopeValue, level))
  }

  /** One field: its key, `=`, its written value. */
  function FieldPair(key: string, value: string): string
  {
    key + "=" + value
  }

  /** The field set: `min_value`, `max_value`, and `description` only when a
      non-empty one is given (`if (description)`), its value written by
      `escape`. Numbers are written with `String(x)`. */
  function FieldSetWith(escape: string -> string, minValue: Num, maxValue: Num, description: Option<string>): string
  {
    var bounds := [FieldPair("min_value", NumText(minValue)), FieldPair("max_value", NumText(maxValue))];
    match description
    case Some(d) =>
      if d != "" then Join(bounds + [FieldPair("description", escape(d))], ",") else Join(bounds, ",")
    case None => Join(bounds, ",")
  }

  /** The field set with the corrected description escape. */
  function FieldSet(minValue: Num, maxValue: Num, description: Option<string>): string
  {
    FieldSetWith(EscapeFieldString, minValue, maxValue, description)
  }

  /** The field set as the program writes it. */
  function FieldSetAsWritten(minValue: Num, maxValue: Num, description: Option<string>): string
  {
    FieldSetWith(EscapeFieldStringAsWritten, minValue, maxValue, description)
  }

  /** The corrected field set is the program's whenever the description holds
      no backslash. */
  lemma FieldSetAgrees(minValue: Num, maxValue: Num, description: Option<string>)
    requires description.Some? ==> '\\' !in description.value
    ensures FieldSet(minValue, maxValue, description) == FieldSetAsWritten(minValue, maxValue, description)
  {
    if description.Some? {
      EscapeFieldStringAgrees(description.value);
    }
  }

  /** The threshold line: measurement, a comma, the tags, one space, the fields. */
  function ThresholdLine(metricName: string, scopeType: string, scopeValue: string, level: string,
                         minValue: Num, maxValue: Num, description: Option<string>): (line: string)
    ensures Measurement + "," <= line
  {
    Measurement + "," + TagSet(metricName, scopeType, scopeValue, level) + " " + FieldSet(minValue, maxValue, description)
  }

  /** The fields hold the description exactly when a non-empty one is given. */
  lemma FieldSetShape(minValue: Num, maxValue: Num, description: Option<string>)
    ensures var bounds := FieldPair("min_value", NumText(minValue)) + "," + FieldPair("max_value", NumText(maxValue));
      && (description.Some? && description.value != "" ==>
            FieldSet(minValue, maxValue, description) == bounds + "," + FieldPair("description", EscapeFieldString(description.value)))
      && (description.None? || description.value == "" ==> FieldSet(minValue, maxValue, description) == bounds)
  {
    var a := FieldPair("min_value", NumText(minValue));
    var b := FieldPair("max_value", NumText(maxValue));
    JoinTwo(a, b, ",");
    if description.Some? && description.value != "" {
      var d := FieldPair("description", EscapeFieldString(description.value));
      assert [a, b] + [d] == [a] + [b, d];
      JoinCons(a, [b, d], ",");
      JoinTwo(b, d, ",");
      assert a + "," + (b + "," + d) == a + "," + b + "," + d;
    }
  }

  /** Reads the tag set: `key=value` pairs separated by `,`, ending at the
      first unescaped space. Keys are read up to `=`. */
  function ReadTags(s: string, n: nat): Option<(seq<(string, string)>, string)>
    decreases n
  {
    if n == 0 then Some(([], s))
    else
      var key := KeyPrefix(s);
      if |key| == |s| then None
      else
        var (value, rest) := ReadTagValue(s[|key| + 1..]);
        if n == 1 then Some(([(key, value)], rest))
        else if |rest| > 0 && rest[0] == ',' then
          match ReadTags(rest[1..], n - 1)
          case Some((more, after)) => Some(([(key, value)] + more, after))
          case None => None
        else None
  }

  /** The text before the first `=`, or all of `s` when there is none. */
  function KeyPrefix(s: string): (k: string)
    ensures k <= s && '=' !in k
    ensures |k| < |s| ==> s[|k|] == '='
  {
    if |s| == 0 || s[0] == '=' then "" else [s[0]] + KeyPrefix(s[1..])
  }

  /** A key without `=` followed by `=` and more is read as that key. */
  lemma {:induction false} KeyPrefixOf(key: string, rest: string)
    requires '=' !in key
    ensures KeyPrefix(key + "=" + rest) == key
    decreases |key|
  {
    if |key| > 0 {
      KeyPrefixOf(key[1..], rest);
      assert (key + "=" + rest)[1..] == key[1..] + "=" + rest;
      assert [key[0]] + key[1..] == key;
    } else {
      assert (key + "=" + rest)[0] == '=';
    }
  }

  /** One `key=value` pair followed by a tail reads back as the key and the value. */
  lemma ReadPair(key: string, v: string, tail: string)
    requires '=' !in key && '\\' !in v
    requires tail == "" || tail[0] == ',' || tail[0] == ' '
    ensures var s := TagPair(key, v) + tail;
      && KeyPrefix(s) == key
      && ReadTagValue(s[|key| + 1..]) == (v, tail)
  {
    var s := TagPair(key, v) + tail;
    KeyPrefixOf(key, EscapeTag(v) + tail);
    assert s == key + "=" + (EscapeTag(v) + tail);
    assert s[|key| + 1..] == EscapeTag(v) + tail;
    EscapeTagIsPerCharacter(v);
    ReadTagValueInverse(v, tail);
  }

  /** A pair followed by `,` and more pairs reads as the pair, then the rest. */
  lemma ReadTagsStep(key: string, v: string, more: string, n: nat, rest: seq<(string, string)>, after: string)
    requires '=' !in key && '\\' !in v && n >= 2
    requires ReadTags(more, n - 1) == Some((rest, after))
    ensures ReadTags(TagPair(key, v) + "," + more, n) == Some(([(key, v)] + rest, after))
  {
    var s := TagPair(key, v) + "," + more;
    ReadPair(key, v, "," + more);
    assert s == TagPair(key, v) + ("," + more);
    assert ("," + more)[1..] == more;
  }

  /** The same step, with the pairs after the first ending at the fields. */
  lemma ReadTagsBeforeFields(key: string, v: string, tl: string, fields: string, n: nat, rest: seq<(string, string)>)
    requires '=' !in key && '\\' !in v && n >= 2
    requires ReadTags(tl + " " + fields, n - 1) == Some((rest, " " + fields))
    ensures ReadTags(TagPair(key, v) + "," + tl + " " + fields, n) == Some(([(key, v)] + rest, " " + fields))
  {
    var first := TagPair(key, v);
    assert first + "," + tl + " " + fields == first + "," + (tl + " " + fields) by {
      Assoc(first + "," + tl, " ", fields);
      Assoc(first + ",", tl, " " + fields);
    }
    ReadTagsStep(key, v, tl + " " + fields, n, rest, " " + fields);
  }

  /** The last pair, followed by the space before the fields. */
  lemma ReadTagsLast(key: string, v: string, fields: string)
    requires '=' !in key && '\\' !in v
    ensures ReadTags(TagPair(key, v) + " " + fields, 1) == Some(([(key, v)], " " + fields))
  {
    ReadPair(key, v, " " + fields);
    assert TagPair(key, v) + " " + fields == TagPair(key, v) + (" " + fields);
  }

  /** Tags without `=` in their keys and `\\` in their values read back, in
      order, and the reader stops at the space after them. */
  lemma {:induction false} TagListRoundTrip(tags: seq<(string, string)>, fields: string)
    requires |tags| >= 1
    requires forall i :: 0 <= i < |tags| ==> '=' !in tags[i].0 && '\\' !in tags[i].1
    ensures ReadTags(TagList(tags) + " " + fields, |tags|) == Some((tags, " " + fields))
    decreases |tags|
  {
    var (key, v) := tags[0];
    if |tags| == 1 {
      ReadTagsLast(key, v, fields);
      assert [(key, v)] == tags;
    } else {
      var rest := tags[1..];
      assert forall i :: 0 <= i < |rest| ==> rest[i] == tags[i + 1];
      TagListRoundTrip(rest, fields);
      var first := TagPair(key, v);
      var tl := TagList(rest);
      assert TagList(tags) == first + "," + tl;
      assert '=' !in key && '\\' !in v;
      ReadTagsBeforeFields(key, v, tl, fields, |tags|, rest);
      assert [(key, v)] + rest == tags;
    }
  }

  /** The tag set of a line reads back as the four tags, in order, with their
      values unescaped, and the reader stops at the space before the fields
      (for values without backslashes). */
  lemma TagSetRoundTrip(metricName: string, scopeType: string, scopeValue: string, level: string, fields: string)
    requires '\\' !in metricName && '\\' !in scopeType && '\\' !in scopeValue && '\\' !in level
    ensures ReadTags(TagSet(metricName, scopeType, scopeValue, level) + " " + fields, 4)
      == Some((ThresholdTags(metricName, scopeType, scopeValue, level), " " + fields))
  {
    TagListRoundTrip(ThresholdTags(metricName, scopeType, scopeValue, level), fields);
  }

  /** A threshold line reads back as its measurement, its four tags in order,
      and, after the one space, its field set. */
  lemma ThresholdLineRoundTrip(metricName: string, scopeType: string, scopeValue: string, level: string,
                               minValue: Num, maxValue: Num, description: Option<string>)
    requires '\\' !in metricName && '\\' !in scopeType && '\\' !in scopeValue && '\\' !in level
    ensures var line := ThresholdLine(metricName, scopeType, scopeValue, level, minValue, maxValue, description);
      && line[..|Measurement| + 1] == Measurement + ","
      && ReadTags(line[|Measurement| + 1..], 4)
           == Some((ThresholdTags(metricName, scopeType, scopeValue, level), " " + FieldSet(minValue, maxValue, description)))
  {
    var fields := FieldSet(minValue, maxValue, description);
    var tags := TagSet(metricName, scopeType, scopeValue, level);
    var line := ThresholdLine(metricName, scopeType, scopeValue, level, minValue, maxValue, description);
    assert line == Measurement + "," + (tags + " " + fields);
    assert line[|Measurement| + 1..] == tags + " " + fields;
    TagSetRoundTrip(metricName, scopeType, scopeValue, level, fields);
  }

  /** The scopes a threshold can have. */
  datatype Scope = Global | Location | SensorId

  /** The tag value of a scope. */
  function ScopeName(scope: Scope): string
  {
    match scope
    case Global => "global"
    case Location => "location"
    case SensorId => "sensor_id"
  }

  /** `writeThreshold`: the line it posts, and the outcome, given the
      response's status and text (`respond`, for the HTTP request). A status
      outside 200-299 becomes an error naming the status and the text. */
  function WriteThreshold(metricName: string, scope: Scope, scopeValue: string, level: string,
                          minValue: Num, maxValue: Num, description: Option<string>,
                          respond: string -> (int, string)): (out: (string, Result<(), string>))
    ensures Measurement + "," <= out.0
    ensures '\\' !in metricName && '\\' !in scopeValue && '\\' !in level ==>
      ReadTags(out.0[|Measurement| + 1..], 4)
        == Some((ThresholdTags(metricName, ScopeName(scope), scopeValue, level), " " + FieldSet(minValue, maxValue, description)))
    ensures var (status, text) := respond(out.0);
      && (out.1.Ok? <==> 200 <= status <= 299)
      && (out.1.Err? ==> out.1.error == "Threshold write failed (" + IntToString(status) + "): " + text)
  {
    var line := ThresholdLine(metricName, ScopeName(scope), scopeValue, level, minValue, maxValue, description);
    assert line[..|Measurement| + 1] == Measurement + ",";
    assert '\\' !in metricName && '\\' !in scopeValue && '\\' !in level ==>
      ReadTags(line[|Measurement| + 1..], 4)
        == Some((ThresholdTags(metricName, ScopeName(scope), scopeValue, level), " " + FieldSet(minValue, maxValue, description))) by {
      if '\\' !in metricName && '\\' !in scopeValue && '\\' !in level {
        assert '\\' !in ScopeName(scope);
        ThresholdLineRoundTrip(metricName, ScopeName(scope), scopeValue, level, minValue, maxValue, description);
      }
    }
    var (status, text) := respond(line);
    if 200 <= status <= 299 then (line, Ok(()))
    else (line, Err("Threshold write failed (" + IntToString(status) + "): " + text))
  }

  /** The line posted is the program's line whenever the description holds no
      backslash: the same tags and the same fields. */
  lemma WriteThresholdAsWritten(metricName: string, scope: Scope, scopeValue: string, level: string,
                                minValue: Num, maxValue: Num, description: Option<string>,
                                respond: string -> (int, string))
    requires description.Some? ==> '\\' !in description.value
    ensures WriteThreshold(metricName, scope, scopeValue, level, minValue, maxValue, description, respond).0
      == Measurement + "," + TagSet(metricName, ScopeName(scope), scopeValue, level) + " "
         + FieldSetAsWritten(minValue, maxValue, description)
  {
    FieldSetAgrees(minValue, maxValue, description);
  }
}
