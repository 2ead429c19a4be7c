/** Reading the annotated CSV answers of InfluxDB in the earlier dashboard
    screens (`utils/mqttworkingfine.tsx`, `assets/bkp3.tsx`,
    `utils/firebaseworking.tsx`, `utils/threshholdswrokingfine.tsx`): the tag
    values of a `schema.tagValues` answer, and the record of the latest point,
    paired from a header line and a value line. */
module LegacyCsv {
  import opened Wrappers
  import opened Text
  import opened JsValues
  import opened Sequences

  /* ------------------------------ tag values ------------------------------ */

  /** `l.startsWith('#')`: an annotation line. */
  predicate IsComment(l: string)
  {
    |l| > 0 && l[0] == '#'
  }

  /** A line that carries a value: not an annotation, and holding a `,`. */
  predicate IsDataLine(l: string)
  {
    !IsComment(l) && ',' in l
  }

  /** Trimming never brings in a character. */
  lemma TrimKeepsOut(s: string, c: char)
    requires c !in s
    ensures c !in Trim(s)
  {
    TrimShape(s);
  }

  /** `l.split(',').pop().trim()`: the trimmed text after the last `,`. */
  function LastCell(l: string): (v: string)
    ensures ',' !in v
  {
    LastPieceShape(l, ',');
    TrimKeepsOut(LastPiece(l, ','), ',');
    Trim(LastPiece(l, ','))
  }

  /** The lines of `csv.trim().split('\n')`. */
  function Lines(csv: string): seq<string>
  {
    Split(Trim(csv), '\n')
  }

  /** The last cells of the data lines, in line order. */
  function DataCells(csv: string): (r: seq<string>)
    ensures forall i :: 0 <= i < |r| ==> ',' !in r[i]
  {
    Map(Filter(Lines(csv), IsDataLine), LastCell)
  }

  /** A cell comes from some data line exactly when it is that line's last cell. */
  lemma DataCellsMembership(csv: string, v: string)
    ensures v in DataCells(csv) <==> exists l :: l in Lines(csv) && IsDataLine(l) && LastCell(l) == v
  {
    var lines := Lines(csv);
    var kept := Filter(lines, IsDataLine);
    var cells := DataCells(csv);
    if v in cells {
      var k :| 0 <= k < |cells| && cells[k] == v;
      FilterMembership(lines, IsDataLine, kept[k]);
      assert kept[k] in lines && IsDataLine(kept[k]) && LastCell(kept[k]) == v;
    }
    if exists l :: l in lines && IsDataLine(l) && LastCell(l) == v {
      var l :| l in lines && IsDataLine(l) && LastCell(l) == v;
      FilterMembership(lines, IsDataLine, l);
      MapHas(kept, LastCell, l);
    }
  }

  /** The tag-value extraction inline in `utils/firebaseworking.tsx`: the column
      header `_value` is dropped, blank cells are kept. */
  function TagValues(csv: string): (r: seq<string>)
    ensures forall i :: 0 <= i < |r| ==> ',' !in r[i] && r[i] != "_value"
  {
    var r := Filter(DataCells(csv), (v: string) => v != "_value");
    assert forall i :: 0 <= i < |r| ==> r[i] in DataCells(csv) by {
      forall i | 0 <= i < |r|
        ensures r[i] in DataCells(csv)
      {
        FilterMembership(DataCells(csv), (v: string) => v != "_value", r[i]);
      }
    }
    r
  }

  /** `lastField(csv)`: as the extraction above, and blank cells dropped too. */
  function LastField(csv: string): (r: seq<string>)
    ensures forall i :: 0 <= i < |r| ==> ',' !in r[i] && r[i] != "_value" && r[i] != ""
  {
    var r := Filter(DataCells(csv), (v: string) => v != "_value" && v != "");
    assert forall i :: 0 <= i < |r| ==> r[i] in DataCells(csv) by {
      forall i | 0 <= i < |r|
        ensures r[i] in DataCells(csv)
      {
        FilterMembership(DataCells(csv), (v: string) => v != "_value" && v != "", r[i]);
      }
    }
    r
  }

  /** A value is listed by `lastField` exactly when it is the non-blank last
      cell of a data line, other than `_value`. */
  lemma LastFieldMembership(csv: string, v: string)
    ensures v in LastField(csv) <==>
      (v != "_value" && v != "" && exists l :: l in Lines(csv) && IsDataLine(l) && LastCell(l) == v)
  {
    FilterMembership(DataCells(csv), (v: string) => v != "_value" && v != "", v);
    DataCellsMembership(csv, v);
  }

  /** `lastField` is the firebaseworking extraction with the blank values
      dropped: the two differ only in blank cells. */
  lemma LastFieldDropsBlanks(csv: string)
    ensures LastField(csv) == Filter(TagValues(csv), (v: string) => v != "")
  {
    FilterFilter(DataCells(csv), (v: string) => v != "_value", (v: string) => v != "",
                 (v: string) => v != "_value" && v != "");
  }

  /* ------------------------- the latest-point record ------------------------ */

  /** The lines of the answer that are neither annotations nor blank. */
  function ContentLines(csv: string): seq<string>
  {
    Filter(Lines(csv), (l: string) => !IsComment(l) && Trim(l) != "")
  }

  /** `v.replace(/^"|"$/g, '')`: a quote removed from each end where present. */
  function StripQuotes(v: string): string
  {
    var a := if |v| > 0 && v[0] == '"' then v[1..] else v;
    if |a| > 0 && a[|a| - 1] == '"' then a[..|a| - 1] else a
  }

  /** A quoted cell loses exactly its two quotes. */
  lemma StripQuotesOfQuoted(x: string)
    ensures StripQuotes("\"" + x + "\"") == x
  {
    var v := "\"" + x + "\"";
    assert v[1..] == x + "\"";
  }

  /** A cell without outer quotes is kept as it is. */
  lemma StripQuotesOfPlain(x: string)
    requires |x| == 0 || (x[0] != '"' && x[|x| - 1] != '"')
    ensures StripQuotes(x) == x
  {
  }

  /** `rec[k] = v` on a plain object: an existing key keeps its place and takes
      the new value, a new key goes last. */
  function Put<V>(e: Entries<V>, k: string, v: V): Entries<V>
  {
    if |e| == 0 then [(k, v)]
    else if e[0].0 == k then [(k, v)] + e[1..]
    else [e[0]] + Put(e[1..], k, v)
  }

  /** After `rec[k] = v`, `k` reads `v` and every other key reads as before. */
  lemma {:induction false} PutGet<V>(e: Entries<V>, k: string, v: V, j: string)
    ensures Get(Put(e, k, v), j) == if j == k then Some(v) else Get(e, j)
    decreases |e|
  {
    if |e| > 0 && e[0].0 != k {
      PutGet(e[1..], k, v, j);
      assert Put(e, k, v)[1..] == Put(e[1..], k, v);
    } else if |e| > 0 {
      assert Put(e, k, v)[1..] == e[1..];
    }
  }

  /** The keys stay in place; a new key is appended. */
  lemma {:induction false} PutKeys<V>(e: Entries<V>, k: string, v: V)
    ensures KeysOf(Put(e, k, v)) == if k in KeysOf(e) then KeysOf(e) else KeysOf(e) + [k]
    decreases |e|
  {
    if |e| > 0 {
      assert KeysOf(e) == [e[0].0] + KeysOf(e[1..]);
      if e[0].0 == k {
        assert KeysOf(Put(e, k, v)) == [k] + KeysOf(e[1..]);
      } else {
        PutKeys(e[1..], k, v);
        var r := Put(e, k, v);
        assert r == [e[0]] + Put(e[1..], k, v);
        assert KeysOf(r) == [e[0].0] + KeysOf(Put(e[1..], k, v));
      }
    }
  }

  /** `rec[k] = v` keeps the keys distinct. */
  lemma PutDistinct<V>(e: Entries<V>, k: string, v: V)
    requires DistinctKeys(e)
    ensures DistinctKeys(Put(e, k, v))
  {
    PutKeys(e, k, v);
    var r := Put(e, k, v);
    var ks := KeysOf(r);
    var before := KeysOf(e);
    forall i, j | 0 <= i < j < |r|
      ensures r[i].0 != r[j].0
    {
      assert r[i].0 == ks[i] && r[j].0 == ks[j];
      if k in before {
        assert ks[i] == e[i].0 && ks[j] == e[j].0;
      } else if j < |e| {
        assert ks[i] == before[i] == e[i].0 && ks[j] == before[j] == e[j].0;
      } else {
        assert ks[j] == k && ks[i] == before[i];
      }
    }
  }

  /** `vals[i] || ''`: the value at `i`, or `''` past the end. */
  function Cell(vals: seq<string>, i: nat): string
  {
    if i < |vals| then vals[i] else ""
  }

  /** `hdr.forEach((h, i) => rec[h] = vals[i] || '')`. */
  function PairRecord(hdr: seq<string>, vals: seq<string>): Entries<string>
  {
    if |hdr| == 0 then []
    else Put(PairRecord(hdr[..|hdr| - 1], vals), hdr[|hdr| - 1], Cell(vals, |hdr| - 1))
  }

  /** The record has each header once, and nothing else. */
  lemma {:induction false} PairRecordShape(hdr: seq<string>, vals: seq<string>)
    ensures DistinctKeys(PairRecord(hdr, vals))
    ensures forall k :: k in KeysOf(PairRecord(hdr, vals)) <==> k in hdr
    decreases |hdr|
  {
    if |hdr| > 0 {
      var n := |hdr| - 1;
      PairRecordShape(hdr[..n], vals);
      PutDistinct(PairRecord(hdr[..n], vals), hdr[n], Cell(vals, n));
      PutKeys(PairRecord(hdr[..n], vals), hdr[n], Cell(vals, n));
      assert hdr == hdr[..n] + [hdr[n]];
    }
  }

  /** The last header's write decides what it reads; every other key reads
      as in the record of the headers before it. */
  lemma PairRecordGet(hdr: seq<string>, vals: seq<string>, k: string)
    requires |hdr| > 0
    ensures Get(PairRecord(hdr, vals), k) ==
      if k == hdr[|hdr| - 1] then Some(Cell(vals, |hdr| - 1)) else Get(PairRecord(hdr[..|hdr| - 1], vals), k)
  {
    var n := |hdr| - 1;
    PutGet(PairRecord(hdr[..n], vals), hdr[n], Cell(vals, n), k);
  }

  /** Each header reads the value in its own position, or, when it is
      repeated, the value at its last occurrence. */
  lemma {:induction false} PairRecordValues(hdr: seq<string>, vals: seq<string>, i: nat)
    requires i < |hdr|
    requires forall j :: i < j < |hdr| ==> hdr[j] != hdr[i]
    ensures Get(PairRecord(hdr, vals), hdr[i]) == Some(Cell(vals, i))
    decreases |hdr|
  {
    var n := |hdr| - 1;
    PairRecordGet(hdr, vals, hdr[i]);
    if i < n {
      var front := hdr[..n];
      forall j | i < j < |front|
        ensures front[j] != front[i]
      {
        assert front[j] == hdr[j] && front[i] == hdr[i];
      }
      PairRecordValues(front, vals, i);
      assert front[i] == hdr[i];
    }
  }

  /** With distinct headers the record's keys are the headers, in order. */
  lemma {:induction false} PairRecordKeys(hdr: seq<string>, vals: seq<string>)
    requires forall i, j :: 0 <= i < j < |hdr| ==> hdr[i] != hdr[j]
    ensures KeysOf(PairRecord(hdr, vals)) == hdr
    decreases |hdr|
  {
    if |hdr| > 0 {
      var n := |hdr| - 1;
      PairRecordKeys(hdr[..n], vals);
      PutKeys(PairRecord(hdr[..n], vals), hdr[n], Cell(vals, n));
      assert hdr[n] !in hdr[..n];
      assert hdr[..n] + [hdr[n]] == hdr;
    }
  }

  /** The record of the latest point: headers from the first content line
      (trimmed), values from the second, each passed through `clean`; `None`
      when there are fewer than two content lines. */
  function LatestRecord(csv: string, clean: string -> string): (r: Option<Entries<string>>)
    ensures r.None? <==> |ContentLines(csv)| < 2
    ensures r.Some? ==> forall k :: k in KeysOf(r.value) <==> k in Map(Split(ContentLines(csv)[0], ','), Trim)
  {
    var lines := ContentLines(csv);
    if |lines| < 2 then None
    else
      var hdr := Map(Split(lines[0], ','), Trim);
      PairRecordShape(hdr, Map(Split(lines[1], ','), clean));
      Some(PairRecord(hdr, Map(Split(lines[1], ','), clean)))
  }

  /** The cleaning of `utils/firebaseworking.tsx`: outer quotes removed. */
  function CleanQuoted(v: string): string
  {
    StripQuotes(v)
  }

  /** The cleaning of `utils/threshholdswrokingfine.tsx`: trimmed, then outer
      quotes removed. */
  function CleanTrimmed(v: string): string
  {
    StripQuotes(Trim(v))
  }
}
