/**
 * The CSV half of `exportData` (app.js:871-887): a header and one row per
 * day in key order, each field passed through `csvEscape`, fields joined by
 * commas and rows by line feeds.
 */
module Export {
  import opened Wrappers
  import opened Strings
  import opened Calendar
  import opened Escape
  import opened Days

  const Header: seq<string> :=
    ["date", "outcome1", "done1", "outcome2", "done2", "outcome3", "done3",
     "imUp", "babyUp", "napStart", "napEnd"]

  /** `d.outcomes?.[i] || ""`. */
  function OutcomeField(d: DayRecord, i: nat): string {
    if i < |d.outcomes| then d.outcomes[i] else ""
  }

  /** `d.outcomesDone?.[i] ? "1" : "0"`. */
  function DoneField(d: DayRecord, i: nat): (r: string)
    ensures r == "1" <==> i < |d.outcomesDone| && d.outcomesDone[i]
    ensures r == "1" || r == "0"
  {
    if i < |d.outcomesDone| && d.outcomesDone[i] then "1" else "0"
  }

  /**
   * `ts ? new Date(ts).toISOString() : ""`; `None` is the RangeError
   * `toISOString` throws for a time outside the representable range.
   */
  function StampField(x: Stamp): (r: Option<string>)
    ensures r.None? <==> IsSet(x) && !ValidTime(x.ms)
    ensures r == Some("") <==> !IsSet(x)
  {
    if !IsSet(x) then Some("")
    else if ValidTime(x.ms) then
      var s := IsoString(x.ms);
      assert s[|s| - 1] == 'Z';
      Some(s)
    else None
  }

  /**
   * The event columns of a row, one per name in order; `None` when one of
   * the logged times cannot be written.
   */
  function EventCells(d: DayRecord, names: seq<string>): (r: Option<seq<string>>)
    ensures r.Some? ==> |r.value| == |names|
    ensures r.None? <==>
      exists i :: 0 <= i < |names| && IsSet(Field(d.events, names[i])) && !ValidTime(Field(d.events, names[i]).ms)
  {
    if names == [] then Some([])
    else match (StampField(Field(d.events, names[0])), EventCells(d, names[1..]))
      case (Some(cell), Some(rest)) => Some([cell] + rest)
      case (None, _) => None
      case (_, None) =>
        var i :| 0 <= i < |names[1..]| &&
          IsSet(Field(d.events, names[1..][i])) && !ValidTime(Field(d.events, names[1..][i]).ms);
        assert names[i + 1] == names[1..][i];
        None
  }

  /** The row of one day: key, three outcome/flag pairs and the four event times. */
  function Row(k: string, d: DayRecord): (r: Option<seq<string>>)
    ensures r.Some? ==> |r.value| == |Header| && r.value[0] == k
  {
    match EventCells(d, EventNames)
    case None => None
    case Some(times) =>
      Some([k,
            OutcomeField(d, 0), DoneField(d, 0),
            OutcomeField(d, 1), DoneField(d, 1),
            OutcomeField(d, 2), DoneField(d, 2)] + times)
  }

  /** A row fails only when a logged event time is out of range. */
  lemma RowDefined(k: string, d: DayRecord)
    ensures Row(k, d).Some? <==>
      forall e :: e in EventNames ==> !IsSet(Field(d.events, e)) || ValidTime(Field(d.events, e).ms)
  {
    assert forall e :: e in EventNames <==> exists i :: 0 <= i < |EventNames| && EventNames[i] == e;
  }

  /** The rows for `keys` in that order; `None` as soon as one fails. */
  function Rows(keys: seq<string>, days: map<string, DayRecord>): (r: Option<seq<seq<string>>>)
    requires forall k :: k in keys ==> k in days
    ensures r.Some? ==> |r.value| == |keys|
  {
    if keys == [] then Some([])
    else
      var last := keys[|keys| - 1];
      match (Rows(keys[..|keys| - 1], days), Row(last, days[last]))
      case (Some(rest), Some(row)) => Some(rest + [row])
      case _ => None
  }

  /** The export succeeds exactly when every day's row does, and then holds those rows in key order. */
  lemma {:induction false} RowsEach(keys: seq<string>, days: map<string, DayRecord>)
    requires forall k :: k in keys ==> k in days
    ensures Rows(keys, days).Some? <==> forall i :: 0 <= i < |keys| ==> Row(keys[i], days[keys[i]]).Some?
    ensures Rows(keys, days).Some? ==>
      forall i :: 0 <= i < |keys| ==> Rows(keys, days).value[i] == Row(keys[i], days[keys[i]]).value
  {
    if keys != [] {
      var n := |keys|;
      var init, last := keys[..n - 1], keys[n - 1];
      RowsEach(init, days);
      var rest, row := Rows(init, days), Row(last, days[last]);
      if rest.Some? && row.Some? {
        assert Rows(keys, days) == Some(rest.value + [row.value]);
        forall i | 0 <= i < n
          ensures Row(keys[i], days[keys[i]]).Some?
          ensures Rows(keys, days).value[i] == Row(keys[i], days[keys[i]]).value
        {
          if i < n - 1 {
            assert init[i] == keys[i];
          }
        }
      } else if rest.None? {
        var i :| 0 <= i < |init| && Row(init[i], days[init[i]]).None?;
        assert keys[i] == init[i];
      }
    }
  }

  /** Building the rows one key at a time: the rows of a longer prefix extend those of the shorter one. */
  lemma RowsAppend(keys: seq<string>, days: map<string, DayRecord>, i: int)
    requires forall k :: k in keys ==> k in days
    requires 0 <= i < |keys|
    ensures var rest, row := Rows(keys[..i], days), Row(keys[i], days[keys[i]]);
      Rows(keys[..i + 1], days) == if rest.Some? && row.Some? then Some(rest.value + [row.value]) else None
  {
    assert keys[..i + 1][..i] == keys[..i];
  }

  /** One failing row fails the whole export. */
  lemma RowsFailAt(keys: seq<string>, days: map<string, DayRecord>, i: int)
    requires forall k :: k in keys ==> k in days
    requires 0 <= i < |keys| && Row(keys[i], days[keys[i]]).None?
    ensures Rows(keys, days).None?
  {
    RowsEach(keys, days);
  }

  /** `r.map(csvEscape).join(",")`. */
  function CsvLine(fields: seq<string>): string {
    Join(EscapeAll(fields), ",")
  }

  function EscapeAll(fields: seq<string>): (r: seq<string>)
    ensures |r| == |fields| && forall i :: 0 <= i < |fields| ==> r[i] == CsvEscape(fields[i])
  {
    if fields == [] then [] else [CsvEscape(fields[0])] + EscapeAll(fields[1..])
  }

  function CsvLines(rows: seq<seq<string>>): (r: seq<string>)
    ensures |r| == |rows| && forall i :: 0 <= i < |rows| ==> r[i] == CsvLine(rows[i])
  {
    if rows == [] then [] else [CsvLine(rows[0])] + CsvLines(rows[1..])
  }

  /** The export text for days listed in `keys` order. */
  function Csv(keys: seq<string>, days: map<string, DayRecord>): Option<string>
    requires forall k :: k in keys ==> k in days
  {
    match Rows(keys, days)
    case None => None
    case Some(rows) => Some(Join(CsvLines([Header] + rows), "\n"))
  }
}
