/**
 * `json_to_dataframe`: finds the per-day records at
 * `data[0].screen_data.data`, rewrites each record's `date` from epoch
 * seconds to its UTC `YYYY-MM-DD` text in place, builds a DataFrame of the
 * records and keeps the columns `date, price, open, high, low, perc_chg`.
 *
 * `Transformed` states the whole outcome as a function of the decoded JSON;
 * `JsonToDataFrame` and `ConvertDates` do the same work the way the source
 * does, with the records in an array that the date loop updates in place.
 */
module Transform {
  import opened Wrappers
  import opened Json
  import opened Calendar
  import opened Frames

  /** The projected columns, in their output order. */
  const Columns: seq<string> := ["date", "price", "open", "high", "low", "perc_chg"]

  /** The projected columns other than `date`, copied from the records unchanged. */
  const PassThrough: seq<string> := ["price", "open", "high", "low", "perc_chg"]

  /**
   * What a record's `date` becomes.  The lemmas below hold for any
   * conversion; `json_to_dataframe` uses `ConvertDate`, whose own properties
   * are stated next to it.
   */
  type DateConversion = Value -> Result<string, Error>

  // ---------------------------------------------------------------------
  // datetime.utcfromtimestamp(v).strftime('%Y-%m-%d')
  // ---------------------------------------------------------------------

  /** The integer nearest `x`, ties going to the even one. */
  function RoundHalfEven(x: real): (n: int)
    ensures x - 0.5 <= n as real <= x + 0.5
    ensures (n as real == x - 0.5 || n as real == x + 0.5) ==> n % 2 == 0
  {
    var f := x.Floor;
    var frac := x - f as real;
    if frac < 0.5 then f
    else if frac > 0.5 then f + 1
    else if f % 2 == 0 then f
    else f + 1
  }

  /**
   * The whole seconds `utcfromtimestamp` takes from its argument: an int as
   * it is, a bool as 0 or 1, a float rounded half-even to microseconds and
   * then floored to the second; any other value raises TypeError.
   */
  function TimestampSeconds(v: Value): (r: Result<int, Error>)
    ensures r.Ok? <==> v.Int? || v.Bool? || v.Float?
    ensures v.Int? ==> r == Ok(v.i)
    ensures v.Bool? ==> r == Ok(if v.b then 1 else 0)
    ensures v.Float? ==> r.Ok? && r.value * 1000000 <= RoundHalfEven(v.x * 1000000.0) < (r.value + 1) * 1000000
    ensures r.Err? ==> r.error == TypeError
  {
    match v
    case Int(t) => Ok(t)
    case Bool(b) => Ok(if b then 1 else 0)
    case Float(x) => Ok(RoundHalfEven(x * 1000000.0) / 1000000)
    case _ => Err(TypeError)
  }

  /** The range of a 64-bit `time_t`. */
  const MinTimeT: int := -0x8000_0000_0000_0000
  const MaxTimeT: int := 0x7FFF_FFFF_FFFF_FFFF

  /**
   * The text a record's `date` becomes.  Seconds that do not fit a `time_t`
   * raise OverflowError; a `time_t` outside the years 1 to 9999 raises
   * ValueError when `datetime` is built from its broken-down time.
   */
  function ConvertDate(v: Value): (r: Result<string, Error>)
    ensures r.Ok? <==> TimestampSeconds(v).Ok? && MinTimestamp <= TimestampSeconds(v).value <= MaxTimestamp
    ensures TimestampSeconds(v).Err? ==> r == Err(TypeError)
    ensures TimestampSeconds(v).Ok? && r.Err? ==>
      r.error == (if MinTimeT <= TimestampSeconds(v).value <= MaxTimeT then ValueError else OverflowError)
  {
    var t :- TimestampSeconds(v);
    if t < MinTimeT || MaxTimeT < t then Err(OverflowError)
    else
      match UtcDate(t)
      case None => Err(ValueError)
      case Some(d) => Ok(DateText(d))
  }

  /** A converted `date` is the `YYYY-MM-DD` text of the UTC day that contains the timestamp. */
  lemma ConvertDateDenotesDay(v: Value)
    requires ConvertDate(v).Ok?
    ensures ParseDateText(ConvertDate(v).value).Some?
    ensures var d := ParseDateText(ConvertDate(v).value).value;
      var t := TimestampSeconds(v).value;
      ValidDate(d) && DaysSinceEpoch(d) * SecondsPerDay <= t < (DaysSinceEpoch(d) + 1) * SecondsPerDay
  {
    ParseDateTextInverse(UtcDate(TimestampSeconds(v).value).value);
  }

  /** The date text of 1700000000 seconds. */
  lemma ConvertDateExample()
    ensures ConvertDate(Int(1700000000)) == Ok("2023-11-14")
  {
    RecentExample();
    DateTextExample();
  }

  // ---------------------------------------------------------------------
  // for item in screen_data: item["date"] = ...
  // ---------------------------------------------------------------------

  /** One record after its `date` has been rewritten. */
  function ConvertItem(v: Value, convert: DateConversion): (r: Result<map<string, Value>, Error>)
    ensures r.Ok? <==> v.Obj? && "date" in v.fields && convert(v.fields["date"]).Ok?
    ensures r.Ok? ==> r.value.Keys == v.fields.Keys
    ensures r.Ok? ==> r.value["date"] == Str(convert(v.fields["date"]).value)
    ensures r.Ok? ==> forall k :: k in v.fields && k != "date" ==> r.value[k] == v.fields[k]
    ensures v.Obj? && "date" !in v.fields ==> r == Err(KeyError("date"))
    ensures v.Obj? && "date" in v.fields && convert(v.fields["date"]).Err? ==> r == Err(convert(v.fields["date"]).error)
    ensures !v.Obj? ==> r == Err(TypeError)
  {
    match v
    case Obj(m) =>
      if "date" in m then
        var text :- convert(m["date"]);
        Ok(m["date" := Str(text)])
      else
        Err(KeyError("date"))
    case _ => Err(TypeError)   // `item["date"]` on a list, string, number or None
  }

  /** All records converted in order; the first record that fails decides the exception. */
  function ConvertAll(xs: seq<Value>, convert: DateConversion): (r: Result<seq<map<string, Value>>, Error>)
    ensures r.Ok? <==> forall i :: 0 <= i < |xs| ==> ConvertItem(xs[i], convert).Ok?
    ensures r.Ok? ==> |r.value| == |xs|
    ensures r.Ok? ==> forall i :: 0 <= i < |xs| ==> r.value[i] == ConvertItem(xs[i], convert).value
    ensures r.Err? ==> exists k :: 0 <= k < |xs| && ConvertItem(xs[k], convert) == Err(r.error)
                                   && forall j :: 0 <= j < k ==> ConvertItem(xs[j], convert).Ok?
  {
    if xs == [] then Ok([])
    else
      var init :- ConvertAll(xs[..|xs| - 1], convert);
      var last :- ConvertItem(xs[|xs| - 1], convert);
      Ok(init + [last])
  }

  /** The records the DataFrame is built from, once every item is a dict. */
  function FieldsOf(vs: seq<Value>): (ms: seq<map<string, Value>>)
    ensures |ms| == |vs|
    ensures forall i :: 0 <= i < |vs| && vs[i].Obj? ==> ms[i] == vs[i].fields
  {
    seq(|vs|, i requires 0 <= i < |vs| => if vs[i].Obj? then vs[i].fields else map[])
  }

  /** A run of records that all convert gives the conversions in order. */
  lemma ConvertAllSucceeds(xs: seq<Value>, convert: DateConversion, ms: seq<map<string, Value>>)
    requires |ms| == |xs|
    requires forall i :: 0 <= i < |xs| ==> ConvertItem(xs[i], convert) == Ok(ms[i])
    ensures ConvertAll(xs, convert) == Ok(ms)
  {
    var r := ConvertAll(xs, convert);
    assert r.Ok?;
    assert r.value == ms;
  }

  /** A run of records whose first failure is at `k` raises that record's exception. */
  lemma ConvertAllFails(xs: seq<Value>, convert: DateConversion, k: int)
    requires 0 <= k < |xs| && ConvertItem(xs[k], convert).Err?
    requires forall j :: 0 <= j < k ==> ConvertItem(xs[j], convert).Ok?
    ensures ConvertAll(xs, convert) == Err(ConvertItem(xs[k], convert).error)
  {
    var r := ConvertAll(xs, convert);
    assert r.Err?;
    var k' :| 0 <= k' < |xs| && ConvertItem(xs[k'], convert) == Err(r.error)
              && forall j :: 0 <= j < k' ==> ConvertItem(xs[j], convert).Ok?;
    assert k' == k;
  }

  /**
   * The date loop of `json_to_dataframe`, on the list object `items`.  It
   * stops at the first item that raises; the `done` items before it have
   * been rewritten and the rest are untouched.
   */
  method ConvertDates(items: array<Value>, convert: DateConversion) returns (done: nat, r: Result<(), Error>)
    modifies items
    ensures done <= items.Length
    ensures forall k :: 0 <= k < done ==>
      ConvertItem(old(items[k]), convert).Ok? && items[k] == Obj(ConvertItem(old(items[k]), convert).value)
    ensures forall k :: done <= k < items.Length ==> items[k] == old(items[k])
    ensures r.Ok? ==> done == items.Length
    ensures r.Err? ==> done < items.Length && ConvertItem(old(items[done]), convert) == Err(r.error)
    ensures ConvertAll(old(items[..]), convert) == if r.Ok? then Ok(FieldsOf(items[..])) else Err(r.error)
  {
    done := 0;
    while done < items.Length
      invariant 0 <= done <= items.Length
      invariant forall k :: 0 <= k < done ==>
        ConvertItem(old(items[k]), convert).Ok? && items[k] == Obj(ConvertItem(old(items[k]), convert).value)
      invariant forall k :: done <= k < items.Length ==> items[k] == old(items[k])
    {
      var item := items[done];
      if !item.Obj? {
        r := Err(TypeError);
        break;
      }
      if "date" !in item.fields {
        r := Err(KeyError("date"));
        break;
      }
      var text := convert(item.fields["date"]);
      if text.Err? {
        r := Err(text.error);
        break;
      }
      items[done] := Obj(item.fields["date" := Str(text.value)]);
      done := done + 1;
    }
    if done == items.Length {
      r := Ok(());
      ConvertAllSucceeds(old(items[..]), convert, FieldsOf(items[..]));
    } else {
      ConvertAllFails(old(items[..]), convert, done);
    }
  }

  // ---------------------------------------------------------------------
  // json_to_dataframe
  // ---------------------------------------------------------------------

  /** `json_data['data'][0]['screen_data']['data']`. */
  function ScreenData(json: Value): (r: Result<Value, Error>)
    ensures r.Ok? <==>
      && json.Obj? && "data" in json.fields
      && json.fields["data"].Arr? && json.fields["data"].items != []
      && json.fields["data"].items[0].Obj? && "screen_data" in json.fields["data"].items[0].fields
      && json.fields["data"].items[0].fields["screen_data"].Obj?
      && "data" in json.fields["data"].items[0].fields["screen_data"].fields
    ensures r.Ok? ==> r.value == json.fields["data"].items[0].fields["screen_data"].fields["data"]
  {
    var top :- Subscript(json, "data");
    var first :- First(top);
    var screen :- Subscript(first, "screen_data");
    Subscript(screen, "data")
  }

  /**
   * The items the date loop visits.  Iterating a dict visits its keys, which
   * are strings and so raise at `item["date"]`; an empty dict and an empty
   * list both leave an empty DataFrame; `pd.DataFrame("")` raises ValueError.
   */
  function ScreenItems(sd: Value): (r: Result<seq<Value>, Error>)
    ensures sd.Arr? ==> r == Ok(sd.items)
    ensures r.Ok? ==> r.value == [] || sd.Arr?
    ensures r.Ok? <==> sd.Arr? || sd == Obj(map[])
    ensures r.Err? ==> r.error == (if sd == Str("") then ValueError else TypeError)
  {
    match sd
    case Arr(xs) => Ok(xs)
    case Obj(m) => if m == map[] then Ok([]) else Err(TypeError)
    case Str(s) => if s == "" then Err(ValueError) else Err(TypeError)
    case _ => Err(TypeError)
  }

  /** The records converted, framed and projected onto `Columns`. */
  function FrameOf(xs: seq<Value>, convert: DateConversion): (r: Result<Frame, Error>)
    ensures r.Ok? ==> r.value.columns == Columns && r.value.Rectangular()
  {
    var recs :- ConvertAll(xs, convert);
    Select(FromRecords(recs), Columns)
  }

  /** The outcome of `json_to_dataframe` with a given date conversion:
      the projected frame, None, or the exception raised. */
  function TransformWith(json: Value, convert: DateConversion): (r: Result<Option<Frame>, Error>)
    ensures r == Ok(None) <==> Contains(json, "data") == Ok(false)
    ensures r.Ok? && r.value.Some? ==> r.value.value.columns == Columns && r.value.value.Rectangular()
  {
    var has :- Contains(json, "data");
    if !has then Ok(None)
    else
      var sd :- ScreenData(json);
      var xs :- ScreenItems(sd);
      var frame :- FrameOf(xs, convert);
      Ok(Some(frame))
  }

  /** The outcome of `json_to_dataframe(json)`: None exactly when the
      payload has no `data`, a frame of the six columns exactly when it is
      accepted with the dates converted as `ConvertDate` does. */
  function Transformed(json: Value): (r: Result<Option<Frame>, Error>)
    ensures r == Ok(None) <==> Contains(json, "data") == Ok(false)
    ensures (r.Ok? && r.value.Some?) <==> PayloadAccepted(json, ConvertDate)
    ensures r.Ok? && r.value.Some? ==> r.value.value.columns == Columns && r.value.value.Rectangular()
  {
    TransformSucceedsIff(json, ConvertDate);
    TransformWith(json, ConvertDate)
  }

  /** `json_to_dataframe`, with the in-place date loop. */
  method JsonToDataFrame(json: Value) returns (r: Result<Option<Frame>, Error>)
    ensures r == Transformed(json)
  {
    var has := Contains(json, "data");
    if has.Err? {
      return Err(has.error);
    }
    if !has.value {
      return Ok(None);
    }
    var sd := ScreenData(json);
    if sd.Err? {
      return Err(sd.error);
    }
    var listed := ScreenItems(sd.value);
    if listed.Err? {
      return Err(listed.error);
    }
    var xs := listed.value;
    var items := new Value[|xs|](i requires 0 <= i < |xs| => xs[i]);
    assert items[..] == xs;
    var done, converted := ConvertDates(items, ConvertDate);
    if converted.Err? {
      return Err(converted.error);
    }
    var selected := Select(FromRecords(FieldsOf(items[..])), Columns);
    if selected.Err? {
      return Err(selected.error);
    }
    return Ok(Some(selected.value));
  }

  // ---------------------------------------------------------------------
  // Properties of the outcome, for any date conversion.
  // ---------------------------------------------------------------------

  /** The records the transformer accepts: a non-empty list of dicts, each with
      a convertible `date`, and each other projected key in some record. */
  predicate RecordsAccepted(xs: seq<Value>, convert: DateConversion) {
    && |xs| > 0
    && (forall i :: 0 <= i < |xs| ==>
          xs[i].Obj? && "date" in xs[i].fields && convert(xs[i].fields["date"]).Ok?)
    && (forall j :: 0 <= j < |PassThrough| ==>
          exists i :: 0 <= i < |xs| && PassThrough[j] in xs[i].fields)
  }

  /** The payloads the transformer turns into a frame. */
  predicate PayloadAccepted(json: Value, convert: DateConversion) {
    && json.Obj? && "data" in json.fields
    && var top := json.fields["data"];
    && top.Arr? && |top.items| > 0
    && var first := top.items[0];
    && first.Obj? && "screen_data" in first.fields
    && var screen := first.fields["screen_data"];
    && screen.Obj? && "data" in screen.fields
    && var list := screen.fields["data"];
    && list.Arr? && RecordsAccepted(list.items, convert)
  }

  /** The row one record becomes: its converted `date`, its five other
      projected values unchanged (NaN where it lacks one), nothing else. */
  predicate RowOf(item: Value, row: Row, convert: DateConversion)
    requires item.Obj? && "date" in item.fields && convert(item.fields["date"]).Ok?
  {
    && row.Keys == (set c | c in Columns)
    && "date" in row && row["date"] == Val(Str(convert(item.fields["date"]).value))
    && forall j :: 0 <= j < |PassThrough| ==>
         PassThrough[j] in row &&
         row[PassThrough[j]] == if PassThrough[j] in item.fields then Val(item.fields[PassThrough[j]]) else Missing
  }

  /** Which columns the DataFrame of the converted records has. */
  lemma ColumnsOfConverted(xs: seq<Value>, convert: DateConversion, recs: seq<map<string, Value>>)
    requires ConvertAll(xs, convert) == Ok(recs)
    ensures forall c :: c in FromRecords(recs).columns <==> exists i :: 0 <= i < |xs| && c in xs[i].fields
    ensures "date" in FromRecords(recs).columns <==> |xs| > 0
  {
    ConvertedKeys(xs, convert, recs);
    ColumnsOfRecords(xs, recs);
  }

  /** Converting keeps each record's keys, `date` among them. */
  lemma ConvertedKeys(xs: seq<Value>, convert: DateConversion, recs: seq<map<string, Value>>)
    requires ConvertAll(xs, convert) == Ok(recs)
    ensures |recs| == |xs|
    ensures forall i :: 0 <= i < |xs| ==> xs[i].Obj? && recs[i].Keys == xs[i].fields.Keys && "date" in recs[i]
  {
  }

  /** The columns of records that have the keys of `xs`, `date` among them. */
  lemma ColumnsOfRecords(xs: seq<Value>, recs: seq<map<string, Value>>)
    requires |recs| == |xs|
    requires forall i :: 0 <= i < |xs| ==> xs[i].Obj? && recs[i].Keys == xs[i].fields.Keys && "date" in recs[i]
    ensures forall c :: c in FromRecords(recs).columns <==> exists i :: 0 <= i < |xs| && c in xs[i].fields
    ensures "date" in FromRecords(recs).columns <==> |xs| > 0
  {
    if |xs| > 0 {
      assert "date" in recs[0];
    }
  }

  /** The projected columns are `date` followed by the five passed through. */
  lemma ColumnsSplit()
    ensures Columns == ["date"] + PassThrough
    ensures "date" !in PassThrough
  {
  }

  /** Accepted records yield a frame. */
  lemma AcceptedRecordsFrame(xs: seq<Value>, convert: DateConversion)
    requires RecordsAccepted(xs, convert)
    ensures FrameOf(xs, convert).Ok?
  {
    assert ConvertAll(xs, convert).Ok?;
    var recs := ConvertAll(xs, convert).value;
    ConvertedKeys(xs, convert, recs);
    ProjectableRecords(xs, recs);
  }

  /** Records with the keys of accepted records have every projected column. */
  lemma ProjectableRecords(xs: seq<Value>, recs: seq<map<string, Value>>)
    requires |recs| == |xs| > 0
    requires forall i :: 0 <= i < |xs| ==> xs[i].Obj? && recs[i].Keys == xs[i].fields.Keys && "date" in recs[i]
    requires forall j :: 0 <= j < |PassThrough| ==> exists i :: 0 <= i < |xs| && PassThrough[j] in xs[i].fields
    ensures forall c :: c in Columns ==> c in FromRecords(recs).columns
  {
    var ks := KeysOf(recs);
    assert "date" in recs[0];
    forall j | 0 <= j < |PassThrough|
      ensures PassThrough[j] in ks
    {
      var i :| 0 <= i < |xs| && PassThrough[j] in xs[i].fields;
      assert PassThrough[j] in recs[i];
    }
    ColumnsSplit();
    assert forall c :: c in Columns ==> c in ks;
  }

  /** Records that yield a frame are accepted. */
  lemma FramedRecordsAccepted(xs: seq<Value>, convert: DateConversion)
    requires FrameOf(xs, convert).Ok?
    ensures RecordsAccepted(xs, convert)
  {
    var recs := ConvertAll(xs, convert).value;
    ColumnsOfConverted(xs, convert, recs);
    var t := FromRecords(recs);
    assert "date" in t.columns;
    forall j | 0 <= j < |PassThrough|
      ensures exists i :: 0 <= i < |xs| && PassThrough[j] in xs[i].fields
    {
      assert PassThrough[j] in Columns;
      assert PassThrough[j] in t.columns;
    }
    forall i | 0 <= i < |xs|
      ensures xs[i].Obj? && "date" in xs[i].fields && convert(xs[i].fields["date"]).Ok?
    {
      assert ConvertItem(xs[i], convert).Ok?;
    }
  }

  /** The transformer yields a frame exactly for the accepted payloads. */
  lemma TransformSucceedsIff(json: Value, convert: DateConversion)
    ensures (TransformWith(json, convert).Ok? && TransformWith(json, convert).value.Some?)
        <==> PayloadAccepted(json, convert)
  {
    var sd := ScreenData(json);
    if sd.Ok? && ScreenItems(sd.value).Ok? {
      var xs := ScreenItems(sd.value).value;
      if RecordsAccepted(xs, convert) {
        AcceptedRecordsFrame(xs, convert);
      }
      if FrameOf(xs, convert).Ok? {
        FramedRecordsAccepted(xs, convert);
      }
    }
  }

  /** A frame has one row per record, in the records' order, each row made of
      that record alone. */
  lemma TransformRows(json: Value, convert: DateConversion, f: Frame)
    requires TransformWith(json, convert) == Ok(Some(f))
    ensures PayloadAccepted(json, convert)
    ensures f.columns == Columns
    ensures var xs := ScreenData(json).value.items;
      && |f.rows| == |xs|
      && forall i :: 0 <= i < |xs| ==> RowOf(xs[i], f.rows[i], convert)
  {
    TransformSucceedsIff(json, convert);
    FrameRows(ScreenData(json).value.items, convert, f);
  }

  /** The rows of the frame the records yield, record by record. */
  lemma FrameRows(xs: seq<Value>, convert: DateConversion, f: Frame)
    requires FrameOf(xs, convert) == Ok(f)
    ensures RecordsAccepted(xs, convert)
    ensures |f.rows| == |xs| && forall i :: 0 <= i < |xs| ==> RowOf(xs[i], f.rows[i], convert)
  {
    FramedRecordsAccepted(xs, convert);
    var recs := ConvertAll(xs, convert).value;
    var t := FromRecords(recs);
    forall i | 0 <= i < |xs|
      ensures RowOf(xs[i], f.rows[i], convert)
    {
      var rec := ConvertItem(xs[i], convert).value;
      assert recs[i] == rec;
      RowOfRecord(xs[i], convert, rec, f.rows[i]);
    }
  }

  /** A projected row built from one converted record is that record's row. */
  lemma RowOfRecord(item: Value, convert: DateConversion, rec: map<string, Value>, row: Row)
    requires ConvertItem(item, convert) == Ok(rec)
    requires row.Keys == (set c | c in Columns)
    requires forall c :: c in Columns && c in rec ==> row[c] == Val(rec[c])
    requires forall c :: c in Columns && c !in rec ==> row[c] == Missing
    ensures RowOf(item, row, convert)
  {
    ColumnsSplit();
    assert Columns[0] == "date";
    forall j | 0 <= j < |PassThrough|
      ensures PassThrough[j] in row
      ensures row[PassThrough[j]] ==
        if PassThrough[j] in item.fields then Val(item.fields[PassThrough[j]]) else Missing
    {
      assert Columns[j + 1] == PassThrough[j];
    }
  }

  /** Projecting the transformer's frame onto the same columns again changes nothing. */
  lemma TransformProjectionIdempotent(json: Value, convert: DateConversion, f: Frame)
    requires TransformWith(json, convert) == Ok(Some(f))
    ensures Select(f.AsTable(), Columns) == Ok(f)
  {
    var xs := ScreenItems(ScreenData(json).value).value;
    var t := FromRecords(ConvertAll(xs, convert).value);
    SelectIdempotent(t, Columns);
  }

  /** A record without `date` makes the transformer raise, whatever the other records hold. */
  lemma MissingDateRaises(json: Value, convert: DateConversion, i: int)
    requires ScreenData(json).Ok? && ScreenData(json).value.Arr?
    requires 0 <= i < |ScreenData(json).value.items|
    requires var item := ScreenData(json).value.items[i]; item.Obj? && "date" !in item.fields
    ensures TransformWith(json, convert).Err?
  {
    TransformSucceedsIff(json, convert);
  }

  /** A pass-through column that no record has makes the projection fail;
      one that only some records lack is NaN in theirs (see `RowOf`). */
  lemma AbsentColumnRaises(json: Value, convert: DateConversion, j: int)
    requires ScreenData(json).Ok? && ScreenData(json).value.Arr?
    requires 0 <= j < |PassThrough|
    requires var xs := ScreenData(json).value.items;
      forall i :: 0 <= i < |xs| && xs[i].Obj? ==> PassThrough[j] !in xs[i].fields
    ensures TransformWith(json, convert).Err?
  {
    TransformSucceedsIff(json, convert);
  }

  /** `data` present but no records: the frame has no columns, and the
      projection raises KeyError naming none of the six as present. */
  lemma NoRecordsRaises(json: Value, convert: DateConversion)
    requires ScreenData(json) == Ok(Arr([]))
    ensures TransformWith(json, convert) == Err(NoneOfColumns(Columns))
  {
    assert FromRecords([]).columns == {};
  }

  /** `screen_data.data` that is neither a list nor an empty dict: the loop
      raises TypeError (an empty string gets past it, and `pd.DataFrame("")`
      raises ValueError). */
  lemma NonListItemsRaise(json: Value, convert: DateConversion)
    requires ScreenData(json).Ok?
    requires var sd := ScreenData(json).value; !sd.Arr? && sd != Obj(map[])
    ensures TransformWith(json, convert) == Err(if ScreenData(json).value == Str("") then ValueError else TypeError)
  {
  }

  /** `data` present but an empty list: indexing `[0]` raises IndexError. */
  lemma EmptyDataRaises(m: map<string, Value>, convert: DateConversion)
    requires "data" in m && m["data"] == Arr([])
    ensures TransformWith(Obj(m), convert) == Err(IndexError)
  {
  }

  /** A payload holding one provider record, with an extra `volume` field. */
  function SampleRecord(): map<string, Value> {
    map["date" := Int(1700000000), "price" := Float(1.5), "open" := Float(1.25),
        "high" := Float(2.0), "low" := Float(1.0), "perc_chg" := Float(0.5), "volume" := Int(100)]
  }

  function SamplePayload(): Value {
    Obj(map["data" := Arr([Obj(map["screen_data" := Obj(map["data" := Arr([Obj(SampleRecord())])])])])])
  }

  /** `volume` is not one of the projected columns. */
  lemma VolumeNotProjected()
    ensures "volume" !in (set c | c in Columns)
  {
    forall k | 0 <= k < |Columns|
      ensures Columns[k] != "volume"
    {
      assert |Columns[k]| != |"volume"|;
    }
  }

  /** The sample payload is accepted whenever its timestamp converts. */
  lemma SampleAccepted(convert: DateConversion)
    requires convert(Int(1700000000)).Ok?
    ensures PayloadAccepted(SamplePayload(), convert)
    ensures ScreenData(SamplePayload()) == Ok(Arr([Obj(SampleRecord())]))
    ensures "date" in SampleRecord() && SampleRecord()["date"] == Int(1700000000)
    ensures "price" in SampleRecord() && SampleRecord()["price"] == Float(1.5)
  {
    var rec := SampleRecord();
    assert "date" in rec && rec["date"] == Int(1700000000);
    var xs := [Obj(rec)];
    assert xs[0].fields == rec;
    forall j | 0 <= j < |PassThrough|
      ensures exists i :: 0 <= i < |xs| && PassThrough[j] in xs[i].fields
    {
      assert PassThrough[j] in xs[0].fields;
    }
  }

  /** The sample record becomes one row, whatever the conversion makes of its timestamp. */
  lemma SampleFrame(convert: DateConversion, text: string)
    requires convert(Int(1700000000)) == Ok(text)
    ensures TransformWith(SamplePayload(), convert).Ok? && TransformWith(SamplePayload(), convert).value.Some?
    ensures var f := TransformWith(SamplePayload(), convert).value.value;
      && |f.rows| == 1
      && "date" in f.rows[0] && f.rows[0]["date"] == Val(Str(text))
      && "price" in f.rows[0] && f.rows[0]["price"] == Val(Float(1.5))
      && "volume" !in f.rows[0]
  {
    SampleAccepted(convert);
    TransformSucceedsIff(SamplePayload(), convert);
    var f := TransformWith(SamplePayload(), convert).value.value;
    TransformRows(SamplePayload(), convert, f);
    var item := ScreenData(SamplePayload()).value.items[0];
    assert RowOf(item, f.rows[0], convert);
    assert PassThrough[0] == "price";
    VolumeNotProjected();
  }

  /** `json_to_dataframe` on the sample payload: the date becomes 2023-11-14 and `volume` is dropped. */
  lemma TransformedExample()
    ensures Transformed(SamplePayload()).Ok? && Transformed(SamplePayload()).value.Some?
    ensures var f := Transformed(SamplePayload()).value.value;
      && |f.rows| == 1
      && "date" in f.rows[0] && f.rows[0]["date"] == Val(Str("2023-11-14"))
      && "price" in f.rows[0] && f.rows[0]["price"] == Val(Float(1.5))
      && "volume" !in f.rows[0]
  {
    ConvertDateExample();
    SampleFrame(ConvertDate, "2023-11-14");
  }
}
