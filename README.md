# investgo historical-prices service, modelled in Dafny

investgo serves one endpoint, `GET /api/historical_prices`. It takes a
`stock_id`, a `date_from` and a `date_to` from the query string and asks a
market-data provider's screen endpoint for the daily prices of that
instrument. It takes the per-day records at `data[0].screen_data.data` of
the provider's JSON. Each record's `date` is rewritten in place from POSIX
epoch seconds (IEEE Std 1003.1-2017, XBD section 4.16) to the UTC calendar
date, written as an RFC 3339 `full-date` (section 5.6). A pandas DataFrame
is built from the records and projected onto the columns
`date, price, open, high, low, perc_chg`, and the service answers with those
rows. It answers 400 when a query value is missing or empty. It answers 500
when the fetch brought nothing, or when the payload has no `data` key.

The modules follow that pipeline:

- `Wrappers`: `Option` and `Result`.
- `Json`: decoded JSON values and the exceptions the code can raise. It
  also holds the Python operations the code applies to them: truth
  testing, `in`, `v[key]` and `v[0]`.
- `Calendar`: epoch seconds to a proleptic Gregorian date, for the years 1
  to 9999 that `datetime` supports. The date is computed by the
  400/100/4/1-year cycle decomposition (the algorithm of CPython's
  `date.fromordinal`), proved to invert a reference day numbering.
  `utcfromtimestamp` itself takes the date from the C library's `gmtime`,
  which gives the same date. It also writes and reads back the `YYYY-MM-DD`
  text.
- `Frames`: the DataFrame built from a list of records, and projection
  onto a list of columns.
- `Transform`: `json_to_dataframe`. Its outcome is a function of the
  decoded JSON. The method `JsonToDataFrame` does the same work with the
  records in an array that the date loop `ConvertDates` rewrites in place.
  The general lemmas take the date conversion as a parameter; `Transformed`
  applies them to the conversion the code uses.
- `Handler`: `historical_prices`, and the status-code branch of
  `get_historical_prices`. The outbound request is a function parameter.

The model follows the code in three places where the code's behaviour is
easy to misread.

- A record that lacks one of `price`, `open`, `high`, `low` or `perc_chg`
  does not make the transformer fail if another record has that field.
  pandas fills the gap with NaN (`Missing` in the model). Only a field that
  every record lacks makes the projection raise KeyError, naming the
  missing columns. A record without
  `date` always raises, at `item["date"]`.
- A `screen_data.data` that is an empty list (or an empty dict) also
  raises KeyError, at the projection. So "data present but empty" fails.
- An exception that escapes the view is a fifth outcome, `Uncaught`.
  Flask answers it with its own 500 page.

## Model

| member | source | states |
|---|---|---|
| Json.Truthy | app.py:75 | a value is falsy exactly when it is None, False, zero, an empty string, an empty list or an empty dict |
| Json.Contains | app.py:53 | `key in v` is key membership for a dict, element membership of the string for a list, and substring for a string; it raises TypeError exactly for numbers, booleans and None |
| Json.Subscript | app.py:54 | `v[key]` succeeds exactly when `v` is a dict holding `key`, and gives that key's value; a dict without it raises KeyError of that key |
| Json.First | app.py:54 | `v[0]` succeeds exactly for a non-empty list or string; on a list it is the first element, and an empty list raises IndexError |
| Calendar.FromOrdinal | app.py:57 | the cycle decomposition of a day number gives a well-formed date whose reference day number is that number |
| Calendar.OrdinalInjective | app.py:57 | two well-formed dates with the same day number are the same date |
| Calendar.FromOrdinalToOrdinal | app.py:57 | converting a date to its day number and back gives the date again |
| Calendar.UtcDate | app.py:57 | a timestamp has a date exactly when it lies in the years 1 to 9999; that date is valid and its day, 86400 seconds long, contains the timestamp |
| Calendar.UtcDateUnique | app.py:57 | the valid date whose day contains a timestamp is the date `UtcDate` gives |
| Calendar.UtcDateMatchesPosix | app.py:57 | from 1970 on, the date's day count is the one given by the XBD 4.16 formula, and that count times 86400 plus the seconds of the day is the timestamp |
| Calendar.EpochExample | app.py:57 | timestamp 0 is 1970-01-01 |
| Calendar.BeforeEpochExample | app.py:57 | timestamp -1 is 1969-12-31 (floor division, not truncation) |
| Calendar.RecentExample | app.py:57 | timestamp 1700000000 is 2023-11-14 |
| Calendar.DateText | app.py:57 | the text of a date is 10 characters, digits apart from dashes at positions 4 and 7 |
| Calendar.ParseDateTextInverse | app.py:57 | reading back the `YYYY-MM-DD` text of a valid date gives the date |
| Calendar.DateTextExample | app.py:57 | 2023-11-14 is written "2023-11-14" |
| Frames.FromRecords | app.py:59 | one row per record in order; the columns are the keys some record has; every row has every column, with its record's value as decoded or NaN |
| Frames.Absent | app.py:61 | the missing labels are exactly the requested columns that do not exist, each once, in the order of its first request |
| Frames.Select | app.py:61 | the projection succeeds exactly when every requested column exists; otherwise it raises pandas' KeyError naming all requested columns when none exists, and the missing ones when some exist; the result has exactly the requested columns in order, the same number of rows, and the same cells |
| Frames.SelectMissingExample | app.py:61 | a frame with only `date`, asked for `date, open, high, open`, raises KeyError naming `open, high` |
| Frames.SelectNoneExample | app.py:61 | a frame without columns raises KeyError naming every requested column |
| Frames.SelectIdempotent | app.py:61 | projecting a projection onto the same columns again gives the same frame |
| Transform.RoundHalfEven | app.py:57 | the result is within one half of the input, and ties go to the even integer |
| Transform.TimestampSeconds | app.py:57 | `utcfromtimestamp` accepts exactly ints, bools and floats: ints as they are, bools as 0/1, floats floored after rounding to microseconds; anything else raises TypeError |
| Transform.ConvertDate | app.py:57 | the conversion succeeds exactly for an accepted timestamp in the years 1 to 9999; an accepted timestamp outside them raises ValueError, or OverflowError when it does not fit a 64-bit `time_t`; anything else raises TypeError |
| Transform.ConvertDateDenotesDay | app.py:57 | a converted `date` reads back as the valid UTC date whose day contains the timestamp |
| Transform.ConvertDateExample | app.py:57 | 1700000000 becomes "2023-11-14" |
| Transform.ConvertItem | app.py:57 | a record converts exactly when it is a dict with a convertible `date`; the result has the same keys and the new `date`, and every other field is unchanged; a dict without `date` raises KeyError("date"), a failing conversion's exception passes through, and a record that is not a dict raises TypeError |
| Transform.ConvertAll | app.py:56-57 | all records convert exactly when each does, in order, with the same count; otherwise the exception is the one of the first record that fails |
| Transform.ConvertAllSucceeds | app.py:56-57 | records whose conversions are all known give exactly those conversions, in order |
| Transform.ConvertAllFails | app.py:56-57 | the first record that fails decides the exception of the whole loop |
| Transform.ConvertDates | app.py:56-57 | the in-place loop rewrites each item it passes and leaves the rest untouched; it stops at the first item that raises; its outcome is the one `ConvertAll` gives on the original items |
| Transform.ScreenData | app.py:54 | the path lookup succeeds exactly when each step is a dict (the list step non-empty) holding the next key, and gives the value at the end of the path |
| Transform.ScreenItems | app.py:56-59 | a list is iterated as its elements; of the other values only an empty dict gets past the loop and the DataFrame constructor, with no items; an empty string raises ValueError (at `pd.DataFrame("")`), anything else TypeError |
| Transform.FrameOf | app.py:59-61 | a frame built from the converted records and projected has exactly the six columns, in order, and every row has each of them |
| Transform.TransformWith | app.py:52-63 | the result is None exactly when the payload supports `in` and has no `data`; a frame has exactly the six columns in order |
| Transform.Transformed | app.py:52-63 | with the dates converted as the code converts them, the result is None exactly when the payload has no `data`, and a frame of the six columns exactly when the payload is accepted |
| Transform.NonListItemsRaise | app.py:56-59 | a `screen_data.data` that is neither a list nor an empty dict makes the transformer raise TypeError, or ValueError for an empty string |
| Transform.JsonToDataFrame | app.py:52-63 | the imperative transformer, with its in-place loop, gives the outcome `Transformed` states |
| Transform.ColumnsOfConverted | app.py:59 | the columns of the converted records are exactly the keys of the original records, `date` among them whenever there is a record |
| Transform.AcceptedRecordsFrame | app.py:56-61 | a non-empty list of dicts with convertible dates, where some record has each pass-through field, yields a frame |
| Transform.FramedRecordsAccepted | app.py:56-61 | records that yield a frame are such a list |
| Transform.TransformSucceedsIff | app.py:53-61 | the transformer yields a frame exactly for payloads whose record list is accepted in that sense |
| Transform.TransformRows | app.py:54-61 | a frame has one row per record of `data[0].screen_data.data`, in order; each row has exactly the six columns, the converted `date`, and the five other fields as decoded (NaN where the record lacks one) |
| Transform.FrameRows | app.py:56-61 | the same, for the records themselves |
| Transform.RowOfRecord | app.py:59-61 | a projected row built from one converted record is that record's row |
| Transform.TransformProjectionIdempotent | app.py:61 | projecting the transformer's frame onto the six columns again changes nothing |
| Transform.MissingDateRaises | app.py:57 | a record without `date` makes the transformer raise, whatever the other records hold |
| Transform.AbsentColumnRaises | app.py:61 | a pass-through field that no record has makes the transformer raise |
| Transform.NoRecordsRaises | app.py:59-61 | an empty record list gives a frame without columns, so the projection raises KeyError naming all six columns |
| Transform.EmptyDataRaises | app.py:54 | an empty `data` list raises IndexError at `[0]` |
| Transform.SampleAccepted | app.py:52-63 | the sample payload is accepted whenever its timestamp converts |
| Transform.SampleFrame | app.py:52-63 | the sample record becomes one row with its converted date and price, and its extra `volume` field is dropped |
| Transform.TransformedExample | app.py:52-63 | on the sample payload, `json_to_dataframe` gives one row dated 2023-11-14 and drops `volume` |
| Handler.Given | app.py:71 | a query value counts as given exactly when it is present and its string is truthy |
| Handler.AllGiven | app.py:71 | the query passes exactly when none of the three values fails `Given`, and then all three are present |
| Handler.FetchOutcome | app.py:47-50 | a 200 response gives its decoded body, any other status gives None, and an exception from the request or the decoding propagates |
| Handler.HistoricalPricesWith | app.py:65-82 | 400 exactly when a query value is missing or empty; "Failed to fetch data" exactly when the fetch gave None or a falsy body; "Failed to convert data to DataFrame" exactly when the truthy body has no `data`; rows exactly when the body is accepted, with the six columns; an exception from the fetch or the transformer escapes as that exception, uncaught |
| Handler.HistoricalPrices | app.py:65-82 | with the code's own date conversion: 400 exactly when a query value is missing or empty; "Failed to fetch data" exactly when the fetch gave None or a falsy body; "Failed to convert data to DataFrame" exactly when the truthy body has no `data`; rows of the six columns exactly when the body is accepted; an exception from the fetch or `json_to_dataframe` escapes as that exception |
| Handler.RepliedRows | app.py:74-78 | the rows of a successful reply are the provider's records, one row each, in order |
| Handler.SampleReply | app.py:65-82 | the sample query answered with the sample payload gives its one row |
| Handler.ReplyExample | app.py:65-82 | end to end, the sample record comes back dated 2023-11-14 |
| Handler.NotFoundExample | app.py:47-50 | a 404 response is a failed fetch, whatever its body holds |

## Left out

- The outbound request: `cloudscraper`, the URL, the fixed query parameters and the header literals. It is network I/O. The model takes its result as the `fetch` parameter.
- `response.json()`: JSON decoding is not modelled. A response carries its decoded body, or the exception decoding raised.
- Flask: routing and the parsing of `request.args` (the model takes the three values as given). Also `jsonify`, `app.run` and the debug-mode error page.
- `df.to_json(orient='records')`: the serialisation of the reply is not modelled. This includes NaN becoming `null`. The reply carries the frame itself.
- The records the caller passed in: the date loop changes the caller's dicts in place, even when a later record raises. `ConvertDates` models this on an array of records. `Transformed` takes an immutable JSON value, so the caller's copy is not modelled as changed.
- pandas column order before the projection. `Frames.Table` keeps a set of columns, because only the projected order is observable.
- Calendar.DateText: always writes the year in four digits. It leaves out that glibc's `strftime('%Y')` may not zero-pad years below 1000.
- Transform.TimestampSeconds: models a float as an exact real. It leaves out binary floating-point error, NaN and infinities (which raise ValueError or OverflowError in CPython).
- Transform.ConvertDate: assumes a 64-bit `time_t` and reports every in-range `time_t` outside the years 1 to 9999 as ValueError. It leaves out that glibc's `gmtime` fails with EOVERFLOW, which CPython raises as OSError, for a timestamp whose year does not fit a C `int` (beyond about 6.7 × 10^16 seconds from the epoch).
- Frames.FromRecords: keeps each cell as the decoded JSON value. It leaves out pandas' dtype inference: an int column that also holds NaN or a float becomes float64, and a JSON null in a numeric column becomes NaN. Transform.TransformRows and Transform.RowOf state the cells the same way, so they promise the values before that coercion.
- Exception messages: the model keeps the exception's type. It keeps the key for a dict's KeyError, and the column list for the projection's KeyError. Other message texts are not modelled.
- examples/basic_usage.py and setup.py: usage examples and packaging, with no logic of the service.
