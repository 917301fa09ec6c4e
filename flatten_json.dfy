/** The scan-flattening pipeline's decision logic: which scan files fall in
    a date window, and how one decoded scan line becomes flat table rows. */
module FlattenJson {
  import opened PyRuntime

  // ---------------------------------------------------------------------
  // Decoded JSON and the output row layout
  // ---------------------------------------------------------------------

  /** A value as json.loads returns it (numbers restricted to integers). */
  datatype Json =
    | JNull
    | JBool(b: bool)
    | JInt(i: int)
    | JString(s: string)
    | JArray(items: seq<Json>)
    | JObject(fields: map<string, Json>)

  /** The outcome of json.loads on one line of a scan file. */
  datatype Load = JsonDecodeError | Loaded(value: Json)

  /** bigquery_schema: the output table's columns and their BigQuery types. */
  const BigquerySchema: map<string, string> := map[
    "domain" := "string",
    "ip" := "string",
    "date" := "date",
    "start_time" := "timestamp",
    "end_time" := "timestamp",
    "retries" := "integer",
    "sent" := "string",
    "received" := "string",
    "error" := "string",
    "blocked" := "boolean",
    "success" := "boolean",
    "fail_sanity" := "boolean",
    "stateful_block" := "boolean"
  ]

  /** Keys of the scan record that every row reads. */
  const ScanKeys: set<string> :=
    {"Keyword", "Server", "Retries", "Blocked", "FailSanity", "StatefulBlock"}

  /** Keys of a result entry that every row reads with [] (not .get). */
  const ResultKeys: set<string> := {"StartTime", "EndTime", "Sent", "Success"}

  /** d[key] on a dict. */
  function Get(d: map<string, Json>, key: string): Result<Json>
  {
    if key in d then Ok(d[key]) else Raise(KeyError(key))
  }

  /** d.get(key, default). */
  function GetOr(d: map<string, Json>, key: string, default: Json): Json
  {
    if key in d then d[key] else default
  }

  /** v[key] with a str key only works on a dict; on anything else it raises TypeError. */
  function AsDict(v: Json): Result<map<string, Json>>
  {
    if v.JObject? then Ok(v.fields) else Raise(TypeError)
  }

  /** Values on which v[:10] works. (A dict raises TypeError: a slice is not a hashable key.) */
  predicate Sliceable(v: Json) { v.JString? || v.JArray? }

  /** v[:10]: the first ten characters of a str or items of a list. */
  function FirstTen(v: Json): (r: Result<Json>)
    ensures r.Ok? <==> Sliceable(v)
    ensures v.JString? ==> r == Ok(JString(v.s[..Min(10, |v.s|)]))
    ensures v.JArray? ==> r == Ok(JArray(v.items[..Min(10, |v.items|)]))
    ensures r.Raise? ==> r.error == TypeError
  {
    match v
    case JString(s) => Ok(JString(Slice(s, 0, 10)))
    case JArray(xs) => Ok(JArray(Slice(xs, 0, 10)))
    case _ => Raise(TypeError)
  }

  /** `for result in v`: a list yields its items, a str its one-character
      strs, a dict its keys (all strs, so only how many there are matters to
      what follows); anything else is not iterable. */
  function Iterate(v: Json): (r: Result<seq<Json>>)
    ensures v.JArray? ==> r == Ok(v.items)
    ensures r.Ok? <==> v.JArray? || v.JString? || v.JObject?
    ensures r.Raise? ==> r.error == TypeError
  {
    match v
    case JArray(items) => Ok(items)
    case JString(s) => Ok(seq(|s|, k requires 0 <= k < |s| => JString([s[k]])))
    case JObject(m) => Ok(seq(|m|, k => JString([])))
    case _ => Raise(TypeError)
  }

  // ---------------------------------------------------------------------
  // One row per result entry
  // ---------------------------------------------------------------------

  /** A scan record that has every top-level key a row reads. */
  predicate CompleteScan(scan: map<string, Json>) { ScanKeys <= scan.Keys }

  /** A result entry that has every key a row reads with [], and a StartTime that can be sliced. */
  predicate CompleteResult(result: Json)
  {
    result.JObject? && ResultKeys <= result.fields.Keys && Sliceable(result.fields["StartTime"])
  }

  /** One output row: a value for each column of bigquery_schema. */
  datatype Row = Row(
    domain: Json, ip: Json, date: Json, startTime: Json, endTime: Json,
    retries: Json, sent: Json, received: Json, error: Json,
    blocked: Json, success: Json, failSanity: Json, statefulBlock: Json)

  /** The row as the dict flatten_measurement appends: keyed by column name,
      with exactly the columns of bigquery_schema. */
  function RowDict(row: Row): (d: map<string, Json>)
    ensures d.Keys == BigquerySchema.Keys
  {
    map[
      "domain" := row.domain,
      "ip" := row.ip,
      "date" := row.date,
      "start_time" := row.startTime,
      "end_time" := row.endTime,
      "retries" := row.retries,
      "sent" := row.sent,
      "received" := row.received,
      "error" := row.error,
      "blocked" := row.blocked,
      "success" := row.success,
      "fail_sanity" := row.failSanity,
      "stateful_block" := row.statefulBlock
    ]
  }

  /** The row carries the scan's top-level fields. */
  predicate CarriesScanFields(row: Row, scan: map<string, Json>)
    requires CompleteScan(scan)
  {
    && row.domain == scan["Keyword"]
    && row.ip == scan["Server"]
    && row.retries == scan["Retries"]
    && row.blocked == scan["Blocked"]
    && row.failSanity == scan["FailSanity"]
    && row.statefulBlock == scan["StatefulBlock"]
  }

  /** The row carries the result entry's own fields, with '' for a missing
      Received or Error and the first ten characters of StartTime as date. */
  predicate CarriesResultFields(row: Row, entry: map<string, Json>)
    requires ResultKeys <= entry.Keys
  {
    && FirstTen(entry["StartTime"]) == Ok(row.date)
    && row.startTime == entry["StartTime"]
    && row.endTime == entry["EndTime"]
    && row.sent == entry["Sent"]
    && row.success == entry["Success"]
    && row.received == (if "Received" in entry then entry["Received"] else JString(""))
    && row.error == (if "Error" in entry then entry["Error"] else JString(""))
  }

  /** The dict that flatten_measurement appends for one result entry. Its
      values are evaluated in the order of the dict display, so the first
      missing key is the one reported. */
  function BuildRow(scan: map<string, Json>, result: Json): (r: Result<Row>)
    ensures r.Ok? <==> CompleteScan(scan) && CompleteResult(result)
    ensures r.Ok? ==> CarriesScanFields(r.value, scan) && CarriesResultFields(r.value, result.fields)
    ensures r.Raise? ==> r.error == TypeError || r.error.KeyError?
    ensures r.Raise? && r.error.KeyError? ==>
              r.error.key in ScanKeys - scan.Keys
              || (result.JObject? && r.error.key in ResultKeys - result.fields.Keys)
  {
    var domain :- Get(scan, "Keyword");
    var ip :- Get(scan, "Server");
    var entry :- AsDict(result);
    var startTime :- Get(entry, "StartTime");
    var date :- FirstTen(startTime);
    var endTime :- Get(entry, "EndTime");
    var retries :- Get(scan, "Retries");
    var sent :- Get(entry, "Sent");
    var received := GetOr(entry, "Received", JString(""));
    var error := GetOr(entry, "Error", JString(""));
    var blocked :- Get(scan, "Blocked");
    var success :- Get(entry, "Success");
    var failSanity :- Get(scan, "FailSanity");
    var statefulBlock :- Get(scan, "StatefulBlock");
    Ok(Row(domain, ip, date, startTime, endTime, retries, sent, received, error,
           blocked, success, failSanity, statefulBlock))
  }

  /** A loop that stops at the first exception: the first failing attempt's
      exception, or else every attempt's value in order. */
  function Collect<T>(attempts: seq<Result<T>>): (r: Result<seq<T>>)
    ensures r.Ok? <==> forall i :: 0 <= i < |attempts| ==> attempts[i].Ok?
    ensures r.Ok? ==> |r.value| == |attempts|
    ensures r.Ok? ==> forall i :: 0 <= i < |attempts| ==> r.value[i] == attempts[i].value
    ensures r.Raise? ==>
              exists k :: 0 <= k < |attempts| && attempts[k] == Raise(r.error)
                          && forall i :: 0 <= i < k ==> attempts[i].Ok?
    decreases |attempts|
  {
    if attempts == [] then Ok([])
    else
      var n := |attempts| - 1;
      var init := Collect(attempts[..n]);
      assert forall i :: 0 <= i < n ==> attempts[..n][i] == attempts[i];
      if init.Raise? then Raise(init.error)
      else if attempts[n].Raise? then Raise(attempts[n].error)
      else Ok(init.value + [attempts[n].value])
  }

  /** Collecting one more attempt after a successful prefix. */
  lemma CollectSnoc<T>(attempts: seq<Result<T>>, k: nat, rows: seq<T>)
    requires k < |attempts| && Collect(attempts[..k]) == Ok(rows)
    ensures Collect(attempts[..k + 1]) ==
              if attempts[k].Raise? then Raise(attempts[k].error) else Ok(rows + [attempts[k].value])
  {
    assert attempts[..k + 1][..k] == attempts[..k];
  }

  /** The first failing attempt decides the exception. */
  lemma CollectFirstFailure<T>(attempts: seq<Result<T>>, k: nat)
    requires k < |attempts| && attempts[k].Raise?
    requires forall i :: 0 <= i < k ==> attempts[i].Ok?
    ensures Collect(attempts) == Raise(attempts[k].error)
  {
    var r := Collect(attempts);
    var j :| 0 <= j < |attempts| && attempts[j] == Raise(r.error)
             && forall i :: 0 <= i < j ==> attempts[i].Ok?;
    assert j == k;
  }

  /** One attempt per result entry, in order. */
  function RowAttempts(scan: map<string, Json>, results: seq<Json>): (a: seq<Result<Row>>)
    ensures |a| == |results| && forall i :: 0 <= i < |results| ==> a[i] == BuildRow(scan, results[i])
  {
    seq(|results|, i requires 0 <= i < |results| => BuildRow(scan, results[i]))
  }

  /** flatten_measurement on a line whose json.loads outcome is `load`: a
      line that does not decode yields no rows (only a logged warning);
      every other failure raises. */
  function Flatten(load: Load): (r: Result<seq<Row>>)
    ensures load.JsonDecodeError? ==> r == Ok([])
  {
    match load
    case JsonDecodeError => Ok([])
    case Loaded(v) =>
      var scan :- AsDict(v);
      var results :- Get(scan, "Results");
      var items :- Iterate(results);
      Collect(RowAttempts(scan, items))
  }

  /** The `for result in scan['Results']` loop of flatten_measurement: append
      one row per entry; an entry whose row raises ends the loop. */
  method AppendRows(scan: map<string, Json>, items: seq<Json>) returns (outcome: Result<seq<Row>>)
    ensures outcome == Collect(RowAttempts(scan, items))
  {
    var rows: seq<Row> := [];
    var i := 0;
    while i < |items|
      invariant 0 <= i <= |items|
      invariant Collect(RowAttempts(scan, items)[..i]) == Ok(rows)
    {
      var row := BuildRow(scan, items[i]);
      AppendRowsStep(scan, items, i, rows);
      if row.Raise? {
        return Raise(row.error);
      }
      rows := rows + [row.value];
      i := i + 1;
    }
    assert RowAttempts(scan, items)[..i] == RowAttempts(scan, items);
    return Ok(rows);
  }

  /** One more entry after `rows` have been collected from the first i. */
  lemma AppendRowsStep(scan: map<string, Json>, items: seq<Json>, i: nat, rows: seq<Row>)
    requires i < |items| && Collect(RowAttempts(scan, items)[..i]) == Ok(rows)
    ensures BuildRow(scan, items[i]).Raise? ==>
              Collect(RowAttempts(scan, items)) == Raise(BuildRow(scan, items[i]).error)
    ensures BuildRow(scan, items[i]).Ok? ==>
              Collect(RowAttempts(scan, items)[..i + 1]) == Ok(rows + [BuildRow(scan, items[i]).value])
  {
    var attempts := RowAttempts(scan, items);
    CollectSnoc(attempts, i, rows);
    if attempts[i].Raise? {
      assert forall j :: 0 <= j < i ==> attempts[..i][j] == attempts[j];
      CollectFirstFailure(attempts, i);
    }
  }

  /** flatten_measurement: a line that does not decode yields the empty list
      (after a logged warning); otherwise the rows of its Results. */
  method FlattenMeasurement(load: Load) returns (outcome: Result<seq<Row>>)
    ensures outcome == Flatten(load)
  {
    if load.JsonDecodeError? {
      return Ok([]);
    }
    var scan :- AsDict(load.value);
    var results :- Get(scan, "Results");
    var items :- Iterate(results);
    outcome := AppendRows(scan, items);
  }

  // ---------------------------------------------------------------------
  // Properties of the flattening
  // ---------------------------------------------------------------------

  /** Every row flatten_measurement returns, as the dict it appends, has
      exactly the columns of bigquery_schema. */
  lemma FlattenRowsMatchSchema(load: Load)
    requires Flatten(load).Ok?
    ensures forall row :: row in Flatten(load).value ==> RowDict(row).Keys == BigquerySchema.Keys
  {
  }

  /** A decodable scan whose Results is a list of n entries yields exactly n
      rows, the i-th with the schema's columns and built from the i-th entry. */
  lemma FlattenRowPerResult(scan: map<string, Json>, items: seq<Json>)
    requires "Results" in scan && scan["Results"] == JArray(items)
    ensures Flatten(Loaded(JObject(scan))).Ok? ==>
              var rows := Flatten(Loaded(JObject(scan))).value;
              |rows| == |items|
              && forall i :: 0 <= i < |items| ==>
                   CompleteResult(items[i])
                   && CarriesResultFields(rows[i], items[i].fields)
  {
    var r := Flatten(Loaded(JObject(scan)));
    if r.Ok? {
      forall i | 0 <= i < |items|
        ensures CompleteResult(items[i])
                && CarriesResultFields(r.value[i], items[i].fields)
      {
        assert BuildRow(scan, items[i]).Ok?;
      }
    }
  }

  /** Every row of one scan carries that scan's top-level fields, so all rows
      of one scan agree on them. */
  lemma FlattenSharedScanFields(scan: map<string, Json>, items: seq<Json>)
    requires "Results" in scan && scan["Results"] == JArray(items)
    requires Flatten(Loaded(JObject(scan))).Ok?
    requires items != []
    ensures CompleteScan(scan)
    ensures forall row :: row in Flatten(Loaded(JObject(scan))).value ==> CarriesScanFields(row, scan)
  {
    var rows := Flatten(Loaded(JObject(scan))).value;
    assert BuildRow(scan, items[0]).Ok?;
    forall row | row in rows ensures CarriesScanFields(row, scan) {
      var i :| 0 <= i < |rows| && rows[i] == row;
      assert BuildRow(scan, items[i]).Ok?;
    }
  }

  /** An empty Results list yields no rows, whatever else the record lacks:
      the other keys are only read inside the loop. */
  lemma EmptyResultsNoRows(scan: map<string, Json>)
    requires "Results" in scan && scan["Results"] == JArray([])
    ensures Flatten(Loaded(JObject(scan))) == Ok([])
  {
  }

  /** Only decode errors are absorbed: a decodable record with at least one
      entry raises when it lacks a top-level key or its first entry lacks a
      required key; it never yields an empty or partial list. */
  lemma IncompleteRecordRaises(scan: map<string, Json>, items: seq<Json>)
    requires "Results" in scan && scan["Results"] == JArray(items)
    requires items != []
    requires !CompleteScan(scan) || !CompleteResult(items[0])
    ensures Flatten(Loaded(JObject(scan))).Raise?
  {
    assert BuildRow(scan, items[0]).Raise?;
  }

  /** A record without a Results key raises KeyError('Results'). */
  lemma MissingResultsRaises(scan: map<string, Json>)
    requires "Results" !in scan
    ensures Flatten(Loaded(JObject(scan))) == Raise(KeyError("Results"))
  {
  }

  /** A record with complete entries and all top-level keys yields Ok; the
      converse of IncompleteRecordRaises. */
  lemma CompleteRecordFlattens(scan: map<string, Json>, items: seq<Json>)
    requires "Results" in scan && scan["Results"] == JArray(items)
    requires CompleteScan(scan)
    requires forall i :: 0 <= i < |items| ==> CompleteResult(items[i])
    ensures Flatten(Loaded(JObject(scan))).Ok?
    ensures |Flatten(Loaded(JObject(scan))).value| == |items|
  {
    assert forall i :: 0 <= i < |items| ==> BuildRow(scan, items[i]).Ok?;
  }

  /** The record of the docstring example, with only Success in each entry,
      raises KeyError('StartTime') in the code as written. */
  lemma DocstringExampleRaises()
    ensures Flatten(Loaded(JObject(map[
              "Keyword" := JString("test.com"),
              "Server" := JString("1.2.3.4"),
              "Results" := JArray([JObject(map["Success" := JBool(true)]),
                                   JObject(map["Success" := JBool(false)])])])))
            == Raise(KeyError("StartTime"))
  {
    var scan := map[
      "Keyword" := JString("test.com"),
      "Server" := JString("1.2.3.4"),
      "Results" := JArray([JObject(map["Success" := JBool(true)]),
                           JObject(map["Success" := JBool(false)])])];
    var items := scan["Results"].items;
    CollectFirstFailure(RowAttempts(scan, items), 0);
  }

  const SampleEntry: map<string, Json> := map[
    "StartTime" := JString("2020-05-11T00:00:00Z"),
    "EndTime" := JString("2020-05-11T00:00:01Z"),
    "Sent" := JString("GET"),
    "Success" := JBool(true)]

  const SampleScan: map<string, Json> := map[
    "Keyword" := JString("x.com"), "Server" := JString("1.2.3.4"),
    "Retries" := JInt(1), "Blocked" := JBool(true),
    "FailSanity" := JBool(false), "StatefulBlock" := JBool(false),
    "Results" := JArray([JObject(SampleEntry)])]

  lemma SampleIsComplete()
    ensures CompleteScan(SampleScan) && CompleteResult(JObject(SampleEntry))
    ensures "Received" !in SampleEntry && "Error" !in SampleEntry
  {
  }

  /** The row the sample record's entry gives: date '2020-05-11' and '' for
      the absent Received and Error. */
  const SampleRow := Row(
    JString("x.com"), JString("1.2.3.4"), JString("2020-05-11"),
    JString("2020-05-11T00:00:00Z"), JString("2020-05-11T00:00:01Z"),
    JInt(1), JString("GET"), JString(""), JString(""),
    JBool(true), JBool(true), JBool(false), JBool(false))

  lemma SampleEntryRow()
    ensures BuildRow(SampleScan, JObject(SampleEntry)) == Ok(SampleRow)
  {
    SampleIsComplete();
    var t := "2020-05-11T00:00:00Z";
    assert t[..Min(10, |t|)] == "2020-05-11";
  }

  /** A complete one-entry record yields exactly that one row. */
  lemma OneEntryRecordRow()
    ensures Flatten(Loaded(JObject(SampleScan))) == Ok([SampleRow])
  {
    SampleEntryRow();
    assert SampleScan["Results"] == JArray([JObject(SampleEntry)]);
    var attempts := RowAttempts(SampleScan, [JObject(SampleEntry)]);
    assert attempts == [Ok(SampleRow)];
    var c := Collect(attempts);
    assert c.Ok? && |c.value| == 1 && c.value[0] == SampleRow;
    assert c.value == [SampleRow];
  }

  // ---------------------------------------------------------------------
  // Dates in scan file paths
  // ---------------------------------------------------------------------

  /** A calendar date as datetime.date holds it. */
  datatype Date = Date(year: int, month: int, day: int)

  predicate IsLeapYear(y: int) { y % 4 == 0 && (y % 100 != 0 || y % 400 == 0) }

  function DaysInMonth(y: int, m: int): int
  {
    if m == 2 then (if IsLeapYear(y) then 29 else 28)
    else if m == 4 || m == 6 || m == 9 || m == 11 then 30
    else 31
  }

  /** The dates datetime.date accepts: years 1 to 9999, real months and days. */
  predicate ValidDate(d: Date)
  {
    1 <= d.year <= 9999 && 1 <= d.month <= 12 && 1 <= d.day <= DaysInMonth(d.year, d.month)
  }

  type PyDate = d: Date | ValidDate(d) witness Date(1, 1, 1)

  /** a <= b on dates: chronological, that is lexicographic on (year, month, day). */
  predicate DateLe(a: Date, b: Date)
  {
    a.year < b.year || (a.year == b.year && (a.month < b.month || (a.month == b.month && a.day <= b.day)))
  }

  /** s[i..i+10] matches \d\d\d\d-\d\d-\d\d. */
  predicate IsDateTokenAt(s: string, i: nat)
  {
    && i + 10 <= |s|
    && IsDigit(s[i]) && IsDigit(s[i + 1]) && IsDigit(s[i + 2]) && IsDigit(s[i + 3])
    && s[i + 4] == '-'
    && IsDigit(s[i + 5]) && IsDigit(s[i + 6])
    && s[i + 7] == '-'
    && IsDigit(s[i + 8]) && IsDigit(s[i + 9])
  }

  /** Where the leftmost match at or after `from` starts: the first element
      re.findall returns. */
  function FirstDateToken(s: string, from: nat): (r: Option<nat>)
    ensures r.Some? ==> from <= r.value && IsDateTokenAt(s, r.value)
    ensures r.Some? ==> forall j :: from <= j < r.value ==> !IsDateTokenAt(s, j)
    ensures r.None? ==> forall j :: from <= j ==> !IsDateTokenAt(s, j)
    decreases |s| - from
  {
    if from + 10 > |s| then None
    else if IsDateTokenAt(s, from) then Some(from)
    else FirstDateToken(s, from + 1)
  }

  /** date.isoformat(): YYYY-MM-DD, zero-padded. */
  function IsoFormat(d: PyDate): string
  {
    ZeroPadded(d.year, 4) + "-" + ZeroPadded(d.month, 2) + "-" + ZeroPadded(d.day, 2)
  }

  /** The (year, month, day) a date token spells, valid or not. */
  function SpelledDate(token: string): Date
    requires |token| == 10 && IsDateTokenAt(token, 0)
  {
    Date(DigitsValue(token[..4]), DigitsValue(token[5..7]), DigitsValue(token[8..]))
  }

  /** datetime.date.fromisoformat on a string that matched the date pattern:
      the date it spells, or ValueError when there is no such date. */
  function FromIsoFormat(token: string): (r: Result<PyDate>)
    requires |token| == 10 && IsDateTokenAt(token, 0)
    ensures r.Ok? <==> ValidDate(SpelledDate(token))
    ensures r.Ok? ==> IsoFormat(r.value) == token
    ensures r.Raise? ==> r.error == ValueError
  {
    var d := SpelledDate(token);
    if ValidDate(d) then
      ZeroPaddedRoundTrip(token[..4]);
      ZeroPaddedRoundTrip(token[5..7]);
      ZeroPaddedRoundTrip(token[8..]);
      TokenParts(token);
      Ok(d)
    else Raise(ValueError)
  }

  /** A date token is its three digit groups joined by '-'. */
  lemma TokenParts(token: string)
    requires |token| == 10 && token[4] == '-' && token[7] == '-'
    ensures token == token[..4] + "-" + token[5..7] + "-" + token[8..]
  {
  }

  /** Rendering a digit string's value with as many digits gives the string back. */
  lemma {:induction false} ZeroPaddedRoundTrip(s: string)
    requires AllDigits(s)
    ensures ZeroPadded(DigitsValue(s), |s|) == s
  {
    if s != [] {
      var init := s[..|s| - 1];
      var n := DigitsValue(s);
      var d := s[|s| - 1] as int - '0' as int;
      assert n / 10 == DigitsValue(init) && n % 10 == d;
      ZeroPaddedRoundTrip(init);
      assert s == init + [s[|s| - 1]];
    }
  }

  /** The ISO form of a date matches the date pattern, with the zero-padded
      year, month and day in their places. */
  lemma IsoFormatShape(d: PyDate)
    ensures |IsoFormat(d)| == 10 && IsDateTokenAt(IsoFormat(d), 0)
    ensures IsoFormat(d)[..4] == ZeroPadded(d.year, 4)
    ensures IsoFormat(d)[5..7] == ZeroPadded(d.month, 2)
    ensures IsoFormat(d)[8..] == ZeroPadded(d.day, 2)
  {
    var y, m, dd := ZeroPadded(d.year, 4), ZeroPadded(d.month, 2), ZeroPadded(d.day, 2);
    var s := y + "-" + m + "-" + dd;
    assert s == IsoFormat(d);
    assert s[..4] == y;
    assert s[5..7] == m;
    assert s[8..] == dd;
    assert forall k :: 0 <= k < 4 ==> s[k] == y[k];
    assert s[5] == m[0] && s[6] == m[1] && s[8] == dd[0] && s[9] == dd[1];
  }

  /** Parsing the ISO form of a date gives the date back. */
  lemma IsoFormatRoundTrip(d: PyDate)
    ensures |IsoFormat(d)| == 10 && IsDateTokenAt(IsoFormat(d), 0)
    ensures FromIsoFormat(IsoFormat(d)) == Ok(d)
  {
    var s := IsoFormat(d);
    IsoFormatShape(d);
    IsoFormatFields(d);
  }

  lemma IsoFormatFields(d: PyDate)
    requires |IsoFormat(d)| == 10 && IsDateTokenAt(IsoFormat(d), 0)
    ensures DigitsValue(IsoFormat(d)[..4]) == d.year
    ensures DigitsValue(IsoFormat(d)[5..7]) == d.month
    ensures DigitsValue(IsoFormat(d)[8..]) == d.day
  {
    IsoFormatShape(d);
    assert Pow10(4) == 10000 && Pow10(2) == 100;
    ZeroPaddedFits(d.year, 4);
    ZeroPaddedFits(d.month, 2);
    ZeroPaddedFits(d.day, 2);
  }

  /** The date of a scan file path: its first YYYY-MM-DD substring, read
      with fromisoformat; IndexError when there is none. */
  function FilenameDate(filename: string): (r: Result<PyDate>)
    ensures r == Raise(IndexError) <==> forall j :: !IsDateTokenAt(filename, j)
    ensures r.Raise? ==> r.error == IndexError || r.error == ValueError
    ensures r.Ok? ==> exists i :: FirstDateToken(filename, 0) == Some(i)
                                  && filename[i..i + 10] == IsoFormat(r.value)
  {
    match FirstDateToken(filename, 0)
    case None => Raise(IndexError)
    case Some(i) =>
      var token := filename[i..i + 10];
      assert IsDateTokenAt(token, 0);
      FromIsoFormat(token)
  }

  /** between_dates: whether the path's date lies in [start, end], inclusive
      at both ends. */
  function BetweenDates(filename: string, start: PyDate, end: PyDate): (r: Result<bool>)
    ensures r.Ok? <==> FilenameDate(filename).Ok?
    ensures r.Ok? ==> (r.value <==> DateLe(start, FilenameDate(filename).value)
                                    && DateLe(FilenameDate(filename).value, end))
  {
    var d :- FilenameDate(filename);
    Ok(DateLe(start, d) && DateLe(d, end))
  }

  /** A path is tested on its first date token: the answer is read from
      that token, or ValueError when it names no date. */
  lemma BetweenDatesOfTokenPath(prefix: string, token: string, suffix: string, start: PyDate, end: PyDate)
    requires forall j :: 0 <= j < |prefix| ==> !IsDateTokenAt(prefix + token + suffix, j)
    requires |token| == 10 && IsDateTokenAt(token, 0)
    ensures FilenameDate(prefix + token + suffix) == FromIsoFormat(token)
    ensures BetweenDates(prefix + token + suffix, start, end)
            == if FromIsoFormat(token).Raise? then Raise(ValueError)
               else Ok(DateLe(start, FromIsoFormat(token).value) && DateLe(FromIsoFormat(token).value, end))
  {
    var s := prefix + token + suffix;
    assert s[|prefix|..|prefix| + 10] == token;
    assert IsDateTokenAt(s, |prefix|);
    assert FirstDateToken(s, 0) == Some(|prefix|);
  }

  /** A date token cannot start inside a digit-free prefix. */
  lemma NoTokenInDigitFreePrefix(prefix: string, rest: string)
    requires NoDigits(prefix)
    ensures forall j :: 0 <= j < |prefix| ==> !IsDateTokenAt(prefix + rest, j)
  {
    forall j | 0 <= j < |prefix| ensures !IsDateTokenAt(prefix + rest, j) {
      assert (prefix + rest)[j] == prefix[j];
    }
  }

  /** A path whose first digit starts its ISO date is tested on that date. */
  lemma BetweenDatesOfDatedPath(prefix: string, d: PyDate, suffix: string, start: PyDate, end: PyDate)
    requires NoDigits(prefix)
    ensures BetweenDates(prefix + IsoFormat(d) + suffix, start, end)
            == Ok(DateLe(start, d) && DateLe(d, end))
  {
    IsoFormatRoundTrip(d);
    NoTokenInDigitFreePrefix(prefix, IsoFormat(d) + suffix);
    assert prefix + IsoFormat(d) + suffix == prefix + (IsoFormat(d) + suffix);
    BetweenDatesOfTokenPath(prefix, IsoFormat(d), suffix, start, end);
  }

  /** The window is inclusive: a path dated on either bound is in it, one
      dated a day outside is not. */
  lemma WindowInclusive(prefix: string, suffix: string, start: PyDate, end: PyDate, d: PyDate)
    requires NoDigits(prefix)
    requires DateLe(start, end)
    ensures BetweenDates(prefix + IsoFormat(start) + suffix, start, end) == Ok(true)
    ensures BetweenDates(prefix + IsoFormat(end) + suffix, start, end) == Ok(true)
    ensures !DateLe(start, d) || !DateLe(d, end) ==>
              BetweenDates(prefix + IsoFormat(d) + suffix, start, end) == Ok(false)
  {
    BetweenDatesOfDatedPath(prefix, start, suffix, start, end);
    BetweenDatesOfDatedPath(prefix, end, suffix, start, end);
    BetweenDatesOfDatedPath(prefix, d, suffix, start, end);
  }

  /** fromisoformat('2020-05-11'). */
  lemma ParseDocstringDate()
    ensures |"2020-05-11"| == 10 && IsDateTokenAt("2020-05-11", 0)
    ensures FromIsoFormat("2020-05-11") == Ok(Date(2020, 5, 11))
  {
    var token := "2020-05-11";
    assert IsDateTokenAt(token, 0);
    assert DigitsValue(token[..4]) == 2020 by {
      assert token[..4] == "2020";
      assert "2020"[..3] == "202" && "202"[..2] == "20" && "20"[..1] == "2" && "2"[..0] == "";
      assert DigitsValue("20") == 20;
      assert DigitsValue("202") == 202;
    }
    assert DigitsValue(token[5..7]) == 5 by {
      assert token[5..7] == "05";
      assert "05"[..1] == "0" && "0"[..0] == "";
    }
    assert DigitsValue(token[8..]) == 11 by {
      assert token[8..] == "11";
      assert "11"[..1] == "1" && "1"[..0] == "";
    }
  }

  /** The docstring path's directory and file-name stem, which holds no digit. */
  const DocstringPrefix := "gs://firehook-scans/http/CP_Quack-http-"

  /** gs://firehook-scans/http/CP_Quack-http-2020-05-11-01-02-08/results.json */
  const DocstringPath := DocstringPrefix + "2020-05-11" + "-01-02-08/results.json"

  lemma DocstringPrefixNoDigits()
    ensures NoDigits(DocstringPrefix)
  {
  }

  /** The docstring's path lies in the window 2020-05-07 .. 2020-05-11 that
      run() uses: its date is the window's last day. */
  lemma DocstringPathInWindow()
    ensures BetweenDates(DocstringPath, Date(2020, 5, 7), Date(2020, 5, 11)) == Ok(true)
  {
    DocstringPrefixNoDigits();
    ParseDocstringDate();
    NoTokenInDigitFreePrefix(DocstringPrefix, "2020-05-11" + "-01-02-08/results.json");
    BetweenDatesOfTokenPath(DocstringPrefix, "2020-05-11",
                            "-01-02-08/results.json", Date(2020, 5, 7), Date(2020, 5, 11));
  }

  /** A path whose date token names no real date makes between_dates raise
      ValueError rather than answer False. */
  lemma InvalidDatePathRaises(start: PyDate, end: PyDate)
    ensures BetweenDates(DocstringPrefix + "2020-13-01" + "/results.json", start, end) == Raise(ValueError)
  {
    var token := "2020-13-01";
    assert IsDateTokenAt(token, 0);
    assert DigitsValue(token[5..7]) == 13 by {
      assert token[5..7] == "13";
      assert "13"[..1] == "1" && "1"[..0] == "";
    }
    DocstringPrefixNoDigits();
    NoTokenInDigitFreePrefix(DocstringPrefix, token + "/results.json");
    BetweenDatesOfTokenPath(DocstringPrefix, token, "/results.json", start, end);
  }
}
