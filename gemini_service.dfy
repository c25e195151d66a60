/**
 * `processReceiptImage(file)` as a function of what the outside world does:
 * the configured API key, whether constructing the SDK client throws, what
 * the `FileReader` delivers, the clock, what the `generateContent` call
 * returns for the request it is given, and what `JSON.parse` makes of the
 * response text. The result is how the returned promise settles, together
 * with the list of requests sent to the model (at most one).
 */
module GeminiService {
  import opened Wrappers
  import opened Text
  import opened Dates
  import opened IsoTime

  /** The value of an unconfigured `.env` file. */
  const PlaceholderKey: string := "your_gemini_api_key_here"
  const MockStoreName: string := "セブンイレブン (デモ)"
  const MockAmount: int := 1580
  const ModelName: string := "gemini-1.5-flash"

  /** A JSON value as `JSON.parse` returns it; numbers are whole yen here. */
  datatype Json =
    | JNull
    | JBool(b: bool)
    | JNumber(n: int)
    | JString(s: string)
    | JArray(items: seq<Json>)
    | JObject(members: seq<(string, Json)>)

  /** The record the form is filled from. */
  datatype ReceiptData = ReceiptData(storeName: string, date: string, amount: int)

  function ToJson(r: ReceiptData): Json
  {
    JObject([("storeName", JString(r.storeName)), ("date", JString(r.date)), ("amount", JNumber(r.amount))])
  }

  /** Member lookup; with a repeated key the last occurrence wins, as in `JSON.parse`. */
  function Get(members: seq<(string, Json)>, key: string): (v: Option<Json>)
    ensures v.Some? <==> exists k :: 0 <= k < |members| && members[k].0 == key
    decreases |members|
  {
    if members == [] then None
    else if members[|members| - 1].0 == key then Some(members[|members| - 1].1)
    else
      var front := members[..|members| - 1];
      assert forall k :: 0 <= k < |front| ==> front[k] == members[k];
      Get(front, key)
  }

  /** The object the response schema describes, if `j` is one: string `storeName` and `date`, numeric `amount`. */
  function FromJson(j: Json): Option<ReceiptData>
  {
    match j
    case JObject(ms) =>
      (match (Get(ms, "storeName"), Get(ms, "date"), Get(ms, "amount"))
       case (Some(JString(s)), Some(JString(d)), Some(JNumber(a))) => Some(ReceiptData(s, d, a))
       case _ => None)
    case _ => None
  }

  predicate IsReceiptData(j: Json)
  {
    FromJson(j).Some?
  }

  /** A receipt record survives conversion to JSON and back. */
  lemma ReceiptJsonRoundTrip(r: ReceiptData)
    ensures FromJson(ToJson(r)) == Some(r)
  {
    var ms := ToJson(r).members;
    assert ms[..2] == [("storeName", JString(r.storeName)), ("date", JString(r.date))];
    assert ms[..2][..1] == [("storeName", JString(r.storeName))];
    assert Get(ms, "amount") == Some(JNumber(r.amount));
    assert Get(ms, "date") == Some(JString(r.date));
    assert "amount"[0] != "storeName"[0] && "date"[0] != "storeName"[0];
    assert Get(ms, "storeName") == Get(ms[..2], "storeName") == Get(ms[..2][..1], "storeName");
  }

  /** `!apiKey || apiKey === 'your_gemini_api_key_here'`: `None` is `undefined`, and the empty string is falsy. */
  predicate KeyMissing(apiKey: Option<string>)
  {
    apiKey.None? || apiKey.value == [] || apiKey.value == PlaceholderKey
  }

  /** What `FileReader.readAsDataURL` ends in: `onloadend` with the data URL, or `onerror`. */
  datatype ReadResult = Loaded(dataUrl: string) | ReadError

  datatype ImageFile = ImageFile(mimeType: string, read: ReadResult)

  /** The clock: the UTC instant `toISOString` renders and the local year `getFullYear` returns. */
  datatype Clock = Clock(utc: Instant, localYear: int)

  /** The parts of the `generateContent` request the code fills in from its inputs. */
  datatype Request = Request(model: string, mimeType: string, data: Option<string>, yearHint: int, todayHint: string)

  /** `result.response.text()`, or a throw anywhere from `getGenerativeModel` to `text()`. */
  datatype CallOutcome = Throws | Text(text: string)

  /** The two failures that happen before the `try` and so reject the promise. */
  datatype Rejection = SdkInitError | FileReadError

  datatype Settled = Resolved(value: Json) | Rejected(reason: Rejection)

  datatype Run = Run(settled: Settled, calls: seq<Request>)

  /** `mockData`: a demonstration record dated today (UTC). */
  function MockData(clock: Clock): (m: ReceiptData)
    ensures m.date == DateText(clock.utc.date)
  {
    ReceiptData(MockStoreName, Today(clock.utc), MockAmount)
  }

  /** The request built from the file and the clock; the payload is `dataUrl.split(',')[1]`. */
  function BuildRequest(mimeType: string, dataUrl: string, clock: Clock): (req: Request)
    ensures req.todayHint == DateText(clock.utc.date)
    ensures req.data.None? <==> ',' !in dataUrl
  {
    SecondFieldDefined(dataUrl, ',');
    Request(ModelName, mimeType, Field(dataUrl, ',', 1), clock.localYear, Today(clock.utc))
  }

  /** The `try` block once the request has been answered. */
  function Settle(outcome: CallOutcome, parse: string -> Option<Json>, mock: Json): (s: Settled)
    ensures s.Resolved?
    ensures s.value != mock ==> outcome.Text? && outcome.text != [] && parse(outcome.text) == Some(s.value)
  {
    match outcome
    case Throws => Resolved(mock)
    case Text(text) =>
      if text == [] then Resolved(mock)
      else
        match parse(text)
        case None => Resolved(mock)
        case Some(data) => Resolved(data)
  }

  /** `processReceiptImage(file)` as the code is written: the SDK client and the file read come before the `try`. */
  function ProcessReceiptImage(apiKey: Option<string>, sdkInitThrows: bool, file: ImageFile, clock: Clock,
                               gemini: Request -> CallOutcome, parse: string -> Option<Json>): (r: Run)
    ensures |r.calls| <= 1
    ensures |r.calls| == 1 <==> !KeyMissing(apiKey) && !sdkInitThrows && file.read.Loaded?
    ensures r.settled.Rejected? <==> !KeyMissing(apiKey) && (sdkInitThrows || file.read.ReadError?)
    ensures r.settled.Resolved? && r.settled.value != ToJson(MockData(clock)) ==>
      |r.calls| == 1 && gemini(r.calls[0]).Text? && parse(gemini(r.calls[0]).text) == Some(r.settled.value)
  {
    var mock := ToJson(MockData(clock));
    if KeyMissing(apiKey) then Run(Resolved(mock), [])
    else if sdkInitThrows then Run(Rejected(SdkInitError), [])
    else
      match file.read
      case ReadError => Run(Rejected(FileReadError), [])
      case Loaded(dataUrl) =>
        var req := BuildRequest(file.mimeType, dataUrl, clock);
        Run(Settle(gemini(req), parse, mock), [req])
  }

  /** The mock record: the demonstration store, 1580 yen, today's UTC date as `YYYY-MM-DD`, all fields of the schema present. */
  lemma MockRecord(clock: Clock)
    ensures FromJson(ToJson(MockData(clock))) == Some(ReceiptData(MockStoreName, DateText(clock.utc.date), 1580))
    ensures IsReceiptData(ToJson(MockData(clock)))
    ensures 0 <= clock.utc.date.year <= 9999 ==>
      var d := MockData(clock).date;
      |d| == 10 && d[4] == '-' && d[7] == '-' && AllDigits(d[..4]) && AllDigits(d[5..7]) && AllDigits(d[8..])
  {
    ReceiptJsonRoundTrip(MockData(clock));
    if 0 <= clock.utc.date.year <= 9999 {
      DateTextShape(clock.utc.date);
    }
  }

  /** Without a usable key the mock record is returned and no request is made. */
  lemma NoKeyUsesMock(apiKey: Option<string>, sdkInitThrows: bool, file: ImageFile, clock: Clock,
                      gemini: Request -> CallOutcome, parse: string -> Option<Json>)
    requires KeyMissing(apiKey)
    ensures ProcessReceiptImage(apiKey, sdkInitThrows, file, clock, gemini, parse)
         == Run(Resolved(ToJson(MockData(clock))), [])
  {
  }

  /** With a usable key and a readable file exactly one request is made, carrying the payload and the hints. */
  lemma SingleRequest(apiKey: Option<string>, file: ImageFile, clock: Clock,
                      gemini: Request -> CallOutcome, parse: string -> Option<Json>)
    requires !KeyMissing(apiKey) && file.read.Loaded?
    ensures ProcessReceiptImage(apiKey, false, file, clock, gemini, parse).calls
         == [Request(ModelName, file.mimeType, Field(file.read.dataUrl, ',', 1), clock.localYear, DateText(clock.utc.date))]
  {
  }

  /** For a data URL `prefix,payload` the request carries exactly `payload`. */
  lemma RequestCarriesPayload(mimeType: string, prefix: string, payload: string, clock: Clock)
    requires ',' !in prefix && ',' !in payload
    ensures BuildRequest(mimeType, prefix + [','] + payload, clock).data == Some(payload)
  {
    PayloadOfDataUrl(prefix, ',', payload);
  }

  /** When the call throws, or returns empty text, or text `JSON.parse` rejects, the mock record is returned. */
  lemma FailedAnalysisUsesMock(apiKey: Option<string>, file: ImageFile, clock: Clock,
                               gemini: Request -> CallOutcome, parse: string -> Option<Json>)
    requires !KeyMissing(apiKey) && file.read.Loaded?
    requires var out := gemini(BuildRequest(file.mimeType, file.read.dataUrl, clock));
      out.Throws? || out.text == [] || parse(out.text).None?
    ensures ProcessReceiptImage(apiKey, false, file, clock, gemini, parse).settled
         == Resolved(ToJson(MockData(clock)))
  {
  }

  /** Text that parses is returned as parsed, whatever its shape. */
  lemma ParsedPassedThrough(apiKey: Option<string>, file: ImageFile, clock: Clock,
                            gemini: Request -> CallOutcome, parse: string -> Option<Json>, text: string, v: Json)
    requires !KeyMissing(apiKey) && file.read.Loaded?
    requires gemini(BuildRequest(file.mimeType, file.read.dataUrl, clock)) == Text(text)
    requires text != [] && parse(text) == Some(v)
    ensures ProcessReceiptImage(apiKey, false, file, clock, gemini, parse).settled == Resolved(v)
  {
  }

  /** A failure while constructing the client or reading the file rejects the promise and makes no request. */
  lemma EarlyFailureRejects(apiKey: Option<string>, sdkInitThrows: bool, file: ImageFile, clock: Clock,
                            gemini: Request -> CallOutcome, parse: string -> Option<Json>)
    requires !KeyMissing(apiKey) && (sdkInitThrows || file.read.ReadError?)
    ensures var r := ProcessReceiptImage(apiKey, sdkInitThrows, file, clock, gemini, parse);
      r.calls == [] && r.settled == Rejected(if sdkInitThrows then SdkInitError else FileReadError)
  {
  }

  /** Nothing checks the parsed value: a response of `null` resolves to `null`, which is no receipt. */
  lemma NoSchemaCheck(clock: Clock)
    ensures var r := ProcessReceiptImage(Some("key"), false, ImageFile("image/png", Loaded("data:image/png;base64,AAAA")),
                                         clock, _ => Text("null"), _ => Some(JNull));
      r.settled == Resolved(JNull) && !IsReceiptData(r.settled.value)
  {
  }

  /** A model reply of a well-formed Lawson receipt is returned as that exact object. */
  lemma LawsonExample(file: ImageFile, clock: Clock)
    requires file.read.Loaded?
    ensures var lawson := ToJson(ReceiptData("Lawson", "2024-05-03", 620));
      ProcessReceiptImage(Some("key"), false, file, clock,
                          _ => Text("{\"storeName\":\"Lawson\",\"date\":\"2024-05-03\",\"amount\":620}"),
                          t => if t == "{\"storeName\":\"Lawson\",\"date\":\"2024-05-03\",\"amount\":620}" then Some(lawson) else None)
        .settled == Resolved(lawson)
  {
  }

  /**
   * The fallback as its comment describes it: the client construction and the
   * file read moved inside the `try`, so that every failure yields the mock record.
   */
  function ProcessReceiptImageGuarded(apiKey: Option<string>, sdkInitThrows: bool, file: ImageFile, clock: Clock,
                                      gemini: Request -> CallOutcome, parse: string -> Option<Json>): (r: Run)
    ensures r.settled.Resolved?
    ensures |r.calls| <= 1
    ensures r.settled.value != ToJson(MockData(clock)) ==>
      |r.calls| == 1 && gemini(r.calls[0]).Text? && parse(gemini(r.calls[0]).text) == Some(r.settled.value)
  {
    var mock := ToJson(MockData(clock));
    if KeyMissing(apiKey) || sdkInitThrows then Run(Resolved(mock), [])
    else
      match file.read
      case ReadError => Run(Resolved(mock), [])
      case Loaded(dataUrl) =>
        var req := BuildRequest(file.mimeType, dataUrl, clock);
        Run(Settle(gemini(req), parse, mock), [req])
  }

  /** The guarded version never rejects, and agrees with the code wherever the code resolves. */
  lemma GuardedAgrees(apiKey: Option<string>, sdkInitThrows: bool, file: ImageFile, clock: Clock,
                      gemini: Request -> CallOutcome, parse: string -> Option<Json>)
    ensures var written := ProcessReceiptImage(apiKey, sdkInitThrows, file, clock, gemini, parse);
      var guarded := ProcessReceiptImageGuarded(apiKey, sdkInitThrows, file, clock, gemini, parse);
      (written.settled.Resolved? ==> guarded == written)
      && (written.settled.Rejected? ==> guarded == Run(Resolved(ToJson(MockData(clock))), []))
  {
  }

  /** The discrepancy: with a usable key, a file that cannot be read rejects instead of yielding the mock record. */
  lemma ReadErrorEscapesFallback(clock: Clock, gemini: Request -> CallOutcome, parse: string -> Option<Json>)
    ensures ProcessReceiptImage(Some("key"), false, ImageFile("image/jpeg", ReadError), clock, gemini, parse).settled
         == Rejected(FileReadError)
    ensures ProcessReceiptImageGuarded(Some("key"), false, ImageFile("image/jpeg", ReadError), clock, gemini, parse).settled
         == Resolved(ToJson(MockData(clock)))
  {
  }
}
