/** The report request bodies as the global validation pipe (with
    whitelisting) checks them, and the report response shapes. A body is a
    JSON object; only the declared fields are read, so any other field,
    `approved` included, is stripped before the handler sees the body. */
module ReportDtos {
  import opened Common
  import opened JsParse
  import opened ReportStore

  /** A JSON value as a request body can carry it at the top level of a
      field. Nested objects and arrays are not modelled. */
  datatype Json = JString(text: string) | JNumber(number: real) | JBool(flag: bool) | JNull

  type JsonObject = map<string, Json>

  /** `IsString()`: the field is present and holds a string. */
  predicate IsStringField(o: JsonObject, key: string) {
    key in o && o[key].JString?
  }

  /** The field's value when it is present and a number (`IsNumber()`). */
  function NumberField(o: JsonObject, key: string): Option<real> {
    if key in o && o[key].JNumber? then Some(o[key].number) else None
  }

  /** `Min(lo)` and `Max(hi)` on a number that passed `IsNumber`. */
  predicate InRange(v: Option<real>, lo: real, hi: real) {
    v.Some? && lo <= v.value <= hi
  }

  predicate IntInRange(v: Option<int>, lo: int, hi: int) {
    v.Some? && lo <= v.value <= hi
  }

  /** Truncation toward zero, what `parseInt(String(x))` does to a number
      written without an exponent. */
  function Trunc(x: real): (n: int)
    ensures x >= 0.0 ==> 0 <= n && n as real <= x < n as real + 1.0
    ensures x < 0.0 ==> n <= 0 && n as real - 1.0 < x <= n as real
  {
    if x >= 0.0 then x.Floor else -((-x).Floor)
  }

  /** `parseInt(value)` on a JSON value: a number is written out and read
      back, a string is parsed, `true`, `false` and `null` give NaN. */
  function ParseIntValue(v: Json): Option<int> {
    match v
    case JNumber(x) => Some(Trunc(x))
    case JString(s) => ParseInt(s)
    case _ => None
  }

  /** `parseFloat(value)` on a JSON value. */
  function ParseFloatValue(v: Json): Option<real> {
    match v
    case JNumber(x) => Some(x)
    case JString(s) => ParseFloat(s)
    case _ => None
  }

  /** A field after its `parseInt` transform; an absent field stays
      undefined and fails `IsNumber`. */
  function IntField(o: JsonObject, key: string): Option<int> {
    if key in o then ParseIntValue(o[key]) else None
  }

  /** A field after its `parseFloat` transform. */
  function FloatField(o: JsonObject, key: string): Option<real> {
    if key in o then ParseFloatValue(o[key]) else None
  }

  /** The estimate body's rules: `make` and `model` strings, `year` an
      integer in [1930, 2023] and `mileage` one in [0, 500000] after
      `parseInt`, `lng` a longitude and `lat` a latitude after `parseFloat`. */
  predicate ValidEstimateBody(o: JsonObject) {
    && IsStringField(o, "make")
    && IsStringField(o, "model")
    && IntInRange(IntField(o, "year"), 1930, 2023)
    && InRange(FloatField(o, "lng"), -180.0, 180.0)
    && InRange(FloatField(o, "lat"), -90.0, 90.0)
    && IntInRange(IntField(o, "mileage"), 0, 500000)
  }

  /** The validated estimate query, or 400 when any rule fails. */
  function ValidateEstimate(o: JsonObject): (r: Result<EstimateQuery, Error>)
    ensures r.Success? <==> ValidEstimateBody(o)
    ensures r.Failure? ==> r.error == ValidationFailed
    ensures r.Success? ==>
      && 1930 <= r.value.year <= 2023
      && 0 <= r.value.mileage <= 500000
      && -180.0 <= r.value.lng <= 180.0
      && -90.0 <= r.value.lat <= 90.0
      && r.value.make == o["make"].text
      && r.value.model == o["model"].text
      && Some(r.value.year) == IntField(o, "year") && Some(r.value.mileage) == IntField(o, "mileage")
      && Some(r.value.lng) == FloatField(o, "lng") && Some(r.value.lat) == FloatField(o, "lat")
  {
    if ValidEstimateBody(o) then
      Success(EstimateQuery(o["make"].text, o["model"].text, IntField(o, "year").value,
                            FloatField(o, "lng").value, FloatField(o, "lat").value,
                            IntField(o, "mileage").value))
    else Failure(ValidationFailed)
  }

  /** An estimate query within the ranges, as a client sends it: numbers for
      the coordinates, and `year` and `mileage` either as numbers or as
      their decimal text. */
  function EstimateBody(q: EstimateQuery, asText: bool): JsonObject {
    map["make" := JString(q.make), "model" := JString(q.model),
        "year" := if asText then JString(IntToString(q.year)) else JNumber(q.year as real),
        "lng" := JNumber(q.lng), "lat" := JNumber(q.lat),
        "mileage" := if asText then JString(IntToString(q.mileage)) else JNumber(q.mileage as real)]
  }

  predicate QueryInRange(q: EstimateQuery) {
    && 1930 <= q.year <= 2023
    && 0 <= q.mileage <= 500000
    && -180.0 <= q.lng <= 180.0
    && -90.0 <= q.lat <= 90.0
  }

  /** Every query within the ranges passes validation and arrives unchanged,
      whether its integers are sent as numbers or as text. */
  lemma EstimateBodyRoundTrip(q: EstimateQuery, asText: bool)
    requires QueryInRange(q)
    ensures ValidateEstimate(EstimateBody(q, asText)) == Success(q)
  {
    var o := EstimateBody(q, asText);
    assert IntField(o, "year") == Some(q.year) by {
      if asText { ParseIntRoundTrip(q.year); } else { TruncOfInteger(q.year); }
    }
    assert IntField(o, "mileage") == Some(q.mileage) by {
      if asText { ParseIntRoundTrip(q.mileage); } else { TruncOfInteger(q.mileage); }
    }
    assert FloatField(o, "lng") == Some(q.lng) && FloatField(o, "lat") == Some(q.lat);
    assert o["make"] == JString(q.make) && o["model"] == JString(q.model);
    EstimateFieldsRead(o, q);
  }

  /** A body whose fields read as the query's values yields that query. */
  lemma EstimateFieldsRead(o: JsonObject, q: EstimateQuery)
    requires QueryInRange(q)
    requires "make" in o && o["make"] == JString(q.make)
    requires "model" in o && o["model"] == JString(q.model)
    requires IntField(o, "year") == Some(q.year) && IntField(o, "mileage") == Some(q.mileage)
    requires FloatField(o, "lng") == Some(q.lng) && FloatField(o, "lat") == Some(q.lat)
    ensures ValidateEstimate(o) == Success(q)
  {
  }

  lemma TruncOfInteger(n: int)
    ensures Trunc(n as real) == n
  {
  }

  /** `parseInt` keeps only the integer part: a year sent as 1998.7 is
      queried as 1998. */
  lemma EstimateYearTruncated(o: JsonObject, x: real)
    requires ValidEstimateBody(o) && o["year"] == JNumber(x) && x >= 0.0
    ensures ValidateEstimate(o).value.year as real <= x < ValidateEstimate(o).value.year as real + 1.0
  {
  }

  /** The fields the creation body declares; whitelisting drops the rest. */
  const CreateReportFields: set<string> := {"make", "model", "year", "lng", "lat", "mileage", "price"}

  /** The creation body's rules: `make` and `model` strings, `year` a number
      in [1950, 2023], `lng` a longitude, `lat` a latitude, `mileage` in
      [0, 1000000] and `price` in [0, 500000]. */
  predicate ValidCreateBody(o: JsonObject) {
    && IsStringField(o, "make")
    && IsStringField(o, "model")
    && InRange(NumberField(o, "year"), 1950.0, 2023.0)
    && InRange(NumberField(o, "lng"), -180.0, 180.0)
    && InRange(NumberField(o, "lat"), -90.0, 90.0)
    && InRange(NumberField(o, "mileage"), 0.0, 1000000.0)
    && InRange(NumberField(o, "price"), 0.0, 500000.0)
  }

  /** The validated creation body, or 400 when any rule fails. */
  function ValidateCreateReport(o: JsonObject): (r: Result<NewReport, Error>)
    ensures r.Success? <==> ValidCreateBody(o)
    ensures r.Failure? ==> r.error == ValidationFailed
    ensures r.Success? ==>
      && 1950.0 <= r.value.year <= 2023.0
      && -180.0 <= r.value.lng <= 180.0
      && -90.0 <= r.value.lat <= 90.0
      && 0.0 <= r.value.mileage <= 1000000.0
      && 0.0 <= r.value.price <= 500000.0
  {
    if ValidCreateBody(o) then
      Success(NewReport(o["make"].text, o["model"].text, o["year"].number, o["lng"].number,
                        o["lat"].number, o["mileage"].number, o["price"].number))
    else Failure(ValidationFailed)
  }

  /** A field the creation body does not declare, `approved` among them,
      has no effect on what validation yields. */
  lemma CreateBodyIgnoresExtraFields(o: JsonObject, key: string, v: Json)
    requires key !in CreateReportFields
    ensures ValidateCreateReport(o[key := v]) == ValidateCreateReport(o)
  {
    var o' := o[key := v];
    assert forall k :: k in CreateReportFields ==> (k in o' <==> k in o) && (k in o ==> o'[k] == o[k]);
  }

  /** The body a client sends for a new report. */
  function CreateBody(d: NewReport): JsonObject {
    map["make" := JString(d.make), "model" := JString(d.model), "year" := JNumber(d.year),
        "lng" := JNumber(d.lng), "lat" := JNumber(d.lat), "mileage" := JNumber(d.mileage),
        "price" := JNumber(d.price)]
  }

  /** Every creation body within the ranges passes and arrives unchanged. */
  lemma CreateBodyRoundTrip(d: NewReport)
    requires 1950.0 <= d.year <= 2023.0 && -180.0 <= d.lng <= 180.0 && -90.0 <= d.lat <= 90.0
    requires 0.0 <= d.mileage <= 1000000.0 && 0.0 <= d.price <= 500000.0
    ensures ValidateCreateReport(CreateBody(d)) == Success(d)
  {
  }

  /** The serialized report: its own columns and `ownerId`, the id of its
      owner; no other part of the owner is exposed. */
  datatype ReportView = ReportView(
    id: nat, price: real, year: real, lng: real, lat: real, make: string, model: string,
    mileage: real, approved: bool, ownerId: nat)

  function ToReportView(r: Report): ReportView {
    ReportView(r.id, r.price, r.year, r.lng, r.lat, r.make, r.model, r.mileage, r.approved, r.owner.id)
  }

  /** Two reports look the same in the output exactly when their columns and
      their owners' ids agree: the owner's email, password record and role
      never reach the output. */
  lemma ReportViewExposes(a: Report, b: Report)
    ensures ToReportView(a) == ToReportView(b) <==>
      && a.id == b.id && a.price == b.price && a.year == b.year && a.lng == b.lng
      && a.lat == b.lat && a.make == b.make && a.model == b.model
      && a.mileage == b.mileage && a.approved == b.approved && a.owner.id == b.owner.id
  {
  }

  /** Setting the approval flag shows in the output and changes nothing else. */
  lemma ApprovalVisible(r: Report, approved: bool)
    ensures ToReportView(r.(approved := approved)) == ToReportView(r).(approved := approved)
    ensures ToReportView(r.(approved := approved)).approved == approved
  {
  }

  /** The saved entity as the approval route answers with it: the row's own
      columns, without the `owner` relation, which that lookup does not load. */
  datatype ReportRow = ReportRow(
    id: nat, approved: bool, price: real, make: string, model: string,
    year: real, lng: real, lat: real, mileage: real)

  function Columns(r: Report): ReportRow {
    ReportRow(r.id, r.approved, r.price, r.make, r.model, r.year, r.lng, r.lat, r.mileage)
  }

  /** The row carries every column of the report unchanged and nothing of its owner. */
  lemma ColumnsExpose(a: Report, b: Report)
    ensures Columns(a) == Columns(b) <==> a.(owner := b.owner) == b
  {
  }
}
