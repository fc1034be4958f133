/** Column types, their canonical names and the parser that reads the names back
(src/catalog/src/column_type.rs). */
module ColumnTypes {
  import opened Rows
  import opened Text
  import opened TypeScan

  datatype ScalarKind =
    | Int8 | Int16 | Int32 | Int64 | UInt8 | UInt16 | UInt32 | UInt64
    | Float32 | Float64 | Boolean | Utf8 | LargeUtf8 | TimestampKind | Date32 | Binary | LargeBinary

  datatype TimeUnit = Second | Millisecond | Microsecond | Nanosecond

  datatype Field = Field(name: string, ty: ColumnType)

  datatype ColumnType =
    | Scalar(kind: ScalarKind)
    | Decimal(precision: int, scale: int)
    | Timestamp(unit: TimeUnit, tz: Option<string>)
    | List(inner: ColumnType)
    | Struct(fields: seq<Field>)
    | Enum(variants: seq<string>)

  const DECIMAL128_MAX_PRECISION := 38

  // ----- names -----

  function ScalarName(k: ScalarKind): (s: string) {
    match k
    case Int8 => "Int8"
    case Int16 => "Int16"
    case Int32 => "Int32"
    case Int64 => "Int64"
    case UInt8 => "UInt8"
    case UInt16 => "UInt16"
    case UInt32 => "UInt32"
    case UInt64 => "UInt64"
    case Float32 => "Float32"
    case Float64 => "Float64"
    case Boolean => "Boolean"
    case Utf8 => "Utf8"
    case LargeUtf8 => "LargeUtf8"
    case TimestampKind => "Timestamp"
    case Date32 => "Date32"
    case Binary => "Binary"
    case LargeBinary => "LargeBinary"
  }

  function UnitName(u: TimeUnit): (s: string) {
    match u
    case Second => "Second"
    case Millisecond => "Millisecond"
    case Microsecond => "Microsecond"
    case Nanosecond => "Nanosecond"
  }

  function Canonical(t: ColumnType): (s: string)
    decreases t
  {
    match t
    case Scalar(kind) => ScalarName(kind)
    case Decimal(p, s) => "Decimal(" + ShowInt(p) + "," + ShowInt(s) + ")"
    case Timestamp(u, Some(tz)) => "Timestamp(" + UnitName(u) + "," + tz + ")"
    case Timestamp(u, None) => "Timestamp(" + UnitName(u) + ")"
    case List(inner) => "List<" + Canonical(inner) + ">"
    case Struct(fields) => "Struct<" + FieldList(fields) + ">"
    case Enum(variants) => "Enum<" + Join(variants, ',') + ">"
  }

  function FieldText(f: Field): (s: string)
    decreases f
  {
    f.name + ":" + Canonical(f.ty)
  }

  function FieldList(fields: seq<Field>): (s: string)
    decreases fields
  {
    if fields == [] then "" else if |fields| == 1 then FieldText(fields[0])
    else FieldText(fields[0]) + "," + FieldList(fields[1..])
  }

  // ----- the parser -----

  function ScalarFromName(name: string): (r: Result<ScalarKind>) {
    KindOf(Upper(name))
  }

  /** The accepted spellings, in upper case. */
  function KindOf(u: string): (r: Result<ScalarKind>) {
    if u == "INT8" || u == "TINYINT" then Ok(Int8)
    else if u == "INT16" || u == "SMALLINT" then Ok(Int16)
    else if u == "INT32" || u == "INT" || u == "INTEGER" then Ok(Int32)
    else if u == "INT64" || u == "BIGINT" then Ok(Int64)
    else if u == "UINT8" then Ok(UInt8)
    else if u == "UINT16" then Ok(UInt16)
    else if u == "UINT32" then Ok(UInt32)
    else if u == "UINT64" then Ok(UInt64)
    else if u == "FLOAT32" || u == "FLOAT" || u == "REAL" then Ok(Float32)
    else if u == "FLOAT64" || u == "DOUBLE" then Ok(Float64)
    else if u == "BOOLEAN" || u == "BOOL" then Ok(Boolean)
    else if u == "UTF8" || u == "STRING" || u == "VARCHAR" || u == "TEXT" then Ok(Utf8)
    else if u == "LARGEUTF8" || u == "LARGETEXT" || u == "LONGTEXT" || u == "LARGESTRING" then Ok(LargeUtf8)
    else if u == "TIMESTAMP" then Ok(TimestampKind)
    else if u == "DATE" || u == "DATE32" then Ok(Date32)
    else if u == "BINARY" || u == "BLOB" || u == "VARBINARY" then Ok(Binary)
    else if u == "LARGEBINARY" || u == "LARGEBLOB" || u == "LONGBLOB" then Ok(LargeBinary)
    else Err
  }

  function UnitFromName(name: string): (r: Result<TimeUnit>) {
    var l := Lower(name);
    if l == "second" || l == "s" || l == "sec" then Ok(Second)
    else if l == "millisecond" || l == "ms" || l == "milli" then Ok(Millisecond)
    else if l == "microsecond" || l == "us" || l == "micro" then Ok(Microsecond)
    else if l == "nanosecond" || l == "ns" || l == "nano" then Ok(Nanosecond)
    else Err
  }

  function TrimEach(parts: seq<string>): (r: seq<string>)
    ensures |r| == |parts| && forall i :: 0 <= i < |parts| ==> r[i] == Trim(parts[i])
  {
    seq(|parts|, i requires 0 <= i < |parts| => Trim(parts[i]))
  }

  function ParseDecimal(body: string): (r: Result<ColumnType>) {
    var parts := Split(body, ',');
    var p := ParseInt(Trim(parts[0]), 0, 255);
    if p.None? || |parts| < 2 then Err
    else
      var s := ParseInt(Trim(parts[1]), -128, 127);
      if s.None? || p.value == 0 || p.value > DECIMAL128_MAX_PRECISION then Err else Ok(Decimal(p.value, s.value))
  }

  function ParseTimestamp(body: string): (r: Result<ColumnType>) {
    var parts := Split(body, ',');
    var unit := UnitFromName(Trim(parts[0]));
    if unit.Err? then Err
    else
      var tz := if |parts| < 2 || Trim(parts[1]) == "" then None else Some(Trim(parts[1]));
      Ok(Timestamp(unit.value, tz))
  }

  function ParseEnum(body: string): (r: Result<ColumnType>) {
    if body == "" then Err else Ok(Enum(TrimEach(Split(body, ','))))
  }

  function ParseScalar(input: string): (r: Result<(ColumnType, string)>) {
    var lt, comma := Find(input, '<', 0), Find(input, ',', 0);
    var name := Trim(input[..if lt < comma then lt else comma]);
    var kind := ScalarFromName(name);
    if kind.Err? then Err else Ok((Scalar(kind.value), input[|name|..]))
  }

  /** Reads a type off the front of the text and returns what is left. */
  function ParseTypeName(text: string): (r: Result<(ColumnType, string)>)
    decreases |text|, 0
  {
    var input := Trim(text);
    if StartsWith(input, "List<") then
      var b := GenericBody(input, 5);
      if b.Err? then Err
      else
        var inner := ParseTypeName(b.value.0);
        if inner.Err? || inner.value.1 != "" then Err else Ok((List(inner.value.0), input[b.value.1..]))
    else if StartsWith(input, "Struct<") then
      var b := GenericBody(input, 7);
      if b.Err? then Err
      else
        var fields := ParseParts(TopParts(b.value.0), |b.value.0| + 1);
        if fields.Err? || fields.value == [] then Err else Ok((Struct(fields.value), input[b.value.1..]))
    else if StartsWith(input, "Enum<") then
      var b := GenericBody(input, 5);
      if b.Err? then Err else WithRest(ParseEnum(b.value.0), input[b.value.1..])
    else if StartsWith(input, "Decimal(") then
      var b := ParenBody(input, 8);
      if b.Err? then Err else WithRest(ParseDecimal(b.value.0), input[b.value.1..])
    else if StartsWith(input, "Timestamp(") then
      var b := ParenBody(input, 10);
      if b.Err? then Err else WithRest(ParseTimestamp(b.value.0), input[b.value.1..])
    else ParseScalar(input)
  }

  function WithRest(t: Result<ColumnType>, rest: string): (r: Result<(ColumnType, string)>) {
    if t.Err? then Err else Ok((t.value, rest))
  }

  /** The fields of a struct body, blank parts skipped. */
  function ParseParts(parts: seq<string>, bound: nat): (r: Result<seq<Field>>)
    requires forall i :: 0 <= i < |parts| ==> |parts[i]| < bound
    decreases bound, |parts|
  {
    if parts == [] then Ok([])
    else
      var part := Trim(parts[0]);
      if part == "" then ParseParts(parts[1..], bound)
      else
        var f := ParseField(part);
        var rest := ParseParts(parts[1..], bound);
        if f.Err? || rest.Err? then Err else Ok([f.value] + rest.value)
  }

  function ParseField(part: string): (r: Result<Field>)
    decreases |part|, 1
  {
    var colon := Find(part, ':', 0);
    if colon == |part| then Err
    else
      var ty := ParseTypeName(Trim(part[colon + 1..]));
      if ty.Err? || Trim(ty.value.1) != "" then Err else Ok(Field(Trim(part[..colon]), ty.value.0))
  }

  function Parse(name: string): (r: Result<ColumnType>) {
    var t := ParseTypeName(Trim(name));
    if t.Err? || t.value.1 != "" then Err else Ok(t.value.0)
  }
}
