/** Which names the type parser accepts (src/catalog/src/column_type.rs): the spellings of every scalar type and
every time unit, in any letter case. */
module TypeNames {
  import opened Rows
  import opened Text
  import opened ColumnTypes

  /** The spellings of each scalar type, in upper case: its own name, then the SQL ones. */
  function Spellings(k: ScalarKind): (names: set<string>) {
    match k
    case Int8 => {"INT8", "TINYINT"}
    case Int16 => {"INT16", "SMALLINT"}
    case Int32 => {"INT32", "INT", "INTEGER"}
    case Int64 => {"INT64", "BIGINT"}
    case UInt8 => {"UINT8"}
    case UInt16 => {"UINT16"}
    case UInt32 => {"UINT32"}
    case UInt64 => {"UINT64"}
    case Float32 => {"FLOAT32", "FLOAT", "REAL"}
    case Float64 => {"FLOAT64", "DOUBLE"}
    case Boolean => {"BOOLEAN", "BOOL"}
    case Utf8 => {"UTF8", "STRING", "VARCHAR", "TEXT"}
    case LargeUtf8 => {"LARGEUTF8", "LARGETEXT", "LONGTEXT", "LARGESTRING"}
    case TimestampKind => {"TIMESTAMP"}
    case Date32 => {"DATE", "DATE32"}
    case Binary => {"BINARY", "BLOB", "VARBINARY"}
    case LargeBinary => {"LARGEBINARY", "LARGEBLOB", "LONGBLOB"}
  }

  function UnitSpellings(u: TimeUnit): (names: set<string>) {
    match u
    case Second => {"second", "s", "sec"}
    case Millisecond => {"millisecond", "ms", "milli"}
    case Microsecond => {"microsecond", "us", "micro"}
    case Nanosecond => {"nanosecond", "ns", "nano"}
  }

  // ----- scalar types -----

  lemma KindIsSpelled(u: string)
    ensures KindOf(u).Ok? ==> u in Spellings(KindOf(u).value)
  {
  }

  lemma {:induction false} SignedSpelled(u: string, k: ScalarKind)
    requires (k.Int8? || k.Int16? || k.Int32? || k.Int64?) && u in Spellings(k)
    ensures KindOf(u) == Ok(k)
  {
  }

  lemma {:induction false} UnsignedSpelled(u: string, k: ScalarKind)
    requires (k.UInt8? || k.UInt16? || k.UInt32? || k.UInt64?) && u in Spellings(k)
    ensures KindOf(u) == Ok(k)
  {
  }

  lemma {:induction false} FloatsSpelled(u: string, k: ScalarKind)
    requires (k.Float32? || k.Float64? || k.Boolean?) && u in Spellings(k)
    ensures KindOf(u) == Ok(k)
  {
  }

  lemma {:induction false} TextsSpelled(u: string, k: ScalarKind)
    requires (k.Utf8?) && u in Spellings(k)
    ensures KindOf(u) == Ok(k)
  {
  }

  lemma {:induction false} LargeTextsSpelled(u: string, k: ScalarKind)
    requires (k.LargeUtf8?) && u in Spellings(k)
    ensures KindOf(u) == Ok(k)
  {
  }

  lemma {:induction false} TimesSpelled(u: string, k: ScalarKind)
    requires (k.TimestampKind? || k.Date32?) && u in Spellings(k)
    ensures KindOf(u) == Ok(k)
  {
  }

  lemma {:induction false} BinariesSpelled(u: string, k: ScalarKind)
    requires (k.Binary?) && u in Spellings(k)
    ensures KindOf(u) == Ok(k)
  {
  }

  lemma {:induction false} LargeBinariesSpelled(u: string, k: ScalarKind)
    requires (k.LargeBinary?) && u in Spellings(k)
    ensures KindOf(u) == Ok(k)
  {
  }

  /** A name is read as a scalar type if and only if, in upper case, it is one of that type's spellings. */
  lemma {:induction false} ScalarNames(name: string, k: ScalarKind)
    ensures ScalarFromName(name) == Ok(k) <==> Upper(name) in Spellings(k)
  {
    hide KindOf, Spellings, Upper;
    var u := Upper(name);
    KindIsSpelled(u);
    if u in Spellings(k) {
      if k.Int8? || k.Int16? || k.Int32? || k.Int64? {
        SignedSpelled(u, k);
      } else if k.UInt8? || k.UInt16? || k.UInt32? || k.UInt64? {
        UnsignedSpelled(u, k);
      } else if k.Float32? || k.Float64? || k.Boolean? {
        FloatsSpelled(u, k);
      } else if k.Utf8? {
        TextsSpelled(u, k);
      } else if k.LargeUtf8? {
        LargeTextsSpelled(u, k);
      } else if k.TimestampKind? || k.Date32? {
        TimesSpelled(u, k);
      } else if k.Binary? {
        BinariesSpelled(u, k);
      } else if k.LargeBinary? {
        LargeBinariesSpelled(u, k);
      }
    }
  }

  /** And it is refused if and only if it is nobody's spelling. */
  lemma ScalarRefused(name: string)
    ensures ScalarFromName(name).Err? <==> forall k :: Upper(name) !in Spellings(k)
  {
    hide KindOf, Spellings, Upper;
    forall k ensures ScalarFromName(name) == Ok(k) <==> Upper(name) in Spellings(k) {
      ScalarNames(name, k);
    }
  }

  // ----- time units -----

  lemma {:induction false} UnitNames(name: string, u: TimeUnit)
    ensures UnitFromName(name) == Ok(u) <==> Lower(name) in UnitSpellings(u)
  {
    hide Lower;
  }
}
