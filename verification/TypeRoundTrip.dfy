/** Parsing the canonical name of a well-formed type gives the type back, except where a struct has a
decimal or a timestamp with a time zone as a direct field: the comma inside their parentheses is taken
for the end of the field, and the name does not parse at all. */
module TypeRoundTrip {
  import opened Rows
  import opened Text
  import opened TypeScan
  import opened ColumnTypes
  import opened TypeNames

  /** A trimmed name without the punctuation of generic types. */
  predicate PlainName(s: string) {
    Trimmed(s) && Without(s, '<') && Without(s, '>') && Without(s, ',')
  }

  /** Types whose parts the catalog can hold: names and variants plain, numbers in range. */
  predicate WellFormed(t: ColumnType)
    decreases t
  {
    match t
    case Scalar(_) => true
    case Decimal(p, s) => 1 <= p <= 38 && -128 <= s <= 127
    case Timestamp(_, tz) => tz.Some? ==> tz.value != "" && PlainName(tz.value) && Without(tz.value, ')')
    case List(inner) => WellFormed(inner)
    case Struct(fields) => fields != [] && forall i :: 0 <= i < |fields| ==> WellFormedField(fields[i])
    case Enum(variants) => variants != [] && variants != [""] && forall i :: 0 <= i < |variants| ==> PlainName(variants[i])
  }

  predicate WellFormedField(f: Field)
    decreases f
  {
    PlainName(f.name) && Without(f.name, ':') && WellFormed(f.ty)
  }

  /** No comma shows outside angle brackets in the canonical name. */
  predicate Fieldable(t: ColumnType) {
    !t.Decimal? && !(t.Timestamp? && t.tz.Some?)
  }

  /** No struct, at any depth, has a direct field whose name shows a comma. */
  predicate Readable(t: ColumnType)
    decreases t
  {
    match t
    case List(inner) => Readable(inner)
    case Struct(fields) => forall i :: 0 <= i < |fields| ==> ReadableField(fields[i])
    case _ => true
  }

  predicate ReadableField(f: Field)
    decreases f
  {
    Fieldable(f.ty) && Readable(f.ty)
  }

  // ----- the shape of names -----

  predicate Plain(s: string) {
    s != "" && PlainName(s) && Without(s, ':') && Without(s, ')')
  }

  predicate Alnum(c: char) {
    'a' <= c <= 'z' || 'A' <= c <= 'Z' || '0' <= c <= '9'
  }

  predicate Word(s: string) {
    s != "" && forall i :: 0 <= i < |s| ==> Alnum(s[i])
  }

  lemma WordPlain(s: string)
    requires Word(s)
    ensures Plain(s)
  {
    assert Alnum(s[0]) && Alnum(s[|s| - 1]);
  }

  lemma {:induction false} ScalarPlain(k: ScalarKind)
    ensures Plain(ScalarName(k))
  {
    hide Plain;
    assert Word(ScalarName(k));
    WordPlain(ScalarName(k));
  }

  lemma {:induction false} UnitPlain(u: TimeUnit)
    ensures Plain(UnitName(u))
  {
    hide Plain;
    assert Word(UnitName(u));
    WordPlain(UnitName(u));
  }

  /** A name that is not empty, has no space at its ends, and is balanced. */
  predicate Shaped(s: string) {
    s != "" && Trimmed(s) && Balanced(s)
  }

  lemma ShapedGeneric(head: string, body: string)
    requires Plain(head) && Balanced(body)
    ensures Shaped(head + "<" + body + ">") && CommaFree(head + "<" + body + ">")
  {
    hide Balanced, CommaFree, Space;
    var s, b := head + "<" + body + ">", "<" + body + ">";
    assert s == head + b && s[|s| - 1] == '>' && s[0] == head[0];
    NotSpace();
    PlainBalanced(head);
    BalancedBody(body);
    BalancedConcat(head, b);
    CommaFreeBody(body);
    CommaFreePrefix(head, b);
  }

  lemma NotSpace()
    ensures !Space('>') && !Space(')')
  {
  }

  lemma ShapedParen(head: string, body: string)
    requires Plain(head) && Without(body, '<') && Without(body, '>')
    ensures Shaped(head + "(" + body + ")")
    ensures Without(body, ',') ==> CommaFree(head + "(" + body + ")")
  {
    hide Balanced, Space;
    var s := head + "(" + body + ")";
    assert s[|s| - 1] == ')' && s[0] == head[0];
    NotSpace();
    PlainBalanced(s);
  }

  lemma {:induction false} JoinPlain(parts: seq<string>)
    requires forall i :: 0 <= i < |parts| ==> PlainName(parts[i])
    ensures Without(Join(parts, ','), '<') && Without(Join(parts, ','), '>')
  {
    if |parts| > 1 {
      JoinPlain(parts[1..]);
    }
  }

  lemma PlainShaped(s: string)
    requires Plain(s)
    ensures Shaped(s) && CommaFree(s)
  {
    PlainBalanced(s);
  }

  /** Canonical names are bracket-balanced, and only decimals and zoned timestamps show a comma. */
  lemma {:induction false} CanonicalShaped(t: ColumnType)
    requires WellFormed(t)
    ensures Shaped(Canonical(t))
    ensures Fieldable(t) ==> CommaFree(Canonical(t))
    decreases t
  {
    hide Balanced, CommaFree, Trimmed, Shaped;
    match t
    case Scalar(k) =>
      ScalarPlain(k);
      PlainShaped(ScalarName(k));
    case Decimal(p, s) =>
      DecimalShaped(p, s);
    case Timestamp(u, tz) =>
      TimestampShaped(u, tz);
    case List(inner) =>
      CanonicalShaped(inner);
      ShapedIsBalanced(Canonical(inner));
      HeadsPlain();
      ShapedGeneric("List", Canonical(inner));
      assert "List<" == "List" + "<";
    case Struct(fields) =>
      FieldListBalanced(fields);
      HeadsPlain();
      ShapedGeneric("Struct", FieldList(fields));
      assert "Struct<" == "Struct" + "<";
    case Enum(variants) =>
      JoinPlain(variants);
      PlainBalanced(Join(variants, ','));
      HeadsPlain();
      ShapedGeneric("Enum", Join(variants, ','));
      assert "Enum<" == "Enum" + "<";
  }

  lemma HeadsPlain()
    ensures Plain("List") && Plain("Struct") && Plain("Enum") && Plain("Decimal") && Plain("Timestamp")
  {
    hide Plain;
    assert Word("List") && Word("Struct") && Word("Enum") && Word("Decimal") && Word("Timestamp");
    WordPlain("List");
    WordPlain("Struct");
    WordPlain("Enum");
    WordPlain("Decimal");
    WordPlain("Timestamp");
  }

  lemma ShapedIsBalanced(s: string)
    requires Shaped(s)
    ensures Balanced(s)
  {
  }

  lemma DecimalShaped(p: int, s: int)
    ensures Shaped(Canonical(Decimal(p, s)))
  {
    hide Balanced, Trimmed, Shaped;
    ShownPlain(p);
    ShownPlain(s);
    HeadsPlain();
    var body := ShowInt(p) + "," + ShowInt(s);
    ShapedParen("Decimal", body);
    assert Canonical(Decimal(p, s)) == "Decimal" + "(" + body + ")";
  }

  lemma {:induction false} TimestampShaped(u: TimeUnit, tz: Option<string>)
    requires WellFormed(Timestamp(u, tz))
    ensures Shaped(Canonical(Timestamp(u, tz)))
    ensures tz.None? ==> CommaFree(Canonical(Timestamp(u, tz)))
  {
    hide Balanced, Trimmed, Shaped, CommaFree, UnitName, Plain, PlainName;
    UnitPlain(u);
    HeadsPlain();
    if tz.Some? {
      PairPlain(UnitName(u), tz.value);
      ShapedParen("Timestamp", UnitName(u) + "," + tz.value);
    } else {
      PlainParts(UnitName(u));
      ShapedParen("Timestamp", UnitName(u));
    }
    TimestampText(u, tz);
  }

  lemma PairPlain(a: string, b: string)
    requires Plain(a) && PlainName(b)
    ensures Without(a + "," + b, '<') && Without(a + "," + b, '>')
  {
  }

  lemma PlainParts(a: string)
    requires Plain(a)
    ensures Without(a, '<') && Without(a, '>') && Without(a, ',')
  {
  }

  lemma TimestampText(u: TimeUnit, tz: Option<string>)
    ensures Canonical(Timestamp(u, tz)) ==
            "Timestamp" + "(" + (if tz.Some? then UnitName(u) + "," + tz.value else UnitName(u)) + ")"
  {
    hide UnitName;
    assert "Timestamp(" == "Timestamp" + "(";
    if tz.Some? {
      assert "Timestamp(" + UnitName(u) + "," + tz.value + ")" == "Timestamp" + "(" + (UnitName(u) + "," + tz.value) + ")";
    }
  }

  lemma {:induction false} FieldTextShaped(f: Field)
    requires WellFormedField(f)
    ensures Balanced(FieldText(f)) && FieldText(f) != "" && Trimmed(FieldText(f))
    ensures Fieldable(f.ty) ==> CommaFree(FieldText(f))
    decreases f, 1
  {
    hide Balanced, CommaFree, Space;
    CanonicalShaped(f.ty);
    var c, s := Canonical(f.ty), FieldText(f);
    assert s == (f.name + ":") + c;
    PlainBalanced(f.name + ":");
    BalancedConcat(f.name + ":", c);
    if Fieldable(f.ty) {
      CommaFreePrefix(f.name + ":", c);
    }
    assert s[|s| - 1] == c[|c| - 1];
    assert f.name != "" ==> s[0] == f.name[0];
    ColonNotSpace();
  }

  lemma ColonNotSpace()
    ensures !Space(':')
  {
  }

  lemma {:induction false} FieldListBalanced(fields: seq<Field>)
    requires forall i :: 0 <= i < |fields| ==> WellFormedField(fields[i])
    ensures Balanced(FieldList(fields))
    decreases fields
  {
    hide Balanced, Trimmed;
    if fields == [] {
      PlainBalanced("");
    } else {
      FieldTextShaped(fields[0]);
      if |fields| > 1 {
        FieldListBalanced(fields[1..]);
        PlainBalanced(",");
        BalancedConcat(FieldText(fields[0]), ",");
        BalancedConcat(FieldText(fields[0]) + ",", FieldList(fields[1..]));
      }
    }
  }

  // ----- what the parser does at each head -----

  lemma NotStart(s: string, prefix: string)
    requires prefix != "" && (s == "" || s[0] != prefix[0])
    ensures !StartsWith(s, prefix)
  {
    assert |prefix| <= |s| ==> s[..|prefix|][0] == s[0];
  }

  lemma ParseGeneric(head: string, body: string)
    requires Plain(head) && Balanced(body)
    ensures var s := head + "<" + body + ">";
            && Trim(s) == s && StartsWith(s, head + "<")
            && GenericBody(s, |head| + 1) == Ok((body, |s|)) && s[|s|..] == ""
  {
    hide Balanced, Trimmed;
    ShapedGeneric(head, body);
    var s, prefix := head + "<" + body + ">", head + "<";
    ShapedTrim(s);
    GenericBodyFound(prefix, body, "");
    assert prefix + body + ">" + "" == s && s[..|prefix|] == prefix;
  }

  lemma ShapedTrim(s: string)
    requires Shaped(s)
    ensures Trim(s) == s
  {
  }

  lemma ParseList(c: string)
    requires Balanced(c)
    ensures ParseTypeName("List<" + c + ">") ==
            var inner := ParseTypeName(c);
            if inner.Err? || inner.value.1 != "" then Err else Ok((List(inner.value.0), ""))
  {
    hide Balanced, Trim, GenericBody, Plain;
    HeadsPlain();
    ParseGeneric("List", c);
    assert "List" + "<" == "List<";
  }

  lemma ParseStruct(body: string)
    requires Balanced(body)
    ensures ParseTypeName("Struct<" + body + ">") ==
            var fields := ParseParts(TopParts(body), |body| + 1);
            if fields.Err? || fields.value == [] then Err else Ok((Struct(fields.value), ""))
  {
    hide Balanced, Trim, GenericBody, Plain, ParseParts, TopParts;
    HeadsPlain();
    ParseGeneric("Struct", body);
    assert "Struct" + "<" == "Struct<";
    NotStart("Struct<" + body + ">", "List<");
  }

  lemma ParseEnumName(body: string)
    requires Balanced(body)
    ensures ParseTypeName("Enum<" + body + ">") == WithRest(ParseEnum(body), "")
  {
    hide Balanced, Trim, GenericBody, Plain, ParseEnum;
    HeadsPlain();
    ParseGeneric("Enum", body);
    assert "Enum" + "<" == "Enum<";
    NotStart("Enum<" + body + ">", "List<");
    NotStart("Enum<" + body + ">", "Struct<");
  }

  lemma ParenFound(prefix: string, body: string, rest: string)
    requires Without(body, ')')
    ensures ParenBody(prefix + body + ")" + rest, |prefix|) == Ok((body, |prefix| + |body| + 1))
  {
    var s := prefix + body + ")" + rest;
    var k := Find(s, ')', |prefix|);
    assert forall j :: |prefix| <= j < |prefix| + |body| ==> s[j] == body[j - |prefix|];
    assert s[|prefix| + |body|] == ')';
    assert s[|prefix|..|prefix| + |body|] == body;
  }

  lemma ParseDecimalName(body: string)
    requires Without(body, ')') && Without(body, '<') && Without(body, '>')
    ensures ParseTypeName("Decimal(" + body + ")") == WithRest(ParseDecimal(body), "")
  {
    hide Trim, ParenBody, Plain, ParseDecimal, Balanced;
    var s := "Decimal(" + body + ")";
    HeadsPlain();
    ShapedParen("Decimal", body);
    assert "Decimal" + "(" == "Decimal(";
    ShapedTrim(s);
    ParenFound("Decimal(", body, "");
    assert s + "" == s;
    NotStart(s, "List<");
    NotStart(s, "Struct<");
    NotStart(s, "Enum<");
    assert s[..8] == "Decimal(" && s[|s|..] == "";
  }

  lemma ParseTimestampName(body: string)
    requires Without(body, ')') && Without(body, '<') && Without(body, '>')
    ensures ParseTypeName("Timestamp(" + body + ")") == WithRest(ParseTimestamp(body), "")
  {
    hide Trim, ParenBody, Plain, ParseTimestamp, Balanced;
    var s := "Timestamp(" + body + ")";
    HeadsPlain();
    ShapedParen("Timestamp", body);
    assert "Timestamp" + "(" == "Timestamp(";
    ShapedTrim(s);
    ParenFound("Timestamp(", body, "");
    assert s + "" == s;
    NotStart(s, "List<");
    NotStart(s, "Struct<");
    NotStart(s, "Enum<");
    NotStart(s, "Decimal(");
    assert s[..10] == "Timestamp(" && s[|s|..] == "";
  }

  /** Cut at the comma inside the parentheses, what is left of the name has no closing parenthesis. */
  lemma CutDecimal(p: string)
    requires Plain(p)
    ensures ParseTypeName("Decimal(" + p).Err?
  {
    hide PlainName;
    var s := "Decimal(" + p;
    CutTrimmed("Decimal(", p);
    NotStart(s, "List<");
    NotStart(s, "Struct<");
    NotStart(s, "Enum<");
    assert s[..8] == "Decimal(";
    NoParen("Decimal(", p);
  }

  lemma CutTimestamp(u: string)
    requires Plain(u)
    ensures ParseTypeName("Timestamp(" + u).Err?
  {
    hide PlainName;
    var s := "Timestamp(" + u;
    CutTrimmed("Timestamp(", u);
    NotStart(s, "List<");
    NotStart(s, "Struct<");
    NotStart(s, "Enum<");
    NotStart(s, "Decimal(");
    assert s[..10] == "Timestamp(";
    NoParen("Timestamp(", u);
  }

  lemma CutTrimmed(head: string, p: string)
    requires head != "" && Alnum(head[0]) && Plain(p)
    ensures Trim(head + p) == head + p && Trimmed(head + p)
  {
    assert (head + p)[|head + p| - 1] == p[|p| - 1];
  }

  lemma NoParen(head: string, p: string)
    requires Without(p, ')')
    ensures ParenBody(head + p, |head|).Err?
  {
    assert forall j :: |head| <= j < |head + p| ==> (head + p)[j] == p[j - |head|];
  }

  // ----- leaves -----

  lemma {:induction false} UpperSpelled(k: ScalarKind)
    ensures Upper(ScalarName(k)) in Spellings(k)
  {
    match k
    case Int8 => assert Upper("Int8") == "INT8";
    case Int16 => assert Upper("Int16") == "INT16";
    case Int32 => assert Upper("Int32") == "INT32";
    case Int64 => assert Upper("Int64") == "INT64";
    case UInt8 => assert Upper("UInt8") == "UINT8";
    case UInt16 => assert Upper("UInt16") == "UINT16";
    case UInt32 => assert Upper("UInt32") == "UINT32";
    case UInt64 => assert Upper("UInt64") == "UINT64";
    case Float32 => assert Upper("Float32") == "FLOAT32";
    case Float64 => assert Upper("Float64") == "FLOAT64";
    case Boolean => assert Upper("Boolean") == "BOOLEAN";
    case Utf8 => assert Upper("Utf8") == "UTF8";
    case LargeUtf8 => assert Upper("LargeUtf8") == "LARGEUTF8";
    case TimestampKind => assert Upper("Timestamp") == "TIMESTAMP";
    case Date32 => assert Upper("Date32") == "DATE32";
    case Binary => assert Upper("Binary") == "BINARY";
    case LargeBinary => assert Upper("LargeBinary") == "LARGEBINARY";
  }

  lemma {:induction false} ScalarBack(k: ScalarKind)
    ensures ScalarFromName(ScalarName(k)) == Ok(k)
  {
    hide KindOf, Upper, ScalarName, Spellings;
    UpperSpelled(k);
    ScalarNames(ScalarName(k), k);
  }

  lemma {:induction false} UnitBack(u: TimeUnit)
    ensures UnitFromName(UnitName(u)) == Ok(u)
  {
    match u
    case Second => assert Lower("Second") == "second";
    case Millisecond => assert Lower("Millisecond") == "millisecond";
    case Microsecond => assert Lower("Microsecond") == "microsecond";
    case Nanosecond => assert Lower("Nanosecond") == "nanosecond";
  }

  lemma {:induction false} ParseScalarName(k: ScalarKind)
    ensures ParseTypeName(ScalarName(k)) == Ok((Scalar(k), ""))
  {
    hide ScalarName, ScalarFromName, Space;
    var s := ScalarName(k);
    assert Word(s) by { ScalarWord(k); }
    ScalarPlain(k);
    WordNotGeneric(s);
    FindNone(s, '<');
    FindNone(s, ',');
    assert s[..|s|] == s && s[|s|..] == "";
    ScalarBack(k);
  }

  lemma {:induction false} ScalarWord(k: ScalarKind)
    ensures Word(ScalarName(k))
  {
  }

  lemma WordNotGeneric(s: string)
    requires Word(s)
    ensures !StartsWith(s, "List<") && !StartsWith(s, "Struct<") && !StartsWith(s, "Enum<")
    ensures !StartsWith(s, "Decimal(") && !StartsWith(s, "Timestamp(")
  {
    assert !Alnum('<') && !Alnum('(');
    NotPrefix(s, "List<", 4);
    NotPrefix(s, "Struct<", 6);
    NotPrefix(s, "Enum<", 4);
    NotPrefix(s, "Decimal(", 7);
    NotPrefix(s, "Timestamp(", 9);
  }

  lemma NotPrefix(s: string, prefix: string, i: nat)
    requires Word(s) && i < |prefix| && !Alnum(prefix[i])
    ensures !StartsWith(s, prefix)
  {
    assert |prefix| <= |s| ==> s[..|prefix|][i] == s[i];
  }

  lemma DecimalBody(p: int, s: int)
    requires 1 <= p <= 38 && -128 <= s <= 127
    ensures ParseDecimal(ShowInt(p) + "," + ShowInt(s)) == Ok(Decimal(p, s))
  {
    hide ShowInt, ParseInt, Space, Split;
    var a, b := ShowInt(p), ShowInt(s);
    ShownPlain(p);
    ShownPlain(s);
    assert Join([a, b], ',') == a + "," + b by { assert [a, b][1..] == [b]; }
    SplitJoin([a, b], ',');
    ParseShown(p, 0, 255);
    ParseShown(s, -128, 127);
  }

  lemma DecimalBack(p: int, s: int)
    requires 1 <= p <= 38 && -128 <= s <= 127
    ensures ParseTypeName(Canonical(Decimal(p, s))) == Ok((Decimal(p, s), ""))
  {
    hide ShowInt, ParseDecimal, Space, ParseTypeName, Trimmed;
    ShownPlain(p);
    ShownPlain(s);
    DecimalBody(p, s);
    var body := ShowInt(p) + "," + ShowInt(s);
    ParseDecimalName(body);
    assert Canonical(Decimal(p, s)) == "Decimal(" + body + ")";
  }

  lemma {:induction false} TimestampBack(u: TimeUnit, tz: Option<string>)
    requires WellFormed(Timestamp(u, tz))
    ensures ParseTypeName(Canonical(Timestamp(u, tz))) == Ok((Timestamp(u, tz), ""))
  {
    hide UnitName, UnitFromName, Space, ParseTypeName;
    var name := UnitName(u);
    UnitPlain(u);
    UnitBack(u);
    if tz.Some? {
      assert Join([name, tz.value], ',') == name + "," + tz.value by { assert [name, tz.value][1..] == [tz.value]; }
      SplitJoin([name, tz.value], ',');
      ParseTimestampName(name + "," + tz.value);
      assert Canonical(Timestamp(u, tz)) == "Timestamp(" + (name + "," + tz.value) + ")";
    } else {
      SplitJoin([name], ',');
      ParseTimestampName(name);
    }
  }

  lemma EnumBack(variants: seq<string>)
    requires WellFormed(Enum(variants))
    ensures ParseTypeName(Canonical(Enum(variants))) == Ok((Enum(variants), ""))
  {
    hide Space, ParseTypeName, Balanced;
    var body := Join(variants, ',');
    JoinPlain(variants);
    PlainBalanced(body);
    ParseEnumName(body);
    SplitJoin(variants, ',');
    assert TrimEach(variants) == variants;
    JoinNotEmpty(variants);
  }

  lemma JoinNotEmpty(variants: seq<string>)
    requires variants != [] && variants != [""]
    ensures Join(variants, ',') != ""
  {
    if |variants| == 1 {
      assert variants == [variants[0]];
    }
  }

  // ----- fields -----

  /** The part of a field's text before its first comma outside brackets. */
  function CutText(f: Field): (s: string)
    requires !Fieldable(f.ty)
  {
    f.name + ":" + CutType(f.ty)
  }

  function CutType(t: ColumnType): (s: string)
    requires !Fieldable(t)
  {
    if t.Decimal? then "Decimal(" + ShowInt(t.precision) else "Timestamp(" + UnitName(t.unit)
  }

  function CutRest(t: ColumnType): (s: string)
    requires !Fieldable(t)
  {
    if t.Decimal? then ShowInt(t.scale) + ")" else t.tz.value + ")"
  }

  lemma {:induction false} CutShaped(f: Field)
    requires WellFormedField(f) && !Fieldable(f.ty)
    ensures FieldText(f) == CutText(f) + "," + CutRest(f.ty)
    ensures Balanced(CutText(f)) && CommaFree(CutText(f)) && Trimmed(CutText(f)) && CutText(f) != ""
    ensures Trimmed(CutType(f.ty)) && ParseTypeName(CutType(f.ty)).Err?
  {
    hide Balanced, CommaFree, Trimmed, Plain, PlainName, ParseTypeName, ShowInt, UnitName;
    if f.ty.Decimal? {
      ShownNamePlain(f.ty.precision);
      CutDecimal(ShowInt(f.ty.precision));
      CutPart(f.name, "Decimal(", ShowInt(f.ty.precision));
      CutTrimmed("Decimal(", ShowInt(f.ty.precision));
    } else {
      UnitPlain(f.ty.unit);
      CutTimestamp(UnitName(f.ty.unit));
      CutPart(f.name, "Timestamp(", UnitName(f.ty.unit));
      CutTrimmed("Timestamp(", UnitName(f.ty.unit));
    }
    assert FieldText(f) == CutText(f) + "," + CutRest(f.ty);
  }

  lemma ShownNamePlain(n: int)
    ensures Plain(ShowInt(n))
  {
    hide ShowInt, Space;
    ShownPlain(n);
  }

  lemma CutPart(name: string, head: string, tail: string)
    requires PlainName(name) && Plain(tail) && (head == "Decimal(" || head == "Timestamp(")
    ensures var s := name + ":" + (head + tail);
            Balanced(s) && CommaFree(s) && Trimmed(s) && s != ""
  {
    hide Balanced, Space;
    HeadPlain();
    var s := name + ":" + (head + tail);
    assert s == (name + ":" + head) + tail;
    PlainBalanced(s);
    assert s[|s| - 1] == tail[|tail| - 1];
    assert name != "" ==> s[0] == name[0];
    ColonNotSpace();
  }

  lemma HeadPlain()
    ensures Without("Decimal(", '<') && Without("Decimal(", '>') && Without("Decimal(", ',')
    ensures Without("Timestamp(", '<') && Without("Timestamp(", '>') && Without("Timestamp(", ',')
  {
  }

  lemma {:induction false} FieldParses(f: Field)
    requires WellFormedField(f) && ParseTypeName(Canonical(f.ty)) == Ok((f.ty, ""))
    ensures ParseField(FieldText(f)) == Ok(f)
  {
    hide ParseTypeName, Canonical;
    CanonicalShaped(f.ty);
    var c, s := Canonical(f.ty), FieldText(f);
    FindAt(f.name, ':', c);
    assert s == f.name + [':'] + c && s[..|f.name|] == f.name && s[|f.name| + 1..] == c;
  }

  lemma FieldFails(name: string, text: string)
    requires Without(name, ':') && Trimmed(text) && ParseTypeName(text).Err?
    ensures ParseField(name + ":" + text).Err?
  {
    hide ParseTypeName;
    FindAt(name, ':', text);
    var s := name + ":" + text;
    assert s[|name| + 1..] == text;
  }

  predicate AllReadable(fields: seq<Field>) {
    forall i :: 0 <= i < |fields| ==> ReadableField(fields[i])
  }

  /** A field whose type shows no comma is read back when its type is. */
  lemma {:induction false} FieldBack(f: Field)
    requires WellFormedField(f) && Fieldable(f.ty)
    requires ParseTypeName(Canonical(f.ty)) == if Readable(f.ty) then Ok((f.ty, "")) else Err
    ensures ParseField(FieldText(f)) == if ReadableField(f) then Ok(f) else Err
    ensures Trim(FieldText(f)) == FieldText(f) && FieldText(f) != "" && Balanced(FieldText(f)) && CommaFree(FieldText(f))
  {
    hide ParseField, ParseTypeName, FieldText, Balanced, CommaFree, Trimmed;
    FieldTextShaped(f);
    ShapedPart(FieldText(f));
    if ReadableField(f) {
      FieldParses(f);
    } else {
      CanonicalTrimmed(f.ty);
      FieldFails(f.name, Canonical(f.ty));
      FieldTextIs(f);
    }
  }

  /** A struct body is read back field by field, up to the first field that shows a comma. */
  lemma {:induction false} FieldsBack(fields: seq<Field>, bound: nat)
    requires fields != [] && forall i :: 0 <= i < |fields| ==> WellFormedField(fields[i])
    requires |FieldList(fields)| < bound
    ensures ParseParts(TopParts(FieldList(fields)), bound) == if AllReadable(fields) then Ok(fields) else Err
    decreases fields, 0
  {
    hide ParseField, ParseTypeName, FieldText, Balanced, CommaFree, TopParts, Trimmed, Trim, Canonical;
    var f, rest := fields[0], fields[1..];
    var list := FieldList(fields);
    if !Fieldable(f.ty) {
      CutFieldFirst(fields, bound);
      assert !ReadableField(fields[0]);
    } else {
      ParseCanonical(f.ty);
      FieldBack(f);
      if rest == [] {
        TopPartsOne(list);
        assert [list][1..] == [];
        assert [f] + [] == fields;
      } else {
        TopPartsHead(FieldText(f), FieldList(rest));
        FieldsBack(rest, bound);
        assert ([FieldText(f)] + TopParts(FieldList(rest)))[1..] == TopParts(FieldList(rest));
        assert fields == [f] + rest;
      }
    }
  }

  lemma CutFieldFirst(fields: seq<Field>, bound: nat)
    requires fields != [] && WellFormedField(fields[0]) && !Fieldable(fields[0].ty) && |FieldList(fields)| < bound
    ensures ParseParts(TopParts(FieldList(fields)), bound) == Err
  {
    hide ParseField, ParseTypeName, FieldText, Balanced, CommaFree, TopParts, Trimmed, CutRest, CutType, WellFormed;
    var f, rest := fields[0], fields[1..];
    CutShaped(f);
    var tail := CutRest(f.ty) + (if rest == [] then "" else "," + FieldList(rest));
    assert FieldList(fields) == CutText(f) + "," + tail;
    TopPartsHead(CutText(f), tail);
    FieldFails(f.name, CutType(f.ty));
    ShapedPart(CutText(f));
  }

  lemma {:induction false} FieldTextIs(f: Field)
    ensures FieldText(f) == f.name + ":" + Canonical(f.ty)
  {
  }

  lemma {:induction false} CanonicalTrimmed(t: ColumnType)
    requires WellFormed(t)
    ensures Trimmed(Canonical(t))
  {
    CanonicalShaped(t);
  }

  lemma ShapedPart(s: string)
    requires Trimmed(s)
    ensures Trim(s) == s
  {
  }

  /** The canonical name of a well-formed type parses, to the type itself, if and only if no struct in it
      has a decimal or a zoned timestamp as a direct field. */
  lemma {:induction false} ParseCanonical(t: ColumnType)
    requires WellFormed(t)
    ensures ParseTypeName(Canonical(t)) == if Readable(t) then Ok((t, "")) else Err
    decreases t, 1
  {
    hide ParseTypeName, Balanced, Shaped, FieldList, TopParts, ParseParts;
    match t
    case Scalar(k) => ParseScalarName(k);
    case Decimal(p, s) => DecimalBack(p, s);
    case Timestamp(u, tz) => TimestampBack(u, tz);
    case Enum(variants) => EnumBack(variants);
    case List(inner) =>
      CanonicalShaped(inner);
      ShapedIsBalanced(Canonical(inner));
      ParseList(Canonical(inner));
      ParseCanonical(inner);
    case Struct(fields) =>
      FieldListBalanced(fields);
      ParseStruct(FieldList(fields));
      FieldsBack(fields, |FieldList(fields)| + 1);
  }

  lemma {:induction false} RoundTrip(t: ColumnType)
    requires WellFormed(t)
    ensures Parse(Canonical(t)) == if Readable(t) then Ok(t) else Err
  {
    hide ParseTypeName;
    CanonicalTrimmed(t);
    ParseCanonical(t);
  }

  /** Such a type exists, and its name is refused. */
  lemma StructOfDecimal()
    ensures var t := Struct([Field("a", Decimal(9, 2))]);
            WellFormed(t) && Parse(Canonical(t)) == Err
  {
    hide ParseTypeName, Canonical;
    var f := Field("a", Decimal(9, 2));
    assert Word("a");
    WordPlain("a");
    assert WellFormedField(f) && !ReadableField([f][0]);
    RoundTrip(Struct([f]));
  }

  /** Spaces around a name make no difference. */
  lemma {:induction false} PaddedRoundTrip(t: ColumnType, a: string, b: string)
    requires WellFormed(t) && Spaces(a) && Spaces(b)
    ensures Parse(a + Canonical(t) + b) == if Readable(t) then Ok(t) else Err
  {
    hide ParseTypeName, Trim, Canonical, Space;
    CanonicalShaped(t);
    TrimExactly(a, Canonical(t), b);
    ParseCanonical(t);
  }

  // ----- exactly what is read -----

  /** A decimal: two numbers and whatever follows a second comma, each with spaces around it if need be. */
  lemma DecimalExactly(body: string, p: int, s: int)
    ensures var parts := Split(body, ',');
            ParseDecimal(body) == Ok(Decimal(p, s)) <==>
              && |parts| >= 2 && 1 <= p <= 38 && -128 <= s <= 127
              && Written(Trim(parts[0]), p, false) && Written(Trim(parts[1]), s, true)
  {
    hide ParseInt, Written, Split, Trim;
    var parts: seq<string> := Split(body, ',');
    ParseIntExactly(Trim(parts[0]), 0, 255, p);
    if |parts| >= 2 {
      ParseIntExactly(Trim(parts[1]), -128, 127, s);
    }
  }

  /** A timestamp: a unit in any spelling, and a zone unless that is blank. */
  lemma {:induction false} TimestampExactly(body: string, u: TimeUnit, tz: Option<string>)
    ensures var parts := Split(body, ',');
            ParseTimestamp(body) == Ok(Timestamp(u, tz)) <==>
              && Lower(Trim(parts[0])) in UnitSpellings(u)
              && (tz.None? <==> |parts| == 1 || Trim(parts[1]) == "")
              && (tz.Some? ==> tz.value == Trim(parts[1]))
  {
    hide UnitFromName, UnitSpellings, Split, Trim, Lower;
    UnitNames(Trim(Split(body, ',')[0]), u);
  }

  lemma EmptyEnumRefused()
    ensures Parse("Enum<>") == Err
  {
    hide ParseTypeName, Trim, Balanced;
    PlainBalanced("");
    ParseEnumName("");
    assert "Enum<" + "" + ">" == "Enum<>";
    HeadsPlain();
    ParseGeneric("Enum", "");
    assert "Enum" + "<" + "" + ">" == "Enum<>";
  }

  lemma SpacesPlain(s: string)
    requires Spaces(s)
    ensures Without(s, ':')
  {
    assert !Space(':');
  }

  /** Spaces around the name and around the type of a field make no difference. */
  lemma {:induction false} FieldPadded(f: Field, a: string, b: string, c: string, d: string)
    requires WellFormedField(f) && f.name != "" && Spaces(a) && Spaces(b) && Spaces(c) && Spaces(d)
    ensures ParseField(a + f.name + b + ":" + (c + Canonical(f.ty) + d)) == if Readable(f.ty) then Ok(f) else Err
  {
    hide ParseTypeName, Trim, Space, Canonical;
    var front, back := a + f.name + b, c + Canonical(f.ty) + d;
    var part := front + [':'] + back;
    SpacesPlain(a);
    SpacesPlain(b);
    FindAt(front, ':', back);
    CanonicalShaped(f.ty);
    TrimExactly(a, f.name, b);
    TrimExactly(c, Canonical(f.ty), d);
    ParseCanonical(f.ty);
    NoSpaceLeft();
    assert part == front + ":" + back && part[..|front|] == front && part[|front| + 1..] == back;
  }

  lemma NoSpaceLeft()
    ensures Trim("") == ""
  {
  }

  // ----- what can come out -----

  /** Numbers in range, no empty struct, no enum without variants, at any depth. */
  predicate Sane(t: ColumnType)
    decreases t
  {
    match t
    case Decimal(p, s) => 1 <= p <= 38 && -128 <= s <= 127
    case List(inner) => Sane(inner)
    case Struct(fields) => fields != [] && forall i :: 0 <= i < |fields| ==> SaneField(fields[i])
    case Enum(variants) => variants != []
    case _ => true
  }

  predicate SaneField(f: Field)
    decreases f
  {
    Sane(f.ty)
  }

  lemma DecimalSane(body: string)
    ensures ParseDecimal(body).Ok? ==> Sane(ParseDecimal(body).value)
  {
    hide ParseInt, Split, Trim;
  }

  /** Whatever the text, a type that is read is a sane one. */
  lemma {:induction false} ParsedSane(text: string)
    ensures ParseTypeName(text).Ok? ==> Sane(ParseTypeName(text).value.0)
    decreases |text|, 0
  {
    hide GenericBody, ParenBody, ParseDecimal, ParseTimestamp, ParseScalar, TopParts, Split, Trim, ParseParts;
    var input := Trim(text);
    if StartsWith(input, "List<") {
      var b := GenericBody(input, 5);
      if b.Ok? {
        ParsedSane(b.value.0);
      }
    } else if StartsWith(input, "Struct<") {
      var b := GenericBody(input, 7);
      if b.Ok? {
        PartsSane(TopParts(b.value.0), |b.value.0| + 1);
      }
    } else if StartsWith(input, "Enum<") {
    } else if StartsWith(input, "Decimal(") {
      var b := ParenBody(input, 8);
      if b.Ok? {
        DecimalSane(b.value.0);
      }
    } else if StartsWith(input, "Timestamp(") {
      var b := ParenBody(input, 10);
      if b.Ok? {
        TimestampSane(b.value.0);
      }
    } else {
      ScalarSane(input);
    }
  }

  lemma TimestampSane(body: string)
    ensures ParseTimestamp(body).Ok? ==> Sane(ParseTimestamp(body).value)
  {
    hide Split, Trim, UnitFromName;
  }

  lemma ScalarSane(input: string)
    ensures ParseScalar(input).Ok? ==> Sane(ParseScalar(input).value.0)
  {
    hide ScalarFromName, Find, Trim;
  }

  lemma {:induction false} PartsSane(parts: seq<string>, bound: nat)
    requires forall i :: 0 <= i < |parts| ==> |parts[i]| < bound
    ensures var r := ParseParts(parts, bound);
            r.Ok? ==> forall i :: 0 <= i < |r.value| ==> SaneField(r.value[i])
    decreases bound, |parts|
  {
    hide ParseField, Trim;
    if parts != [] {
      PartsSane(parts[1..], bound);
      var part := Trim(parts[0]);
      if part != "" {
        FieldSane(part);
      }
    }
  }

  lemma {:induction false} FieldSane(part: string)
    ensures ParseField(part).Ok? ==> SaneField(ParseField(part).value)
    decreases |part|, 1
  {
    hide ParseTypeName, Find;
    var colon := Find(part, ':', 0);
    if colon < |part| {
      ParsedSane(Trim(part[colon + 1..]));
    }
  }

  /** So nothing else comes out of the catalog's parser. */
  lemma ParseSane(name: string)
    ensures Parse(name).Ok? ==> Sane(Parse(name).value)
  {
    hide ParseTypeName;
    ParsedSane(Trim(name));
  }

  // ----- nothing may follow a type -----

  /** A text that does not end in a space. */
  predicate Ends(s: string) {
    s != "" && !Space(s[|s| - 1])
  }

  lemma EndsTrimmed(head: string, rest: string)
    requires head != "" && Alnum(head[0]) && Ends(rest)
    ensures Trim(head + rest) == head + rest
  {
    assert (head + rest)[|head + rest| - 1] == rest[|rest| - 1];
  }

  /** A bracketed type in front of a text: where its body is, and what stands behind it. */
  lemma BodyAndRest(head: string, body: string, rest: string)
    requires head != "" && Alnum(head[0]) && Balanced(body) && Ends(rest)
    ensures var s := head + "<" + body + ">" + rest;
            && Trim(s) == s && StartsWith(s, head + "<") && s[0] == head[0]
            && GenericBody(s, |head| + 1) == Ok((body, |head| + |body| + 2)) && s[|head| + |body| + 2..] == rest
  {
    hide Balanced, Trim, GenericBody, Space;
    var prefix, s := head + "<", head + "<" + body + ">" + rest;
    var front := prefix + body + ">";
    assert s == front + rest;
    EndsTrimmed(front, rest);
    GenericBodyFound(prefix, body, rest);
    assert s[..|prefix|] == prefix && s[|front|..] == rest;
  }

  lemma ParenAndRest(head: string, body: string, rest: string)
    requires head != "" && Alnum(head[0]) && Without(body, ')') && Ends(rest)
    ensures var s := head + "(" + body + ")" + rest;
            && Trim(s) == s && StartsWith(s, head + "(") && s[0] == head[0]
            && ParenBody(s, |head| + 1) == Ok((body, |head| + |body| + 2)) && s[|head| + |body| + 2..] == rest
  {
    hide Trim, ParenBody, Space;
    var prefix, s := head + "(", head + "(" + body + ")" + rest;
    var front := prefix + body + ")";
    assert s == front + rest;
    EndsTrimmed(front, rest);
    ParenFound(prefix, body, rest);
    assert s[..|prefix|] == prefix && s[|front|..] == rest;
  }

  /** What is left behind a bracketed type is what stood behind its closing bracket. */
  lemma ListRest(body: string, rest: string)
    requires Balanced(body) && Ends(rest)
    ensures var r := ParseTypeName("List" + "<" + body + ">" + rest);
            r.Ok? ==> r.value.1 == rest
  {
    hide Balanced, Trim, GenericBody, Space;
    BodyAndRest("List", body, rest);
    assert "List" + "<" == "List<";
  }

  lemma StructRest(body: string, rest: string)
    requires Balanced(body) && Ends(rest)
    ensures var r := ParseTypeName("Struct" + "<" + body + ">" + rest);
            r.Ok? ==> r.value.1 == rest
  {
    hide Balanced, Trim, GenericBody, ParseParts, TopParts, Space;
    BodyAndRest("Struct", body, rest);
    assert "Struct" + "<" == "Struct<";
    NotStart("Struct" + "<" + body + ">" + rest, "List<");
  }

  lemma EnumRest(body: string, rest: string)
    requires Balanced(body) && Ends(rest)
    ensures var r := ParseTypeName("Enum" + "<" + body + ">" + rest);
            r.Ok? ==> r.value.1 == rest
  {
    hide Balanced, Trim, GenericBody, ParseEnum, Space;
    BodyAndRest("Enum", body, rest);
    assert "Enum" + "<" == "Enum<";
    NotStart("Enum" + "<" + body + ">" + rest, "List<");
    NotStart("Enum" + "<" + body + ">" + rest, "Struct<");
  }

  lemma DecimalRest(body: string, rest: string)
    requires Without(body, ')') && Ends(rest)
    ensures var r := ParseTypeName("Decimal" + "(" + body + ")" + rest);
            r.Ok? ==> r.value.1 == rest
  {
    hide Trim, ParenBody, ParseDecimal, Space;
    var s := "Decimal" + "(" + body + ")" + rest;
    ParenAndRest("Decimal", body, rest);
    assert "Decimal" + "(" == "Decimal(";
    NotStart(s, "List<");
    NotStart(s, "Struct<");
    NotStart(s, "Enum<");
  }

  lemma TimestampRest(body: string, rest: string)
    requires Without(body, ')') && Ends(rest)
    ensures var r := ParseTypeName("Timestamp" + "(" + body + ")" + rest);
            r.Ok? ==> r.value.1 == rest
  {
    hide Trim, ParenBody, ParseTimestamp, Space;
    var s := "Timestamp" + "(" + body + ")" + rest;
    ParenAndRest("Timestamp", body, rest);
    assert "Timestamp" + "(" == "Timestamp(";
    NotStart(s, "List<");
    NotStart(s, "Struct<");
    NotStart(s, "Enum<");
    NotStart(s, "Decimal(");
  }

  lemma NotHead(name: string, rest: string, head: string, bracket: char)
    requires Word(name) && Word(head) && rest != "" && !Alnum(rest[0]) && !Alnum(bracket)
    requires name != head || rest[0] != bracket
    ensures !StartsWith(name + rest, head + [bracket])
  {
    var s, prefix := name + rest, head + [bracket];
    assert s[|name|] == rest[0] && prefix[|head|] == bracket;
    assert StartsWith(s, prefix) ==> forall j :: 0 <= j < |prefix| ==> s[j] == prefix[j];
    assert StartsWith(s, prefix) && |name| == |head| ==> name == head by {
      assert |name| == |head| ==> s[..|prefix|][..|head|] == name && prefix[..|head|] == head;
    }
  }

  lemma {:induction false} ScalarNoHead(k: ScalarKind)
    ensures ScalarName(k) != "List" && ScalarName(k) != "Struct" && ScalarName(k) != "Enum"
  {
  }

  lemma HeadWords()
    ensures Word("List") && Word("Struct") && Word("Enum") && Word("Decimal") && Word("Timestamp")
    ensures "List" + ['<'] == "List<" && "Struct" + ['<'] == "Struct<" && "Enum" + ['<'] == "Enum<"
    ensures "Decimal" + ['('] == "Decimal(" && "Timestamp" + ['('] == "Timestamp("
    ensures !Alnum('<') && !Alnum('(') && !Alnum(',')
  {
  }

  /** A scalar name and a comma or bracket begin no other type. */
  lemma {:induction false} ScalarNotGeneric(k: ScalarKind, rest: string)
    requires rest != "" && (rest[0] == ',' || rest[0] == '<')
    ensures var s := ScalarName(k) + rest;
            && !StartsWith(s, "List<") && !StartsWith(s, "Struct<") && !StartsWith(s, "Enum<")
            && !StartsWith(s, "Decimal(") && !StartsWith(s, "Timestamp(")
  {
    hide ScalarName, Word, Alnum, StartsWith;
    var name := ScalarName(k);
    ScalarWord(k);
    ScalarNoHead(k);
    HeadWords();
    NotHead(name, rest, "List", '<');
    NotHead(name, rest, "Struct", '<');
    NotHead(name, rest, "Enum", '<');
    NotHead(name, rest, "Decimal", '(');
    NotHead(name, rest, "Timestamp", '(');
  }

  /** The scalar parser reads up to the comma or bracket. */
  lemma NameBefore(name: string, rest: string)
    requires Word(name) && rest != "" && (rest[0] == ',' || rest[0] == '<')
    ensures var s := name + rest;
            var lt, comma := Find(s, '<', 0), Find(s, ',', 0);
            s[..if lt < comma then lt else comma] == name && s[|name|..] == rest
  {
    var s := name + rest;
    assert s[|name|] == rest[0] && forall j :: 0 <= j < |name| ==> s[j] == name[j];
    assert !Alnum('<') && !Alnum(',');
  }

  lemma {:induction false} ScalarRest(k: ScalarKind, rest: string)
    requires Ends(rest) && (rest[0] == ',' || rest[0] == '<')
    ensures var r := ParseTypeName(ScalarName(k) + rest);
            r.Ok? ==> r.value.1 != ""
  {
    hide ScalarName, ScalarFromName, Space, StartsWith, Find, Alnum;
    ScalarWord(k);
    EndsTrimmed(ScalarName(k), rest);
    ScalarPlain(k);
    NameBefore(ScalarName(k), rest);
    ScalarNotGeneric(k, rest);
  }

  lemma DecimalSuffix(p: int, n: int, rest: string)
    requires Ends(rest)
    ensures var r := ParseTypeName(Canonical(Decimal(p, n)) + rest);
            r.Ok? ==> r.value.1 == rest
  {
    hide ParseTypeName, Space, ShowInt;
    var body := ShowInt(p) + "," + ShowInt(n);
    ShownNamePlain(p);
    ShownNamePlain(n);
    DecimalRest(body, rest);
    assert Canonical(Decimal(p, n)) == "Decimal" + "(" + body + ")";
  }

  lemma {:induction false} TimestampSuffix(u: TimeUnit, tz: Option<string>, rest: string)
    requires WellFormed(Timestamp(u, tz)) && Ends(rest)
    ensures var r := ParseTypeName(Canonical(Timestamp(u, tz)) + rest);
            r.Ok? ==> r.value.1 == rest
  {
    hide ParseTypeName, Space, UnitName;
    UnitPlain(u);
    if tz.Some? {
      var body := UnitName(u) + "," + tz.value;
      TimestampRest(body, rest);
      assert Canonical(Timestamp(u, tz)) == "Timestamp" + "(" + body + ")";
    } else {
      TimestampRest(UnitName(u), rest);
      assert Canonical(Timestamp(u, tz)) == "Timestamp" + "(" + UnitName(u) + ")";
    }
  }

  lemma {:induction false} BracketSuffix(t: ColumnType, rest: string)
    requires WellFormed(t) && (t.List? || t.Struct? || t.Enum?) && Ends(rest)
    ensures var r := ParseTypeName(Canonical(t) + rest);
            r.Ok? ==> r.value.1 == rest
  {
    hide ParseTypeName, Balanced, Shaped, Space, FieldList, Join;
    if t.List? {
      CanonicalShaped(t.inner);
      ShapedIsBalanced(Canonical(t.inner));
      ListRest(Canonical(t.inner), rest);
      assert Canonical(t) == "List" + "<" + Canonical(t.inner) + ">";
    } else if t.Struct? {
      FieldListBalanced(t.fields);
      StructRest(FieldList(t.fields), rest);
      assert Canonical(t) == "Struct" + "<" + FieldList(t.fields) + ">";
    } else {
      JoinPlain(t.variants);
      PlainBalanced(Join(t.variants, ','));
      EnumRest(Join(t.variants, ','), rest);
      assert Canonical(t) == "Enum" + "<" + Join(t.variants, ',') + ">";
    }
  }

  /** The name of a type with anything behind it is refused. Behind a scalar name, letters would make another
      name, so there it is a comma or an opening bracket. */
  lemma {:induction false} SuffixRefused(t: ColumnType, rest: string)
    requires WellFormed(t) && Ends(rest) && (t.Scalar? ==> rest[0] == ',' || rest[0] == '<')
    ensures Parse(Canonical(t) + rest) == Err
  {
    hide ParseTypeName, Space, Trim, ScalarName, Canonical;
    CanonicalStarts(t);
    EndsTrimmed(Canonical(t), rest);
    match t
    case Scalar(k) =>
      ScalarIs(k);
      ScalarRest(k, rest);
    case Decimal(p, n) => DecimalSuffix(p, n, rest);
    case Timestamp(u, tz) => TimestampSuffix(u, tz, rest);
    case _ => BracketSuffix(t, rest);
  }

  lemma {:induction false} ScalarIs(k: ScalarKind)
    ensures Canonical(Scalar(k)) == ScalarName(k)
  {
  }

  lemma {:induction false} CanonicalStarts(t: ColumnType)
    ensures Canonical(t) != "" && Alnum(Canonical(t)[0])
  {
    hide FieldList, ShowInt, UnitName, Join;
    if t.Scalar? {
      ScalarWord(t.kind);
    }
  }
}
