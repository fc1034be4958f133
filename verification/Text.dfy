/** The string operations the type-name parser leans on: trimming, splitting, ASCII case and decimal
numbers. */
module Text {
  import opened Rows

  predicate Space(c: char) {
    c == ' ' || c == '\t' || c == '\n' || c == '\r' || c == '\U{0B}' || c == '\U{0C}'
  }

  /** No space at either end. */
  predicate Trimmed(s: string) {
    s != "" ==> !Space(s[0]) && !Space(s[|s| - 1])
  }

  function TrimStart(s: string): (r: string)
    ensures |r| <= |s|
    ensures r != "" ==> !Space(r[0])
  {
    if s != "" && Space(s[0]) then TrimStart(s[1..]) else s
  }

  function TrimEnd(s: string): (r: string)
    ensures |r| <= |s| && r == s[..|r|]
    ensures r != "" ==> !Space(r[|r| - 1])
  {
    if s != "" && Space(s[|s| - 1]) then TrimEnd(s[..|s| - 1]) else s
  }

  function Trim(s: string): (r: string)
    ensures |r| <= |s| && Trimmed(r)
    ensures Trimmed(s) ==> r == s
  {
    TrimEnd(TrimStart(s))
  }

  predicate Spaces(s: string) {
    forall i :: 0 <= i < |s| ==> Space(s[i])
  }

  lemma {:induction false} TrimStartPadded(a: string, s: string)
    requires Spaces(a) && (s == "" || !Space(s[0]))
    ensures TrimStart(a + s) == s
  {
    if a == "" {
      assert a + s == s;
    } else {
      TrimStartPadded(a[1..], s);
      assert (a + s)[1..] == a[1..] + s && (a + s)[0] == a[0];
    }
  }

  lemma TrimEndStep(s: string, c: char)
    ensures TrimEnd(s + [c]) == if Space(c) then TrimEnd(s) else s + [c]
  {
    hide Space;
    assert (s + [c])[..|s|] == s && (s + [c])[|s|] == c;
  }

  lemma TrimEndDone(s: string)
    requires s == "" || !Space(s[|s| - 1])
    ensures TrimEnd(s) == s
  {
  }

  lemma {:induction false} TrimEndPadded(s: string, b: string)
    requires Spaces(b) && (s == "" || !Space(s[|s| - 1]))
    ensures TrimEnd(s + b) == s
  {
    hide Space, TrimEnd;
    if b == "" {
      assert s + b == s;
      TrimEndDone(s);
    } else {
      var n := |b| - 1;
      TrimEndPadded(s, b[..n]);
      TrimEndStep(s + b[..n], b[n]);
      assert s + b[..n] + [b[n]] == s + b;
    }
  }

  /** Trimming takes off all spaces around a text and nothing else. */
  lemma TrimExactly(a: string, s: string, b: string)
    requires Spaces(a) && Spaces(b) && s != "" && Trimmed(s)
    ensures Trim(a + s + b) == s
  {
    hide TrimStart, TrimEnd, Space;
    assert a + s + b == a + (s + b) && (s + b)[0] == s[0];
    TrimStartPadded(a, s + b);
    TrimEndPadded(s, b);
  }

  predicate StartsWith(s: string, prefix: string) {
    |prefix| <= |s| && s[..|prefix|] == prefix
  }

  predicate Without(s: string, c: char) {
    c !in s
  }

  /** Where `c` first stands in `s`, from `i` on; the length when it does not. */
  function Find(s: string, c: char, i: nat): (k: nat)
    requires i <= |s|
    ensures i <= k <= |s| && (k < |s| ==> s[k] == c)
    ensures forall j :: i <= j < k ==> s[j] != c
    decreases |s| - i
  {
    if i == |s| || s[i] == c then i else Find(s, c, i + 1)
  }

  lemma FindAt(s: string, c: char, t: string)
    requires Without(s, c)
    ensures Find(s + [c] + t, c, 0) == |s|
  {
    var k := Find(s + [c] + t, c, 0);
    assert (s + [c] + t)[|s|] == c;
    assert forall j :: 0 <= j < |s| ==> s[j] == (s + [c] + t)[j];
  }

  lemma FindNone(s: string, c: char)
    requires Without(s, c)
    ensures Find(s, c, 0) == |s|
  {
  }

  /** Splits at every `c`, as `str::split` does. */
  function Split(s: string, c: char): (parts: seq<string>)
    ensures parts != []
    decreases |s|
  {
    var k := Find(s, c, 0);
    if k == |s| then [s] else [s[..k]] + Split(s[k + 1..], c)
  }

  function Join(parts: seq<string>, c: char): (s: string) {
    if parts == [] then "" else if |parts| == 1 then parts[0] else parts[0] + [c] + Join(parts[1..], c)
  }

  /** Joining and splitting again, for parts that do not contain the separator. */
  lemma {:induction false} SplitJoin(parts: seq<string>, c: char)
    requires parts != [] && forall i :: 0 <= i < |parts| ==> Without(parts[i], c)
    ensures Split(Join(parts, c), c) == parts
  {
    var s := Join(parts, c);
    if |parts| == 1 {
      FindNone(s, c);
    } else {
      var rest := Join(parts[1..], c);
      FindAt(parts[0], c, rest);
      SplitJoin(parts[1..], c);
      assert s[..|parts[0]|] == parts[0] && s[|parts[0]| + 1..] == rest;
    }
  }

  /** Splitting loses nothing. */
  lemma {:induction false} JoinSplit(s: string, c: char)
    ensures Join(Split(s, c), c) == s && forall i :: 0 <= i < |Split(s, c)| ==> Without(Split(s, c)[i], c)
    decreases |s|
  {
    var k := Find(s, c, 0);
    if k < |s| {
      JoinSplit(s[k + 1..], c);
      var rest := Split(s[k + 1..], c);
      assert ([s[..k]] + rest)[1..] == rest;
      assert s == s[..k] + [c] + s[k + 1..];
    }
  }

  // ----- ASCII case -----

  /** No small letter, and no change but from a small letter to the capital. */
  function UpperChar(c: char): (r: char)
    ensures !('a' <= r <= 'z') && (r != c ==> 'A' <= r <= 'Z' && r as int + 32 == c as int)
  {
    if 'a' <= c <= 'z' then (c as int - 32) as char else c
  }

  function LowerChar(c: char): (r: char)
    ensures !('A' <= r <= 'Z') && (r != c ==> 'a' <= r <= 'z' && r as int == c as int + 32)
  {
    if 'A' <= c <= 'Z' then (c as int + 32) as char else c
  }

  function Upper(s: string): (r: string)
    ensures |r| == |s| && forall i :: 0 <= i < |s| ==> r[i] == UpperChar(s[i])
  {
    seq(|s|, i requires 0 <= i < |s| => UpperChar(s[i]))
  }

  function Lower(s: string): (r: string)
    ensures |r| == |s| && forall i :: 0 <= i < |s| ==> r[i] == LowerChar(s[i])
  {
    seq(|s|, i requires 0 <= i < |s| => LowerChar(s[i]))
  }

  // ----- decimal numbers -----

  predicate Digit(c: char) {
    '0' <= c <= '9'
  }

  predicate AllDigits(s: string) {
    s != "" && forall i :: 0 <= i < |s| ==> Digit(s[i])
  }

  function ShowNat(n: nat): (s: string)
    ensures AllDigits(s)
  {
    var last := ('0' as int + n % 10) as char;
    if n < 10 then [last] else ShowNat(n / 10) + [last]
  }

  function NatValue(s: string): (n: nat)
    requires AllDigits(s)
  {
    var d := s[|s| - 1] as int - '0' as int;
    if |s| == 1 then d else NatValue(s[..|s| - 1]) * 10 + d
  }

  lemma {:induction false} ShowNatValue(n: nat)
    ensures NatValue(ShowNat(n)) == n
  {
    if n >= 10 {
      ShowNatValue(n / 10);
      assert ShowNat(n)[..|ShowNat(n)| - 1] == ShowNat(n / 10);
    }
  }

  function ShowInt(n: int): (s: string)
    ensures s != ""
  {
    if n < 0 then "-" + ShowNat(-n) else ShowNat(n)
  }

  /** Rust's integer parsing: an optional sign, then digits; the value must be in range. A minus sign is
      only taken by the signed types. */
  function ParseInt(s: string, lo: int, hi: int): (r: Option<int>)
    requires lo <= 0 <= hi
    ensures r.Some? ==> lo <= r.value <= hi
  {
    if s == "" then None
    else
      var negative := s[0] == '-' && lo < 0;
      var digits := if s[0] == '+' || negative then s[1..] else s;
      if !AllDigits(digits) then None
      else
        var size: int := NatValue(digits);
        var v := if negative then 0 - size else size;
        if lo <= v <= hi then Some(v) else None
  }

  /** `s` is `v` in digits, perhaps behind a sign; a minus sign only if `signed`. */
  predicate Written(s: string, v: int, signed: bool) {
    || (AllDigits(s) && NatValue(s) == v)
    || (s != "" && s[0] == '+' && AllDigits(s[1..]) && NatValue(s[1..]) == v)
    || (signed && s != "" && s[0] == '-' && AllDigits(s[1..]) && NatValue(s[1..]) == -v)
  }

  /** A text is read as a number exactly when it is that number written, and in range. */
  lemma ParseIntExactly(s: string, lo: int, hi: int, v: int)
    requires lo <= 0 <= hi
    ensures ParseInt(s, lo, hi) == Some(v) <==> lo <= v <= hi && Written(s, v, lo < 0)
  {
    hide NatValue;
    assert !Digit('+') && !Digit('-');
  }

  lemma ParseShown(n: int, lo: int, hi: int)
    requires lo <= n <= hi && lo <= 0 <= hi
    ensures ParseInt(ShowInt(n), lo, hi) == Some(n)
  {
    ShowNatValue(if n < 0 then -n else n);
    var s := ShowInt(n);
    if n < 0 {
      assert s[1..] == ShowNat(-n);
    } else {
      assert Digit(s[0]);
    }
  }

  lemma DigitsPlain(s: string)
    requires AllDigits(s)
    ensures Trimmed(s) && Without(s, ',') && Without(s, ')') && Without(s, '<') && Without(s, '>') && Without(s, ':')
  {
    assert Digit(s[0]) && Digit(s[|s| - 1]);
  }

  /** A shown number is trimmed and free of the punctuation of type names. */
  lemma ShownPlain(n: int)
    ensures var s := ShowInt(n);
            Trimmed(s) && Without(s, ',') && Without(s, ')') && Without(s, '<') && Without(s, '>') && Without(s, ':')
  {
    var digits := ShowNat(if n < 0 then -n else n);
    DigitsPlain(digits);
    assert Digit(digits[|digits| - 1]);
  }
}
