/** SST file names (src/storage/src/compaction/sst_id.rs): an identity is written into the name of its
file and read back from it when the index is rebuilt. */
module SstName {
  import opened Rows
  import opened Sst
  import opened Text

  const I64_MAX: int := 0x7FFF_FFFF_FFFF_FFFF
  const I64_MIN: int := -0x8000_0000_0000_0000

  type i64 = x: int | I64_MIN <= x <= I64_MAX witness 0

  datatype Identity = Identity(creationTime: i64, minLsn: u64, maxLsn: u64, inner: u32, cross: u32)

  const SUFFIX := ".parquet"

  function Parts(id: Identity): (p: seq<string>) {
    [ShowInt(id.creationTime), ShowInt(id.minLsn), ShowInt(id.maxLsn), ShowInt(id.inner), ShowInt(id.cross)]
  }

  function Filename(id: Identity): (name: string) {
    Join(Parts(id), '-') + SUFFIX
  }

  function StagingName(uuid: string): (name: string) {
    "staging-" + uuid + SUFFIX
  }

  predicate EndsWith(s: string, suffix: string) {
    |suffix| <= |s| && s[|s| - |suffix|..] == suffix
  }

  /** Five numbers between dashes, each in the range of its field; staging files are refused. */
  function ParseFilename(name: string): (r: Result<Identity>) {
    if !EndsWith(name, SUFFIX) then Err
    else
      var stem := name[..|name| - |SUFFIX|];
      if StartsWith(stem, "staging-") then Err
      else ParseParts(Split(stem, '-'))
  }

  function ParseParts(parts: seq<string>): (r: Result<Identity>) {
    if |parts| != 5 then Err
    else
      var t, a, b := ParseInt(parts[0], I64_MIN, I64_MAX), ParseInt(parts[1], 0, U64_MAX), ParseInt(parts[2], 0, U64_MAX);
      var i, c := ParseInt(parts[3], 0, U32_MAX), ParseInt(parts[4], 0, U32_MAX);
      if t.None? || a.None? || b.None? || i.None? || c.None? then Err
      else Ok(Identity(t.value, a.value, b.value, i.value, c.value))
  }

  /** Exactly what is read: five numbers, each written in the range of its field, between dashes. */
  lemma ReadExactly(parts: seq<string>, id: Identity)
    ensures ParseParts(parts) == Ok(id) <==>
              && |parts| == 5 && Written(parts[0], id.creationTime, true)
              && Written(parts[1], id.minLsn, false) && Written(parts[2], id.maxLsn, false)
              && Written(parts[3], id.inner, false) && Written(parts[4], id.cross, false)
  {
    hide ParseInt, Written;
    if |parts| == 5 {
      ParseIntExactly(parts[0], I64_MIN, I64_MAX, id.creationTime);
      ParseIntExactly(parts[1], 0, U64_MAX, id.minLsn);
      ParseIntExactly(parts[2], 0, U64_MAX, id.maxLsn);
      ParseIntExactly(parts[3], 0, U32_MAX, id.inner);
      ParseIntExactly(parts[4], 0, U32_MAX, id.cross);
    }
  }

  lemma StripSuffix(stem: string)
    ensures EndsWith(stem + SUFFIX, SUFFIX) && (stem + SUFFIX)[..|stem + SUFFIX| - |SUFFIX|] == stem
  {
  }

  lemma DigitsNoDash(n: nat)
    ensures Without(ShowNat(n), '-') && ShowNat(n)[0] != 's'
  {
    assert Digit(ShowNat(n)[0]);
  }

  lemma PartsBack(id: Identity)
    ensures ParseParts(Parts(id)) == Ok(id)
  {
    hide ShowInt, ParseInt;
    ParseShown(id.creationTime, I64_MIN, I64_MAX);
    ParseShown(id.minLsn, 0, U64_MAX);
    ParseShown(id.maxLsn, 0, U64_MAX);
    ParseShown(id.inner, 0, U32_MAX);
    ParseShown(id.cross, 0, U32_MAX);
  }

  lemma NotStaging(s: string)
    requires s != "" && s[0] != 's'
    ensures !StartsWith(s, "staging-")
  {
    assert 8 <= |s| ==> s[..8][0] == s[0];
  }

  lemma JoinFirst(first: string, rest: seq<string>)
    requires first != "" && rest != []
    ensures Join([first] + rest, '-') == first + "-" + Join(rest, '-') && Join([first] + rest, '-')[0] == first[0]
  {
    assert ([first] + rest)[1..] == rest;
  }

  function Numbers(id: Identity): (p: seq<string>) {
    [ShowNat(id.minLsn), ShowNat(id.maxLsn), ShowNat(id.inner), ShowNat(id.cross)]
  }

  function Magnitude(n: int): (m: nat) { if n < 0 then 0 - n else n }

  /** The name without its sign, split at the dashes. */
  lemma PlainSplit(id: Identity)
    ensures var plain := [ShowNat(Magnitude(id.creationTime))] + Numbers(id);
            Split(Join(plain, '-'), '-') == plain && |plain| == 5
            && Join(plain, '-') != "" && Join(plain, '-')[0] != 's'
  {
    hide ShowNat, Join, Split;
    DigitsNoDash(Magnitude(id.creationTime));
    DigitsNoDash(id.minLsn);
    DigitsNoDash(id.maxLsn);
    DigitsNoDash(id.inner);
    DigitsNoDash(id.cross);
    JoinFirst(ShowNat(Magnitude(id.creationTime)), Numbers(id));
    SplitJoin([ShowNat(Magnitude(id.creationTime))] + Numbers(id), '-');
  }

  /** A name gives its identity back if and only if its creation time is not negative: the sign is taken
      for a separator. */
  lemma NameRoundTrip(id: Identity)
    ensures ParseFilename(Filename(id)) == if id.creationTime >= 0 then Ok(id) else Err
  {
    hide ShowNat, ParseParts, Join, Split;
    var plain := [ShowNat(Magnitude(id.creationTime))] + Numbers(id);
    PlainSplit(id);
    if id.creationTime >= 0 {
      assert Parts(id) == plain;
      StripSuffix(Join(plain, '-'));
      NotStaging(Join(plain, '-'));
      PartsBack(id);
    } else {
      var signed := "-" + plain[0];
      assert Parts(id) == [signed] + Numbers(id);
      JoinFirst(signed, Numbers(id));
      JoinFirst(plain[0], Numbers(id));
      var stem := Join(Parts(id), '-');
      assert stem == "" + "-" + Join(plain, '-');
      SplitNegative(Join(plain, '-'));
      StripSuffix(stem);
      NotStaging(stem);
      TooManyParts(plain);
    }
  }

  lemma SplitNegative(s: string)
    ensures Split("" + "-" + s, '-') == [""] + Split(s, '-')
  {
    var t := "" + "-" + s;
    FindAt("", '-', s);
    assert t == "" + ['-'] + s && t[..0] == "" && t[1..] == s;
  }

  lemma TooManyParts(parts: seq<string>)
    requires |parts| == 5
    ensures ParseParts([""] + parts) == Err
  {
  }

  lemma DigitsShown()
    ensures ShowInt(7) == "7" && ShowInt(1) == "1" && ShowInt(5) == "5" && ShowInt(0) == "0" && ShowInt(2) == "2"
  {
  }

  /** A name, character for character. */
  lemma NameVector()
    ensures Filename(Identity(7, 1, 5, 0, 2)) == "7-1-5-0-2.parquet"
  {
    hide ShowNat, ShowInt;
    var p := ["7", "1", "5", "0", "2"];
    assert Parts(Identity(7, 1, 5, 0, 2)) == p by { DigitsShown(); }
    assert p[1..] == ["1", "5", "0", "2"] && ["1", "5", "0", "2"][1..] == ["5", "0", "2"];
    assert ["5", "0", "2"][1..] == ["0", "2"] && ["0", "2"][1..] == ["2"];
    assert Join(["0", "2"], '-') == "0-2";
    assert Join(["5", "0", "2"], '-') == "5-0-2";
    assert Join(["1", "5", "0", "2"], '-') == "1-5-0-2";
  }

  lemma StagingRefused(uuid: string)
    ensures ParseFilename(StagingName(uuid)) == Err
  {
    var stem := "staging-" + uuid;
    StripSuffix(stem);
    assert stem[..8] == "staging-";
  }
}
