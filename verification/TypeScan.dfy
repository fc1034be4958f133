/** The scanners of the type-name parser (src/catalog/src/column_type.rs): they find the end of a
bracketed body and the commas outside brackets by counting angle brackets. */
module TypeScan {
  import opened Rows
  import opened Text

  function Delta(c: char): (d: int) {
    if c == '<' then 1 else if c == '>' then -1 else 0
  }

  /** Opening minus closing angle brackets. */
  function Net(s: string): (n: int) {
    if s == "" then 0 else Net(s[..|s| - 1]) + Delta(s[|s| - 1])
  }

  /** Every bracket that closes was opened, and all are closed. */
  predicate Balanced(s: string) {
    Net(s) == 0 && forall k :: 0 <= k <= |s| ==> Net(s[..k]) >= 0
  }

  lemma {:induction false} NetConcat(a: string, b: string)
    ensures Net(a + b) == Net(a) + Net(b)
  {
    if b == "" {
      assert a + b == a;
    } else {
      NetConcat(a, b[..|b| - 1]);
      assert (a + b)[..|a + b| - 1] == a + b[..|b| - 1];
    }
  }

  lemma BalancedConcat(a: string, b: string)
    requires Balanced(a) && Balanced(b)
    ensures Balanced(a + b)
  {
    hide Net;
    NetConcat(a, b);
    forall k | 0 <= k <= |a + b|
      ensures Net((a + b)[..k]) >= 0
    {
      if k <= |a| {
        assert (a + b)[..k] == a[..k];
      } else {
        assert (a + b)[..k] == a + b[..k - |a|];
        NetConcat(a, b[..k - |a|]);
      }
    }
  }

  lemma BalancedBody(s: string)
    requires Balanced(s)
    ensures Balanced("<" + s + ">")
  {
    hide Net;
    var all := "<" + s + ">";
    NetOne('<');
    NetOne('>');
    NetNone();
    NetConcat("<", s);
    NetConcat("<" + s, ">");
    forall k | 0 <= k <= |all|
      ensures Net(all[..k]) >= 0
    {
      if k == 0 {
        assert all[..k] == "";
      } else if k <= |s| + 1 {
        assert all[..k] == "<" + s[..k - 1];
        NetConcat("<", s[..k - 1]);
      } else {
        assert all[..k] == all;
      }
    }
  }

  lemma NetNone()
    ensures Net("") == 0
  {
  }

  lemma NetOne(c: char)
    ensures Net([c]) == Delta(c)
  {
    assert [c][..0] == "";
  }

  /** Text without angle brackets. */
  lemma {:induction false} PlainNet(s: string)
    requires Without(s, '<') && Without(s, '>')
    ensures Net(s) == 0
  {
    if s != "" {
      PlainNet(s[..|s| - 1]);
    }
  }

  lemma PlainBalanced(s: string)
    requires Without(s, '<') && Without(s, '>')
    ensures Balanced(s)
  {
    hide Net;
    PlainNet(s);
    forall k | 0 <= k <= |s|
      ensures Net(s[..k]) >= 0
    {
      PlainNet(s[..k]);
    }
  }

  // ----- the end of a generic body -----

  /** Where the depth, counted from `depth` at position `i`, first reaches zero; the length if never. */
  function CloseAt(s: string, i: nat, depth: nat): (k: nat)
    requires i <= |s| && depth >= 1
    ensures i <= k <= |s| && (k < |s| ==> s[k] == '>')
    decreases |s| - i
  {
    if i == |s| then i
    else if s[i] == '>' && depth == 1 then i
    else CloseAt(s, i + 1, depth + Delta(s[i]))
  }

  function GenericBody(s: string, prefix: nat): (r: Result<(string, nat)>)
    ensures r.Ok? ==> prefix + |r.value.0| + 1 == r.value.1 <= |s|
  {
    if prefix > |s| then Err
    else
      var k := CloseAt(s, prefix, 1);
      if k == |s| then Err else Ok((s[prefix..k], k + 1))
  }

  method ExtractGenericBody(s: string, prefix: nat) returns (r: Result<(string, nat)>)
    ensures r == GenericBody(s, prefix)
  {
    if prefix > |s| {
      return Err;
    }
    var depth, i := 1, prefix;
    while i < |s|
      invariant prefix <= i <= |s| && depth >= 1 && CloseAt(s, prefix, 1) == CloseAt(s, i, depth)
    {
      if s[i] == '<' {
        depth := depth + 1;
      } else if s[i] == '>' {
        if depth == 1 {
          return Ok((s[prefix..i], i + 1));
        }
        depth := depth - 1;
      }
      i := i + 1;
    }
    return Err;
  }

  /** Counting over a stretch that never goes below the starting depth just carries the count on. */
  lemma {:induction false} CloseSkips(s: string, i: nat, j: nat, depth: nat)
    requires i <= j <= |s| && depth >= 1
    requires forall k :: i <= k <= j ==> depth + Net(s[i..k]) >= 1
    ensures CloseAt(s, i, depth) == CloseAt(s, j, depth + Net(s[i..j]))
    decreases j - i
  {
    hide Net;
    if i < j {
      var d := Delta(s[i]);
      NetFirst(s, i, i + 1);
      assert s[i..i] == "" && s[i + 1..i + 1] == "";
      NetNone();
      var next := i + 1;
      forall k | next <= k <= j
        ensures depth + d + Net(s[next..k]) >= 1
      {
        NetFirst(s, i, k);
      }
      NetFirst(s, i, j);
      CloseSkips(s, i + 1, j, depth + d);
    } else {
      assert s[i..j] == "";
      NetNone();
    }
  }

  lemma NetFirst(s: string, i: nat, k: nat)
    requires i < k <= |s|
    ensures Net(s[i..k]) == Delta(s[i]) + Net(s[i + 1..k])
  {
    hide Net;
    assert s[i..k] == [s[i]] + s[i + 1..k];
    NetConcat([s[i]], s[i + 1..k]);
    NetOne(s[i]);
  }

  /** A balanced body is found whole, whatever stands around it. */
  lemma GenericBodyFound(prefix: string, body: string, rest: string)
    requires Balanced(body)
    ensures GenericBody(prefix + body + ">" + rest, |prefix|) == Ok((body, |prefix| + |body| + 1))
  {
    hide Net;
    var s, i, j := prefix + body + ">" + rest, |prefix|, |prefix| + |body|;
    var tail := body + (">" + rest);
    assert s == prefix + tail;
    assert s[i..] == tail;
    assert s[i..j] == tail[..|body|] == body && s[j] == tail[|body|] == '>';
    forall k | i <= k <= j
      ensures 1 + Net(s[i..k]) >= 1
    {
      assert s[i..k] == body[..k - i];
    }
    CloseSkips(s, i, j, 1);
  }

  lemma {:induction false} CloseExact(s: string, i: nat, depth: nat, j: nat)
    requires i <= |s| && depth >= 1
    requires i <= j <= CloseAt(s, i, depth) < |s|
    ensures depth + Net(s[i..j]) >= 1
    ensures j == CloseAt(s, i, depth) ==> depth + Net(s[i..j]) == 1
    decreases |s| - i
  {
    hide Net;
    if i == j {
      assert s[i..j] == "";
      NetNone();
    } else {
      NetFirst(s, i, j);
      CloseExact(s, i + 1, depth + Delta(s[i]), j);
    }
  }

  /** What is found is balanced: the scanner finds a body if and only if there is a balanced one. */
  lemma GenericBodyBalanced(s: string, prefix: nat)
    ensures GenericBody(s, prefix).Ok? ==> Balanced(GenericBody(s, prefix).value.0)
    ensures GenericBody(s, prefix).Err? ==>
              forall k :: prefix <= k < |s| && s[k] == '>' ==> !Balanced(s[prefix..k])
  {
    hide Net;
    if GenericBody(s, prefix).Ok? {
      var k := CloseAt(s, prefix, 1);
      var body := s[prefix..k];
      forall j | 0 <= j <= |body|
        ensures Net(body[..j]) >= 0 && (j == |body| ==> Net(body[..j]) == 0)
      {
        CloseExact(s, prefix, 1, prefix + j);
        assert body[..j] == s[prefix..prefix + j];
      }
      assert body[..|body|] == body;
    } else {
      forall k | prefix <= k < |s| && s[k] == '>'
        ensures !Balanced(s[prefix..k])
      {
        assert s[..prefix] + s[prefix..k] + ">" + s[k + 1..] == s;
        if Balanced(s[prefix..k]) {
          GenericBodyFound(s[..prefix], s[prefix..k], s[k + 1..]);
          assert false;
        }
      }
    }
  }

  // ----- the end of a parenthesised body -----

  function ParenBody(s: string, prefix: nat): (r: Result<(string, nat)>)
    requires prefix <= |s|
    ensures r.Ok? ==> prefix + |r.value.0| + 1 == r.value.1 <= |s|
  {
    var k := Find(s, ')', prefix);
    if k == |s| then Err else Ok((s[prefix..k], k + 1))
  }

  method ExtractParenBody(s: string, prefix: nat) returns (r: Result<(string, nat)>)
    requires prefix <= |s|
    ensures r == ParenBody(s, prefix)
  {
    var i := prefix;
    while i < |s|
      invariant prefix <= i <= |s| && Find(s, ')', prefix) == Find(s, ')', i)
    {
      if s[i] == ')' {
        return Ok((s[prefix..i], i + 1));
      }
      i := i + 1;
    }
    return Err;
  }

  // ----- commas outside brackets -----

  function Lowered(depth: nat): (d: nat) {
    if depth == 0 then 0 else depth - 1
  }

  /** The first comma at depth zero, counting from `depth` at `i`; the length if there is none. */
  function TopComma(s: string, i: nat, depth: nat): (k: nat)
    requires i <= |s|
    ensures i <= k <= |s| && (k < |s| ==> s[k] == ',')
    decreases |s| - i
  {
    if i == |s| then i
    else if s[i] == '<' then TopComma(s, i + 1, depth + 1)
    else if s[i] == '>' then TopComma(s, i + 1, Lowered(depth))
    else if s[i] == ',' && depth == 0 then i
    else TopComma(s, i + 1, depth)
  }

  function TopParts(s: string): (parts: seq<string>)
    ensures parts != [] && forall i :: 0 <= i < |parts| ==> |parts[i]| <= |s|
    decreases |s|
  {
    var k := TopComma(s, 0, 0);
    if k == |s| then [s] else [s[..k]] + TopParts(s[k + 1..])
  }

  method SplitTopLevelCommas(s: string) returns (parts: seq<string>)
    ensures parts == TopParts(s)
  {
    hide TopComma, TopParts, Lowered;
    parts := [];
    var depth, start, i := 0, 0, 0;
    assert s[0..] == s;
    while i < |s|
      invariant 0 <= start <= i <= |s|
      invariant TopParts(s) == parts + TopParts(s[start..])
      invariant TopComma(s[start..], 0, 0) == TopComma(s[start..], i - start, depth)
    {
      TopCommaStep(s[start..], i - start, depth);
      if s[i] == '<' {
        depth := depth + 1;
      } else if s[i] == '>' {
        depth := Lowered(depth);
      } else if s[i] == ',' && depth == 0 {
        TopPartsCut(s, start, i);
        parts := parts + [s[start..i]];
        start := i + 1;
      }
      i := i + 1;
    }
    TopPartsEnd(s[start..], depth);
    parts := parts + [s[start..]];
  }

  lemma TopCommaStep(s: string, i: nat, depth: nat)
    requires i < |s|
    ensures TopComma(s, i, depth) ==
            if s[i] == '<' then TopComma(s, i + 1, depth + 1)
            else if s[i] == '>' then TopComma(s, i + 1, Lowered(depth))
            else if s[i] == ',' && depth == 0 then i
            else TopComma(s, i + 1, depth)
  {
  }

  lemma TopPartsCut(s: string, start: nat, i: nat)
    requires start <= i < |s| && TopComma(s[start..], 0, 0) == i - start
    ensures TopParts(s[start..]) == [s[start..i]] + TopParts(s[i + 1..])
  {
    var rest := s[start..];
    assert rest[..i - start] == s[start..i] && rest[i - start + 1..] == s[i + 1..];
  }

  lemma TopPartsEnd(s: string, depth: nat)
    requires TopComma(s, 0, 0) == TopComma(s, |s|, depth)
    ensures TopParts(s) == [s]
  {
  }

  /** No comma outside brackets. */
  predicate CommaFree(s: string) {
    forall k :: 0 <= k < |s| && s[k] == ',' ==> Net(s[..k]) > 0
  }

  lemma {:induction false} TopCommaSkips(s: string, p: string, rest: string, i: nat)
    requires s == p + rest && i <= |p| && Balanced(p) && CommaFree(p)
    ensures TopComma(s, i, Net(p[..i])) == TopComma(s, |p|, 0)
    decreases |p| - i
  {
    hide Net;
    if i < |p| {
      assert s[i] == p[i];
      assert p[..i + 1][..i] == p[..i];
      NetLast(p[..i + 1]);
      assert Net(p[..i + 1]) >= 0;
      TopCommaSkips(s, p, rest, i + 1);
    } else {
      assert p[..i] == p;
    }
  }

  lemma NetLast(s: string)
    requires s != ""
    ensures Net(s) == Net(s[..|s| - 1]) + Delta(s[|s| - 1])
  {
  }

  /** The first part of a list of parts is found whole. */
  lemma TopPartsHead(p: string, rest: string)
    requires Balanced(p) && CommaFree(p)
    ensures TopParts(p + "," + rest) == [p] + TopParts(rest)
  {
    hide Net;
    var s := p + "," + rest;
    assert s == p + ("," + rest) && p[..0] == "";
    NetNone();
    TopCommaSkips(s, p, "," + rest, 0);
    assert s[..|p|] == p && s[|p| + 1..] == rest;
  }

  lemma TopPartsOne(p: string)
    requires Balanced(p) && CommaFree(p)
    ensures TopParts(p) == [p]
  {
    hide Net;
    assert p == p + "" && p[..0] == "";
    NetNone();
    TopCommaSkips(p, p, "", 0);
  }

  /** Splitting at commas loses nothing. */
  lemma {:induction false} JoinTopParts(s: string)
    ensures Join(TopParts(s), ',') == s
    decreases |s|
  {
    var k := TopComma(s, 0, 0);
    if k < |s| {
      JoinTopParts(s[k + 1..]);
      var rest := TopParts(s[k + 1..]);
      assert ([s[..k]] + rest)[1..] == rest;
      assert s == s[..k] + [','] + s[k + 1..];
    }
  }

  lemma {:induction false} TopCommaPlain(s: string, i: nat)
    requires Without(s, '<') && i <= |s|
    ensures TopComma(s, i, 0) == Find(s, ',', i)
    decreases |s| - i
  {
    if i < |s| {
      assert s[i] in s;
      if s[i] != ',' {
        TopCommaPlain(s, i + 1);
      }
    }
  }

  /** Closing brackets without opening ones hide no comma. */
  lemma {:induction false} StrayClosing(s: string)
    requires Without(s, '<')
    ensures TopParts(s) == Split(s, ',')
    decreases |s|
  {
    TopCommaPlain(s, 0);
    var k := Find(s, ',', 0);
    if k < |s| {
      StrayClosing(s[k + 1..]);
    }
  }

  /** Prefixing text without commas or brackets changes nothing about commas. */
  lemma CommaFreePrefix(a: string, b: string)
    requires Without(a, '<') && Without(a, '>') && Without(a, ',') && CommaFree(b)
    ensures CommaFree(a + b)
  {
    hide Net;
    assert forall j :: 0 <= j < |a| ==> a[j] == (a + b)[j];
    forall k | 0 <= k < |a + b| && (a + b)[k] == ','
      ensures Net((a + b)[..k]) > 0
    {
      assert (a + b)[..k] == a + b[..k - |a|];
      NetConcat(a, b[..k - |a|]);
      PlainNet(a);
    }
  }

  /** Commas inside one pair of brackets are not top-level. */
  lemma CommaFreeBody(s: string)
    requires Balanced(s)
    ensures CommaFree("<" + s + ">")
  {
    hide Net;
    var all := "<" + s + ">";
    forall k | 0 <= k < |all| && all[k] == ','
      ensures Net(all[..k]) > 0
    {
      assert all[..k] == "<" + s[..k - 1];
      NetConcat("<", s[..k - 1]);
      NetOne('<');
    }
  }
}
