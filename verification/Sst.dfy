/** SST metadata, merged identities and the file index (src/storage/src/compaction/sst.rs, sst_id.rs). */
module Sst {
  import opened Rows

  const U64_MAX: int := 0xFFFF_FFFF_FFFF_FFFF
  const U32_MAX: int := 0xFFFF_FFFF

  type u64 = x: int | 0 <= x <= U64_MAX
  type u32 = x: int | 0 <= x <= U32_MAX

  function SaturatingAdd(a: u64, b: u64): (r: u64)
    ensures r == a + b || (r == U64_MAX && a + b > U64_MAX)
  {
    if a + b <= U64_MAX then a + b else U64_MAX
  }

  datatype SstMeta = SstMeta(
    path: nat, minTs: int, maxTs: int, rowCount: nat, fileSize: u64,
    innerCount: u32, crossCount: u32, baseLsn: u64, maxLsn: u64)

  predicate HasLsnBounds(m: SstMeta) {
    m.baseLsn > 0 || m.maxLsn > 0
  }

  predicate CoversLsn(m: SstMeta, lsn: u64) {
    HasLsnBounds(m) && m.baseLsn <= lsn <= m.maxLsn
  }

  predicate Covered(files: seq<SstMeta>, lsn: u64) {
    exists i :: 0 <= i < |files| && CoversLsn(files[i], lsn)
  }

  // ----- coverage -----

  /** The first file covering `cursor`, if any. */
  method FindCovering(files: seq<SstMeta>, cursor: u64) returns (found: Option<SstMeta>)
    ensures found.None? <==> !Covered(files, cursor)
    ensures found.Some? ==> found.value in files && CoversLsn(found.value, cursor)
  {
    for i := 0 to |files|
      invariant forall k :: 0 <= k < i ==> !CoversLsn(files[k], cursor)
    {
      if CoversLsn(files[i], cursor) {
        return Some(files[i]);
      }
    }
    return None;
  }

  /** Whether a single file covers the whole range. */
  method OneFileCovers(files: seq<SstMeta>, base: u64, max: u64) returns (r: bool)
    ensures r <==> exists i :: 0 <= i < |files| && HasLsnBounds(files[i]) && files[i].baseLsn <= base && max <= files[i].maxLsn
  {
    for i := 0 to |files|
      invariant forall k :: 0 <= k < i ==> !(HasLsnBounds(files[k]) && files[k].baseLsn <= base && max <= files[k].maxLsn)
    {
      if HasLsnBounds(files[i]) && files[i].baseLsn <= base && files[i].maxLsn >= max {
        return true;
      }
    }
    return false;
  }

  /** True exactly when every LSN of `[base, max]` lies in some file's span; an empty range is covered. */
  method CoversLsnRange(files: seq<SstMeta>, base: u64, max: u64) returns (covered: bool)
    ensures covered <==> forall lsn: u64 :: base <= lsn <= max ==> Covered(files, lsn)
  {
    hide Covered;
    if base > max {
      return true;
    }
    var one := OneFileCovers(files, base, max);
    if one {
      var i :| 0 <= i < |files| && HasLsnBounds(files[i]) && files[i].baseLsn <= base && max <= files[i].maxLsn;
      forall lsn: u64 | base <= lsn <= max ensures Covered(files, lsn) { CoveredBy(files, i, lsn); }
      return true;
    }
    var cursor: u64 := base;
    while cursor <= max
      invariant base <= cursor
      invariant forall lsn: u64 :: base <= lsn < cursor && lsn <= max ==> Covered(files, lsn)
      decreases U64_MAX - cursor
    {
      var found := FindCovering(files, cursor);
      if found.None? {
        return false;
      }
      var f := found.value;
      var i :| 0 <= i < |files| && files[i] == f;
      forall lsn: u64 | cursor <= lsn <= f.maxLsn ensures Covered(files, lsn) { CoveredBy(files, i, lsn); }
      if f.maxLsn >= max {
        return true;
      }
      cursor := SaturatingAdd(f.maxLsn, 1);
    }
    return true;
  }

  lemma CoveredBy(files: seq<SstMeta>, i: nat, lsn: u64)
    requires i < |files| && CoversLsn(files[i], lsn)
    ensures Covered(files, lsn)
  {
  }

  // ----- holes -----

  /** The spans leave no hole: between the start of one and the end of another, every LSN is covered. */
  ghost predicate NoHole(metas: seq<SstMeta>) {
    forall lsn: u64 :: Between(metas, lsn) ==> Covered(metas, lsn)
  }

  ghost predicate Between(metas: seq<SstMeta>, lsn: u64) {
    && (exists i :: 0 <= i < |metas| && HasLsnBounds(metas[i]) && metas[i].baseLsn <= lsn)
    && (exists i :: 0 <= i < |metas| && HasLsnBounds(metas[i]) && lsn <= metas[i].maxLsn)
  }

  predicate ValidSpans(metas: seq<SstMeta>) {
    forall i :: 0 <= i < |metas| ==> metas[i].baseLsn <= metas[i].maxLsn
  }

  datatype Span = Span(base: u64, max: u64)

  predicate SortedSpans(s: seq<Span>) {
    forall i, j :: 0 <= i < j < |s| ==> s[i].base <= s[j].base
  }

  function InsertSpan(x: Span, s: seq<Span>): (r: seq<Span>)
    requires SortedSpans(s)
    ensures SortedSpans(r) && |r| == |s| + 1
    ensures forall y :: y in r <==> y == x || y in s
  {
    if s == [] || s[|s| - 1].base <= x.base then s + [x]
    else
      var init := InsertSpan(x, s[..|s| - 1]);
      assert forall y :: y in s[..|s| - 1] ==> y.base <= s[|s| - 1].base;
      assert forall y :: y in init ==> y.base <= s[|s| - 1].base;
      init + [s[|s| - 1]]
  }

  /** The bounded spans, sorted by base. */
  method BoundedSpans(metas: seq<SstMeta>) returns (spans: seq<Span>)
    ensures SortedSpans(spans) && SpansOf(metas, spans)
  {
    spans := [];
    for i := 0 to |metas|
      invariant SortedSpans(spans)
      invariant forall k :: 0 <= k < i && HasLsnBounds(metas[k]) ==> SpanOf(metas[k]) in spans
      invariant forall s :: s in spans ==>
                  exists k :: 0 <= k < i && HasLsnBounds(metas[k]) && s == SpanOf(metas[k])
    {
      if HasLsnBounds(metas[i]) {
        spans := InsertSpan(SpanOf(metas[i]), spans);
      }
    }
  }

  predicate SpanCovers(spans: seq<Span>, lsn: u64) {
    exists i :: 0 <= i < |spans| && spans[i].base <= lsn <= spans[i].max
  }

  ghost predicate SpanBetween(spans: seq<Span>, lsn: u64) {
    (exists i :: 0 <= i < |spans| && spans[i].base <= lsn) && (exists i :: 0 <= i < |spans| && lsn <= spans[i].max)
  }

  /** The sweep: true exactly when the sorted spans cover everything up to their common end. */
  method SweepSpans(spans: seq<Span>) returns (ok: bool)
    requires SortedSpans(spans) && forall i :: 0 <= i < |spans| ==> spans[i].base <= spans[i].max
    ensures ok <==> forall lsn: u64 :: SpanBetween(spans, lsn) ==> SpanCovers(spans, lsn)
  {
    if |spans| < 2 {
      return true;
    }
    var end := spans[0].max;
    for k := 1 to |spans|
      invariant forall j :: 0 <= j < k ==> spans[j].max <= end
      invariant exists j :: 0 <= j < k && spans[j].max == end
      invariant forall lsn: u64 :: spans[0].base <= lsn <= end ==> SpanCovers(spans, lsn)
    {
      var s := spans[k];
      if s.base > SaturatingAdd(end, 1) {
        var hole: u64 := end + 1;
        assert spans[0].base <= hole && hole <= spans[k].max;
        assert SpanBetween(spans, hole);
        assert !SpanCovers(spans, hole);
        return false;
      }
      forall lsn: u64 | spans[0].base <= lsn <= (if s.max > end then s.max else end)
        ensures SpanCovers(spans, lsn)
      {
        if lsn > end {
          assert s.base <= lsn <= s.max && s == spans[k];
        }
      }
      end := if s.max > end then s.max else end;
    }
    return true;
  }

  function SpanOf(m: SstMeta): (s: Span) {
    Span(m.baseLsn, m.maxLsn)
  }

  /** `spans` are the spans of the bounded files, each of them and no others. */
  ghost predicate SpansOf(metas: seq<SstMeta>, spans: seq<Span>) {
    && (forall i :: 0 <= i < |metas| && HasLsnBounds(metas[i]) ==> SpanOf(metas[i]) in spans)
    && (forall s :: s in spans ==> exists i :: 0 <= i < |metas| && HasLsnBounds(metas[i]) && s == SpanOf(metas[i]))
  }

  lemma ToSpan(metas: seq<SstMeta>, spans: seq<Span>, i: nat) returns (k: nat)
    requires SpansOf(metas, spans) && i < |metas| && HasLsnBounds(metas[i])
    ensures k < |spans| && spans[k] == SpanOf(metas[i])
  {
    assert SpanOf(metas[i]) in spans;
    k :| 0 <= k < |spans| && spans[k] == SpanOf(metas[i]);
  }

  lemma ToMeta(metas: seq<SstMeta>, spans: seq<Span>, k: nat) returns (i: nat)
    requires SpansOf(metas, spans) && k < |spans|
    ensures i < |metas| && HasLsnBounds(metas[i]) && spans[k] == SpanOf(metas[i])
  {
    assert spans[k] in spans;
    i :| 0 <= i < |metas| && HasLsnBounds(metas[i]) && spans[k] == SpanOf(metas[i]);
  }

  lemma SpansMean(metas: seq<SstMeta>, spans: seq<Span>, lsn: u64)
    requires SpansOf(metas, spans)
    ensures SpanCovers(spans, lsn) <==> Covered(metas, lsn)
    ensures SpanBetween(spans, lsn) <==> Between(metas, lsn)
  {
    hide SpansOf;
    if Covered(metas, lsn) {
      var i :| 0 <= i < |metas| && CoversLsn(metas[i], lsn);
      var k := ToSpan(metas, spans, i);
    }
    if SpanCovers(spans, lsn) {
      var k :| 0 <= k < |spans| && spans[k].base <= lsn <= spans[k].max;
      var i := ToMeta(metas, spans, k);
    }
    if Between(metas, lsn) {
      var i :| 0 <= i < |metas| && HasLsnBounds(metas[i]) && metas[i].baseLsn <= lsn;
      var j :| 0 <= j < |metas| && HasLsnBounds(metas[j]) && lsn <= metas[j].maxLsn;
      var k := ToSpan(metas, spans, i);
      var l := ToSpan(metas, spans, j);
    }
    if SpanBetween(spans, lsn) {
      var k :| 0 <= k < |spans| && spans[k].base <= lsn;
      var l :| 0 <= l < |spans| && lsn <= spans[l].max;
      var i := ToMeta(metas, spans, k);
      var j := ToMeta(metas, spans, l);
    }
  }

  /** A run may be merged only if this holds; it holds exactly when the run has no LSN hole. */
  method LsnSpansContiguous(metas: seq<SstMeta>) returns (ok: bool)
    requires ValidSpans(metas)
    ensures ok <==> NoHole(metas)
  {
    hide Covered, Between, SpanCovers, SpanBetween, SpansOf;
    var spans := BoundedSpans(metas);
    forall k | 0 <= k < |spans| ensures spans[k].base <= spans[k].max { var i := ToMeta(metas, spans, k); }
    ok := SweepSpans(spans);
    forall lsn: u64 { SpansMean(metas, spans, lsn); }
  }

  // ----- merged identity -----

  /** The sealed identity's span: an inverted pair is put in order. */
  function IdentitySpan(m: SstMeta): (s: Span)
    ensures s.base <= s.max
  {
    if m.baseLsn <= m.maxLsn then Span(m.baseLsn, m.maxLsn) else Span(m.maxLsn, m.baseLsn)
  }

  function Max(a: int, b: int): (r: int) { if a >= b then a else b }

  function Min(a: int, b: int): (r: int) { if a <= b then a else b }

  /** Span of the file a run is merged into, folded over the run. */
  function MergedSpan(run: seq<SstMeta>): (s: Span)
    requires run != []
  {
    var last := IdentitySpan(run[|run| - 1]);
    if |run| == 1 then last else
      var init := MergedSpan(run[..|run| - 1]);
      Span(Min(init.base, last.base), Max(init.max, last.max))
  }

  /** Compaction generation of the merged file: one above the highest in the run, saturating. */
  function MergedInner(run: seq<SstMeta>): (n: u32)
    ensures forall i :: 0 <= i < |run| && run[i].innerCount < U32_MAX ==> run[i].innerCount < n
    ensures n < U32_MAX ==> (run == [] && n == 1) || exists i :: 0 <= i < |run| && run[i].innerCount + 1 == n
  {
    var m := MaxInner(run);
    if m == U32_MAX then m else m + 1
  }

  function MaxInner(run: seq<SstMeta>): (n: u32)
    ensures forall i :: 0 <= i < |run| ==> run[i].innerCount <= n
    ensures run != [] ==> exists i :: 0 <= i < |run| && run[i].innerCount == n
  {
    if run == [] then 0 else
      var init := run[..|run| - 1];
      assert forall i :: 0 <= i < |init| ==> init[i] == run[i];
      Max(MaxInner(init), run[|run| - 1].innerCount)
  }

  function MergedCross(run: seq<SstMeta>): (n: u32)
    ensures forall i :: 0 <= i < |run| ==> run[i].crossCount <= n
    ensures run != [] ==> exists i :: 0 <= i < |run| && run[i].crossCount == n
  {
    if run == [] then 0 else
      var init := run[..|run| - 1];
      assert forall i :: 0 <= i < |init| ==> init[i] == run[i];
      Max(MergedCross(init), run[|run| - 1].crossCount)
  }

  /** The merged span is the hull of the run's spans: least base, greatest end, both attained. */
  lemma {:induction false} MergedSpanIsHull(run: seq<SstMeta>)
    requires run != [] && ValidSpans(run)
    ensures var s := MergedSpan(run);
            && (forall i :: 0 <= i < |run| ==> s.base <= run[i].baseLsn && run[i].maxLsn <= s.max)
            && (exists i :: 0 <= i < |run| && run[i].baseLsn == s.base)
            && (exists i :: 0 <= i < |run| && run[i].maxLsn == s.max)
            && s.base <= s.max
  {
    var n := |run| - 1;
    assert IdentitySpan(run[n]) == SpanOf(run[n]);
    if |run| > 1 {
      var init := run[..n];
      assert forall i :: 0 <= i < |init| ==> init[i] == run[i];
      MergedSpanIsHull(init);
      var i :| 0 <= i < |init| && init[i].baseLsn == MergedSpan(init).base;
      var j :| 0 <= j < |init| && init[j].maxLsn == MergedSpan(init).max;
      assert run[i].baseLsn == MergedSpan(init).base && run[j].maxLsn == MergedSpan(init).max;
    }
  }

  // ----- the file index -----

  predicate SortedByMinTs(files: seq<SstMeta>) {
    forall i, j :: 0 <= i < j < |files| ==> files[i].minTs <= files[j].minTs
  }

  /** Where a file belongs: everything before starts no later, everything from there no earlier. */
  predicate InsertionPoint(files: seq<SstMeta>, minTs: int, pos: nat) {
    && pos <= |files|
    && (forall k :: 0 <= k < pos ==> files[k].minTs <= minTs)
    && (forall k :: pos <= k < |files| ==> minTs <= files[k].minTs)
  }

  /** Binary search for `minTs`; on an exact match any equal file's position will do. */
  method SearchMinTs(files: seq<SstMeta>, minTs: int) returns (pos: nat)
    requires SortedByMinTs(files)
    ensures InsertionPoint(files, minTs, pos)
  {
    var lo, hi := 0, |files|;
    while lo < hi
      invariant 0 <= lo <= hi <= |files|
      invariant forall k :: 0 <= k < lo ==> files[k].minTs < minTs
      invariant forall k :: hi <= k < |files| ==> minTs < files[k].minTs
    {
      var mid := (lo + hi) / 2;
      if files[mid].minTs == minTs {
        return mid;
      } else if files[mid].minTs < minTs {
        lo := mid + 1;
      } else {
        hi := mid;
      }
    }
    return lo;
  }

  function Replaced(files: seq<SstMeta>, start: nat, count: nat, replacement: SstMeta): (r: seq<SstMeta>)
    requires start + count <= |files|
  {
    files[..start] + [replacement] + files[start + count..]
  }

  /** `files` without up to `k` of them from `start` on. */
  function Cut(files: seq<SstMeta>, start: nat, k: nat): (r: seq<SstMeta>)
    requires start <= |files|
  {
    files[..start] + files[Min(start + k, |files|)..]
  }

  lemma CutOne(files: seq<SstMeta>, start: nat, k: nat)
    requires start <= |files|
    ensures var f := Cut(files, start, k);
            start <= |f| && Cut(files, start, k + 1) == if start < |f| then f[..start] + f[start + 1..] else f
  {
  }

  lemma NothingCut(files: seq<SstMeta>, start: nat)
    requires start <= |files|
    ensures Cut(files, start, 0) == files
  {
  }

  lemma CutFilled(files: seq<SstMeta>, start: nat, k: nat, replacement: SstMeta)
    requires start <= |files|
    ensures var f := Cut(files, start, k);
            && start <= |f|
            && f[..start] + [replacement] + f[start..] == Replaced(files, start, Min(k, |files| - start), replacement)
  {
  }

  lemma ReplacedValid(files: seq<SstMeta>, start: nat, count: nat, replacement: SstMeta)
    requires start + count <= |files| && ValidSpans(files) && replacement.baseLsn <= replacement.maxLsn
    ensures ValidSpans(Replaced(files, start, count, replacement))
    ensures SortedByMinTs(files) && 0 < count && replacement.minTs == files[start].minTs ==>
              SortedByMinTs(Replaced(files, start, count, replacement))
  {
  }

  class FileIndex {
    var files: seq<SstMeta>

    ghost predicate Valid()
      reads this
    {
      SortedByMinTs(files) && ValidSpans(files)
    }

    constructor ()
      ensures Valid() && files == []
    {
      files := [];
    }

    method Insert(meta: SstMeta) returns (pos: nat)
      requires Valid() && meta.baseLsn <= meta.maxLsn
      modifies this
      ensures Valid() && InsertionPoint(old(files), meta.minTs, pos)
      ensures files == old(files)[..pos] + [meta] + old(files)[pos..]
    {
      pos := SearchMinTs(files, meta.minTs);
      files := files[..pos] + [meta] + files[pos..];
    }

    /** Replaces up to `count` files from `start` on by one file. */
    method ReplaceRange(start: nat, count: nat, replacement: SstMeta)
      requires Valid() && replacement.baseLsn <= replacement.maxLsn && start <= |files|
      modifies this
      ensures ValidSpans(files)
      ensures files == Replaced(old(files), start, Min(count, |old(files)| - start), replacement)
      ensures count > 0 && start < |old(files)| && replacement.minTs == old(files)[start].minTs ==> Valid()
    {
      hide Cut, Replaced, SortedByMinTs, ValidSpans;
      ghost var before := files;
      NothingCut(files, start);
      for k := 0 to count
        invariant files == Cut(before, start, k)
      {
        CutOne(before, start, k);
        if start < |files| {
          files := files[..start] + files[start + 1..];
        }
      }
      CutFilled(before, start, count, replacement);
      files := files[..start] + [replacement] + files[start..];
      ReplacedValid(before, start, Min(count, |before| - start), replacement);
    }
  }

  // ----- what replacing a run does to coverage -----

  predicate AllBounded(run: seq<SstMeta>) {
    forall i :: 0 <= i < |run| ==> HasLsnBounds(run[i])
  }

  predicate NoneBounded(run: seq<SstMeta>) {
    forall i :: 0 <= i < |run| ==> !HasLsnBounds(run[i])
  }

  lemma ReplacedCovers(files: seq<SstMeta>, start: nat, count: nat, merged: SstMeta, lsn: u64)
    requires start + count <= |files|
    ensures Covered(Replaced(files, start, count, merged), lsn)
            <==> CoversLsn(merged, lsn) || Covered(files[..start], lsn) || Covered(files[start + count..], lsn)
  {
    var r := Replaced(files, start, count, merged);
    if Covered(r, lsn) {
      var i :| 0 <= i < |r| && CoversLsn(r[i], lsn);
      if i < start {
        assert files[..start][i] == r[i];
      } else if i > start {
        assert files[start + count..][i - start - 1] == r[i];
      }
    }
    if CoversLsn(merged, lsn) {
      assert r[start] == merged;
    }
    if Covered(files[..start], lsn) {
      var i :| 0 <= i < start && CoversLsn(files[..start][i], lsn);
      assert r[i] == files[..start][i];
    }
    if Covered(files[start + count..], lsn) {
      var i :| 0 <= i < |files[start + count..]| && CoversLsn(files[start + count..][i], lsn);
      assert r[start + 1 + i] == files[start + count..][i];
    }
  }

  lemma SplitCovers(files: seq<SstMeta>, start: nat, count: nat, lsn: u64)
    requires start + count <= |files|
    ensures Covered(files, lsn)
            <==> Covered(files[start..start + count], lsn) || Covered(files[..start], lsn) || Covered(files[start + count..], lsn)
  {
    if Covered(files, lsn) {
      var i :| 0 <= i < |files| && CoversLsn(files[i], lsn);
      if i < start {
        assert files[..start][i] == files[i];
      } else if i < start + count {
        assert files[start..start + count][i - start] == files[i];
      } else {
        assert files[start + count..][i - start - count] == files[i];
      }
    }
    if Covered(files[start..start + count], lsn) {
      var i :| 0 <= i < count && CoversLsn(files[start..start + count][i], lsn);
      assert files[start + i] == files[start..start + count][i];
    }
    if Covered(files[start + count..], lsn) {
      var i :| 0 <= i < |files[start + count..]| && CoversLsn(files[start + count..][i], lsn);
      assert files[start + count + i] == files[start + count..][i];
    }
  }

  /** The merged file covers what the run covered, and no more than its hull. */
  lemma HullCovers(run: seq<SstMeta>, merged: SstMeta, lsn: u64)
    requires run != [] && ValidSpans(run) && SpanOf(merged) == MergedSpan(run)
    ensures Covered(run, lsn) ==> CoversLsn(merged, lsn)
    ensures NoHole(run) && AllBounded(run) && CoversLsn(merged, lsn) ==> Covered(run, lsn)
    ensures NoneBounded(run) ==> !CoversLsn(merged, lsn)
  {
    MergedSpanIsHull(run);
    if AllBounded(run) && CoversLsn(merged, lsn) {
      assert Between(run, lsn);
    }
  }

  /** In a run with both kinds of files the merged span starts at 0. */
  lemma MixedCovers(run: seq<SstMeta>, merged: SstMeta, lsn: u64)
    requires run != [] && ValidSpans(run) && SpanOf(merged) == MergedSpan(run)
    requires !AllBounded(run) && !NoneBounded(run)
    ensures CoversLsn(merged, lsn) <==> lsn <= merged.maxLsn
  {
    MergedSpanIsHull(run);
    var i :| 0 <= i < |run| && !HasLsnBounds(run[i]);
    var j :| 0 <= j < |run| && HasLsnBounds(run[j]);
    assert merged.baseLsn <= run[i].baseLsn && run[j].maxLsn <= merged.maxLsn;
  }

  /** The same answers for every LSN that is ever handed out; those start at 1. */
  ghost predicate SameCoverage(a: seq<SstMeta>, b: seq<SstMeta>) {
    forall lsn: u64 :: 1 <= lsn ==> (Covered(a, lsn) <==> Covered(b, lsn))
  }

  /** Every LSN up to `max` is covered. */
  ghost predicate CoveredUpTo(files: seq<SstMeta>, max: u64) {
    forall lsn: u64 :: 1 <= lsn <= max ==> Covered(files, lsn)
  }

  lemma CoverageAt(files: seq<SstMeta>, start: nat, count: nat, merged: SstMeta, lsn: u64)
    requires start + count <= |files| && 0 < count && ValidSpans(files)
    requires SpanOf(merged) == MergedSpan(files[start..start + count])
    ensures Covered(Replaced(files, start, count, merged), lsn) <==> CoversLsn(merged, lsn) || Covered(files, lsn)
    ensures var run := files[start..start + count];
            && (NoHole(run) && AllBounded(run) && CoversLsn(merged, lsn) ==> Covered(files, lsn))
            && (NoneBounded(run) ==> !CoversLsn(merged, lsn))
            && (!AllBounded(run) && !NoneBounded(run) ==> (CoversLsn(merged, lsn) <==> lsn <= merged.maxLsn))
  {
    hide Replaced, MergedSpan, NoHole;
    var run := files[start..start + count];
    ReplacedCovers(files, start, count, merged, lsn);
    SplitCovers(files, start, count, lsn);
    HullCovers(run, merged, lsn);
    if !AllBounded(run) && !NoneBounded(run) {
      MixedCovers(run, merged, lsn);
    }
  }

  /** Replacing a run by its merge changes no coverage answer exactly when everything the merged file
      claims was covered before. For a run that passes the contiguity check that is exactly when all its
      files have LSN bounds, or none has, or every LSN up to the merged end was covered anyway. */
  lemma MergeKeepsCoverage(files: seq<SstMeta>, start: nat, count: nat, merged: SstMeta)
    requires start + count <= |files| && 0 < count && ValidSpans(files)
    requires SpanOf(merged) == MergedSpan(files[start..start + count])
    ensures SameCoverage(Replaced(files, start, count, merged), files)
            <==> forall lsn: u64 :: 1 <= lsn && CoversLsn(merged, lsn) ==> Covered(files, lsn)
    ensures var run := files[start..start + count];
            NoHole(run) ==>
              (SameCoverage(Replaced(files, start, count, merged), files)
               <==> AllBounded(run) || NoneBounded(run) || CoveredUpTo(files, merged.maxLsn))
  {
    hide Replaced, MergedSpan, NoHole, Covered, CoversLsn, AllBounded, NoneBounded;
    var run := files[start..start + count];
    forall lsn: u64
      ensures Covered(Replaced(files, start, count, merged), lsn) <==> CoversLsn(merged, lsn) || Covered(files, lsn)
      ensures NoHole(run) && AllBounded(run) && CoversLsn(merged, lsn) ==> Covered(files, lsn)
      ensures NoneBounded(run) ==> !CoversLsn(merged, lsn)
      ensures !AllBounded(run) && !NoneBounded(run) ==> (CoversLsn(merged, lsn) <==> lsn <= merged.maxLsn)
    {
      CoverageAt(files, start, count, merged, lsn);
    }
  }

  /** The smallest failing run: a file without bounds pulls the hull down to 0, and LSN 3, which no file
      ever held, becomes covered. */
  lemma UnboundedFileFakesCoverage(merged: SstMeta)
    requires SpanOf(merged) == Span(0, 5)
    ensures var a, b := SstMeta(1, 0, 0, 1, 1, 0, 0, 0, 0), SstMeta(2, 1, 1, 1, 1, 0, 0, 5, 5);
            && NoHole([a, b]) && SpanOf(merged) == MergedSpan([a, b])
            && !Covered([a, b], 3) && Covered(Replaced([a, b], 0, 2, merged), 3)
  {
    var a, b := SstMeta(1, 0, 0, 1, 1, 0, 0, 0, 0), SstMeta(2, 1, 1, 1, 1, 0, 0, 5, 5);
    assert [a, b][..1] == [a];
    assert CoversLsn([a, b][1], 5);
    assert CoversLsn(Replaced([a, b], 0, 2, merged)[0], 3);
  }

  /** A mixed run that does no harm, because its other file reaches back to LSN 1. */
  lemma UnboundedFileHarmless(merged: SstMeta)
    requires SpanOf(merged) == Span(0, 5)
    ensures var a, b := SstMeta(1, 0, 0, 1, 1, 0, 0, 0, 0), SstMeta(2, 1, 1, 1, 1, 0, 0, 1, 5);
            && SpanOf(merged) == MergedSpan([a, b]) && !AllBounded([a, b]) && !NoneBounded([a, b])
            && SameCoverage(Replaced([a, b], 0, 2, merged), [a, b])
  {
    var a, b := SstMeta(1, 0, 0, 1, 1, 0, 0, 0, 0), SstMeta(2, 1, 1, 1, 1, 0, 0, 1, 5);
    assert [a, b][..1] == [a] && [a, b][0..2] == [a, b];
    forall lsn: u64 | 1 <= lsn <= 5 ensures Covered([a, b], lsn) {
      assert CoversLsn([a, b][1], lsn);
    }
    MergeKeepsCoverage([a, b], 0, 2, merged);
  }
}
