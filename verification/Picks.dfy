/** Choosing a run of files to compact (src/storage/src/compaction/job.rs): three window searches and
the shrink to a run without LSN holes. A window is a start index and a length. */
module Picks {
  import opened Rows
  import opened Sst

  datatype Strategy = SizeTiered | FileCount | Overlap

  datatype Window = Window(start: nat, len: nat)

  /** Bytes of `len` files from `start` on, without any wrap-around. */
  function Bytes(files: seq<SstMeta>, start: nat, len: nat): (n: nat)
    requires start + len <= |files|
  {
    if len == 0 then 0 else Bytes(files, start, len - 1) + files[start + len - 1].fileSize
  }

  lemma {:induction false} BytesGrow(files: seq<SstMeta>, start: nat, a: nat, b: nat)
    requires a <= b && start + b <= |files|
    ensures Bytes(files, start, a) <= Bytes(files, start, b)
    decreases b
  {
    if a < b {
      BytesGrow(files, start, a, b - 1);
    }
  }

  /** At least two files, at most `maxFiles`, together under the threshold. */
  predicate Fits(files: seq<SstMeta>, threshold: u64, maxFiles: nat, w: Window) {
    2 <= w.len <= maxFiles && w.start + w.len <= |files| && Bytes(files, w.start, w.len) < threshold
  }

  /** Neighbouring files whose time ranges overlap, inside a window. */
  function Overlaps(files: seq<SstMeta>, start: nat, len: nat): (n: nat)
    requires start + len <= |files|
  {
    if len <= 1 then 0 else
      Overlaps(files, start, len - 1)
      + if files[start + len - 2].maxTs >= files[start + len - 1].minTs then 1 else 0
  }

  lemma {:induction false} OverlapsGrow(files: seq<SstMeta>, start: nat, a: nat, b: nat)
    requires a <= b && start + b <= |files|
    ensures Overlaps(files, start, a) <= Overlaps(files, start, b)
    decreases b
  {
    if a < b {
      OverlapsGrow(files, start, a, b - 1);
    }
  }

  /** The longest fitting window from `start`, its size and its overlapping pairs; the saturating sums
      of the source decide exactly as true sums would. */
  method Greedy(files: seq<SstMeta>, threshold: u64, maxFiles: nat, start: nat)
    returns (len: nat, total: u64, overlaps: nat)
    requires start < |files| && 2 <= maxFiles
    ensures 1 <= len <= maxFiles && start + len <= |files|
    ensures total == Bytes(files, start, len) && overlaps == Overlaps(files, start, len)
    ensures len >= 2 ==> Fits(files, threshold, maxFiles, Window(start, len))
    ensures forall l :: len < l && start + l <= |files| ==> !Fits(files, threshold, maxFiles, Window(start, l))
  {
    total, len, overlaps := files[start].fileSize, 1, 0;
    var j := start + 1;
    assert Bytes(files, start, 1) == Bytes(files, start, 0) + files[start].fileSize;
    while j < |files| && len < maxFiles
      invariant j == start + len && 1 <= len <= maxFiles && j <= |files|
      invariant total == Bytes(files, start, len) && overlaps == Overlaps(files, start, len)
      invariant len >= 2 ==> total < threshold
    {
      var next := SaturatingAdd(total, files[j].fileSize);
      if next >= threshold {
        forall l | len < l && start + l <= |files|
          ensures !Fits(files, threshold, maxFiles, Window(start, l))
        {
          BytesGrow(files, start, len + 1, l);
        }
        return;
      }
      if files[j - 1].maxTs >= files[j].minTs {
        overlaps := overlaps + 1;
      }
      total := next;
      len := len + 1;
      j := j + 1;
    }
  }

  /** `a` is chosen over `b`: more files, then fewer bytes, then further left. */
  predicate SizeTieredOver(files: seq<SstMeta>, a: Window, b: Window)
    requires a.start + a.len <= |files| && b.start + b.len <= |files|
  {
    var x, y := Bytes(files, a.start, a.len), Bytes(files, b.start, b.len);
    b.len < a.len || (b.len == a.len && (x < y || (x == y && a.start <= b.start)))
  }

  ghost predicate BestSizeTiered(files: seq<SstMeta>, threshold: u64, maxFiles: nat, pick: Option<Window>) {
    match pick
    case None => forall w: Window :: !Fits(files, threshold, maxFiles, w)
    case Some(best) =>
      && Fits(files, threshold, maxFiles, best)
      && forall w: Window :: Fits(files, threshold, maxFiles, w) ==> SizeTieredOver(files, best, w)
  }

  method PickSizeTiered(files: seq<SstMeta>, threshold: u64, maxFiles: nat) returns (pick: Option<Window>)
    requires 2 <= maxFiles
    ensures BestSizeTiered(files, threshold, maxFiles, pick)
  {
    hide Bytes, Overlaps;
    pick := None;
    var bestTotal: u64 := 0;
    for start := 0 to |files|
      invariant pick.None? ==> forall w: Window :: w.start < start ==> !Fits(files, threshold, maxFiles, w)
      invariant pick.Some? ==>
                  && Fits(files, threshold, maxFiles, pick.value)
                  && bestTotal == Bytes(files, pick.value.start, pick.value.len) && pick.value.start < start
                  && forall w: Window :: w.start < start && Fits(files, threshold, maxFiles, w) ==> SizeTieredOver(files, pick.value, w)
    {
      var len, total, _ := Greedy(files, threshold, maxFiles, start);
      if len >= 2 && (pick.None? || len > pick.value.len || (len == pick.value.len && total < bestTotal)) {
        pick, bestTotal := Some(Window(start, len)), total;
      }
    }
  }

  /** `maxFiles` files one byte larger would still not pass the threshold; an empty file is small anyway. */
  predicate Small(size: nat, threshold: nat, maxFiles: nat) {
    size == 0 || (size + 1) * maxFiles <= threshold
  }

  /** Window of small files. */
  predicate SmallWindow(files: seq<SstMeta>, threshold: u64, maxFiles: nat, w: Window) {
    && 2 <= w.len <= maxFiles && w.start + w.len <= |files|
    && forall k :: w.start <= k < w.start + w.len ==> Small(files[k].fileSize, threshold, maxFiles)
  }

  lemma Quotient(a: nat, b: nat, q: nat)
    requires 0 < b
    ensures q <= a / b <==> q * b <= a
  {
    var d, r := a / b, a % b;
    assert a == d * b + r && 0 <= r < b;
    if q <= d {
      assert q * b <= d * b;
    } else {
      assert q * b >= (d + 1) * b;
    }
  }

  lemma SmallExactly(size: nat, threshold: nat, maxFiles: nat)
    requires 2 <= maxFiles
    ensures size < Max(threshold / maxFiles, 1) <==> Small(size, threshold, maxFiles)
  {
    Quotient(threshold, maxFiles, size + 1);
  }

  /** The size the source compares with. */
  function SmallLimit(threshold: u64, maxFiles: nat): (small: u64)
    requires 2 <= maxFiles
    ensures forall size: nat :: Small(size, threshold, maxFiles) <==> size < small
  {
    assert forall size: nat :: Small(size, threshold, maxFiles) <==> size < Max(threshold / maxFiles, 1) by {
      forall size: nat ensures Small(size, threshold, maxFiles) <==> size < Max(threshold / maxFiles, 1) {
        SmallExactly(size, threshold, maxFiles);
      }
    }
    Max(threshold / maxFiles, 1)
  }

  /** A window of small files, if the threshold allows any, is under it altogether. */
  lemma SmallFits(files: seq<SstMeta>, threshold: u64, maxFiles: nat, w: Window)
    requires 2 <= maxFiles <= threshold && SmallWindow(files, threshold, maxFiles, w)
    ensures Fits(files, threshold, maxFiles, w)
  {
    hide Bytes;
    SmallBytes(files, w.start, w.len, threshold, maxFiles);
    SmallShare(Bytes(files, w.start, w.len), w.len, threshold, maxFiles);
  }

  lemma {:induction false} SmallBytes(files: seq<SstMeta>, start: nat, len: nat, threshold: nat, maxFiles: nat)
    requires start + len <= |files| && maxFiles <= threshold
    requires forall k :: start <= k < start + len ==> Small(files[k].fileSize, threshold, maxFiles)
    ensures (Bytes(files, start, len) + len) * maxFiles <= len * threshold
  {
    if len > 0 {
      SmallBytes(files, start, len - 1, threshold, maxFiles);
      var b, size := Bytes(files, start, len - 1), files[start + len - 1].fileSize;
      assert Small(size, threshold, maxFiles);
      assert (b + size + len) * maxFiles == (b + (len - 1)) * maxFiles + (size + 1) * maxFiles;
      assert len * threshold == (len - 1) * threshold + threshold;
    }
  }

  lemma SmallShare(bytes: nat, len: nat, threshold: nat, maxFiles: nat)
    requires 0 < len <= maxFiles && (bytes + len) * maxFiles <= len * threshold
    ensures bytes < threshold
  {
    if bytes >= threshold {
      TimesMono(threshold + 1, bytes + len, maxFiles);
      TimesMono(len, maxFiles, threshold);
    }
  }

  lemma TimesMono(a: nat, b: nat, c: nat)
    requires a <= b
    ensures a * c <= b * c
  {
  }

  /** The longest window of small files, the leftmost of those. */
  ghost predicate BestFileCount(files: seq<SstMeta>, threshold: u64, maxFiles: nat, pick: Option<Window>)
    requires 2 <= maxFiles
  {
    match pick
    case None => forall w: Window :: !SmallWindow(files, threshold, maxFiles, w)
    case Some(best) =>
      && SmallWindow(files, threshold, maxFiles, best)
      && forall w: Window :: SmallWindow(files, threshold, maxFiles, w) ==>
           w.len < best.len || (w.len == best.len && best.start <= w.start)
  }

  method PickFileCount(files: seq<SstMeta>, threshold: u64, maxFiles: nat) returns (pick: Option<Window>)
    requires 2 <= maxFiles
    ensures BestFileCount(files, threshold, maxFiles, pick)
  {
    hide Small;
    var small := SmallLimit(threshold, maxFiles);
    pick := None;
    var i := 0;
    while i < |files|
      invariant 0 <= i <= |files|
      invariant pick.None? ==> forall w: Window :: w.start < i ==> !SmallWindow(files, threshold, maxFiles, w)
      invariant pick.Some? ==>
                  && SmallWindow(files, threshold, maxFiles, pick.value) && pick.value.start < i
                  && forall w: Window :: w.start < i && SmallWindow(files, threshold, maxFiles, w) ==>
                       w.len < pick.value.len || (w.len == pick.value.len && pick.value.start <= w.start)
    {
      if files[i].fileSize >= small {
        i := i + 1;
        continue;
      }
      var j, len := i, 0;
      while j < |files| && files[j].fileSize < small && len < maxFiles
        invariant j == i + len && len <= maxFiles && j <= |files|
        invariant forall k :: i <= k < j ==> files[k].fileSize < small
      {
        len := len + 1;
        j := j + 1;
      }
      assert forall w: Window :: i <= w.start < j && SmallWindow(files, threshold, maxFiles, w) ==> w.len <= len;
      if len >= 2 && (pick.None? || len > pick.value.len) {
        pick := Some(Window(i, len));
      }
      i := if j > i + 1 then j else i + 1;
    }
  }

  /** The fitting window with the most overlapping pairs, the leftmost and then longest of those; without any
      overlap, the size-tiered choice. */
  ghost predicate BestOverlap(files: seq<SstMeta>, threshold: u64, maxFiles: nat, pick: Option<Window>) {
    if exists w: Window :: Fits(files, threshold, maxFiles, w) && Overlaps(files, w.start, w.len) > 0 then
      && pick.Some? && Fits(files, threshold, maxFiles, pick.value)
      && forall w: Window :: Fits(files, threshold, maxFiles, w) ==>
           var a, b := Overlaps(files, pick.value.start, pick.value.len), Overlaps(files, w.start, w.len);
           b < a || (b == a && (pick.value.start < w.start || (pick.value.start == w.start && w.len <= pick.value.len)))
    else
      BestSizeTiered(files, threshold, maxFiles, pick)
  }

  method PickOverlap(files: seq<SstMeta>, threshold: u64, maxFiles: nat) returns (pick: Option<Window>)
    requires 2 <= maxFiles
    ensures BestOverlap(files, threshold, maxFiles, pick)
  {
    hide Bytes, Overlaps;
    pick := None;
    var most := 0;
    for start := 0 to |files|
      invariant pick.None? ==> most == 0
      invariant pick.Some? ==>
                  && Fits(files, threshold, maxFiles, pick.value) && pick.value.start < start
                  && most == Overlaps(files, pick.value.start, pick.value.len) > 0
      invariant forall w: Window :: w.start < start && Fits(files, threshold, maxFiles, w) ==>
                  Overlaps(files, w.start, w.len) < most
                  || (Overlaps(files, w.start, w.len) == most
                      && (pick.None? || pick.value.start < w.start
                          || (pick.value.start == w.start && w.len <= pick.value.len)))
    {
      var len, _, overlaps := Greedy(files, threshold, maxFiles, start);
      forall w: Window | w.start == start && Fits(files, threshold, maxFiles, w)
        ensures Overlaps(files, start, w.len) <= overlaps && len >= 2
      {
        OverlapsGrow(files, start, w.len, len);
      }
      if len >= 2 && overlaps > 0 && overlaps > most {
        pick, most := Some(Window(start, len)), overlaps;
      }
    }
    if pick.None? {
      pick := PickSizeTiered(files, threshold, maxFiles);
    }
  }

  /** `w` lies inside `pick`, has at least two files and no LSN hole. */
  ghost predicate Mergeable(files: seq<SstMeta>, pick: Window, w: Window) {
    && 2 <= w.len && pick.start <= w.start && w.start + w.len <= pick.start + pick.len <= |files|
    && NoHole(files[w.start..w.start + w.len])
  }

  lemma SubSpansValid(files: seq<SstMeta>, a: nat, b: nat)
    requires a <= b <= |files| && ValidSpans(files)
    ensures ValidSpans(files[a..b])
  {
  }

  /** `a` is tried before `b`: the windows at the start of the pick first, then from left to right, and
      among those that start together the longest first. */
  predicate TriedBefore(a: Window, b: Window) {
    a.start < b.start || (a.start == b.start && a.len > b.len)
  }

  /** The pick itself if it is contiguous, else its longest contiguous prefix, else the longest contiguous
      window at the first place that has one; nothing exactly when no window inside the pick can be
      merged. */
  method ShrinkToLsnContiguous(files: seq<SstMeta>, pick: Window) returns (r: Option<Window>)
    requires ValidSpans(files)
    ensures r.Some? ==> Mergeable(files, pick, r.value)
    ensures r.None? ==> forall w: Window :: !Mergeable(files, pick, w)
    ensures r.Some? ==> forall w: Window :: Mergeable(files, pick, w) ==> w == r.value || TriedBefore(r.value, w)
    ensures Mergeable(files, pick, pick) ==> r == Some(pick)
  {
    hide NoHole, ValidSpans;
    if pick.len < 2 || pick.start + pick.len > |files| {
      return None;
    }
    var start, end := pick.start, pick.start + pick.len;
    SubSpansValid(files, start, end);
    var whole := LsnSpansContiguous(files[start..end]);
    if whole {
      return Some(pick);
    }
    var tryLen := pick.len - 1;
    while tryLen >= 2
      invariant tryLen < pick.len
      invariant forall w: Window :: w.start == start && tryLen < w.len ==> !Mergeable(files, pick, w)
    {
      SubSpansValid(files, start, start + tryLen);
      var ok := LsnSpansContiguous(files[start..start + tryLen]);
      if ok {
        return Some(Window(start, tryLen));
      }
      tryLen := tryLen - 1;
    }
    for s := start to end
      invariant forall w: Window :: w.start < s ==> !Mergeable(files, pick, w)
    {
      tryLen := end - s;
      while tryLen >= 2
        invariant tryLen <= end - s
        invariant forall w: Window :: w.start == s && tryLen < w.len ==> !Mergeable(files, pick, w)
      {
        SubSpansValid(files, s, s + tryLen);
        var ok := LsnSpansContiguous(files[s..s + tryLen]);
        if ok {
          return Some(Window(s, tryLen));
        }
        tryLen := tryLen - 1;
      }
    }
    return None;
  }

  /** What each strategy may hand to the shrink. */
  ghost predicate BestRaw(files: seq<SstMeta>, strategy: Strategy, threshold: u64, maxFiles: nat, raw: Option<Window>)
    requires 2 <= maxFiles
  {
    match strategy
    case SizeTiered => BestSizeTiered(files, threshold, maxFiles, raw)
    case FileCount => BestFileCount(files, threshold, maxFiles, raw)
    case Overlap => BestOverlap(files, threshold, maxFiles, raw)
  }

  /** `r` is what the compactor merges: of the hole-free windows of at least two files inside the strategy's
      best window, the first in the order tried, or nothing if there is none. */
  ghost predicate Picked(
    files: seq<SstMeta>, strategy: Strategy, threshold: u64, maxMergeFiles: nat, raw: Option<Window>, r: Option<Window>)
  {
    && BestRaw(files, strategy, threshold, Max(maxMergeFiles, 2), raw)
    && (r.None? ==> raw.None? || forall w: Window :: !Mergeable(files, raw.value, w))
    && (r.Some? ==>
          && raw.Some? && Mergeable(files, raw.value, r.value)
          && forall w: Window :: Mergeable(files, raw.value, w) ==> w == r.value || TriedBefore(r.value, w))
  }

  lemma OneSizeTiered(files: seq<SstMeta>, threshold: u64, maxFiles: nat, a: Option<Window>, b: Option<Window>)
    requires BestSizeTiered(files, threshold, maxFiles, a) && BestSizeTiered(files, threshold, maxFiles, b)
    ensures a == b
  {
    hide Bytes;
  }

  lemma OneRaw(files: seq<SstMeta>, strategy: Strategy, threshold: u64, maxFiles: nat, a: Option<Window>, b: Option<Window>)
    requires 2 <= maxFiles
    requires BestRaw(files, strategy, threshold, maxFiles, a) && BestRaw(files, strategy, threshold, maxFiles, b)
    ensures a == b
  {
    hide Bytes, Overlaps, Small, BestSizeTiered;
    if BestSizeTiered(files, threshold, maxFiles, a) && BestSizeTiered(files, threshold, maxFiles, b) {
      OneSizeTiered(files, threshold, maxFiles, a, b);
    }
  }

  /** The window to merge is determined by the files and the settings: all ties are broken. */
  lemma OnePick(
    files: seq<SstMeta>, strategy: Strategy, threshold: u64, maxMergeFiles: nat,
    raw: Option<Window>, r: Option<Window>, raw': Option<Window>, r': Option<Window>)
    requires Picked(files, strategy, threshold, maxMergeFiles, raw, r)
    requires Picked(files, strategy, threshold, maxMergeFiles, raw', r')
    ensures raw == raw' && r == r'
  {
    hide BestRaw, Mergeable;
    OneRaw(files, strategy, threshold, Max(maxMergeFiles, 2), raw, raw');
  }

  method PickCompaction(files: seq<SstMeta>, strategy: Strategy, threshold: u64, maxMergeFiles: nat)
    returns (r: Option<Window>, ghost raw: Option<Window>)
    requires ValidSpans(files)
    ensures Picked(files, strategy, threshold, maxMergeFiles, raw, r)
    ensures r.Some? ==>
              && 2 <= r.value.len <= Max(maxMergeFiles, 2) && r.value.start + r.value.len <= |files|
              && NoHole(files[r.value.start..r.value.start + r.value.len])
  {
    hide NoHole, ValidSpans, Bytes, Overlaps;
    var maxFiles := Max(maxMergeFiles, 2);
    if |files| < 2 {
      return None, None;
    }
    var found: Option<Window> := None;
    match strategy {
      case SizeTiered => found := PickSizeTiered(files, threshold, maxFiles);
      case FileCount => found := PickFileCount(files, threshold, maxFiles);
      case Overlap => found := PickOverlap(files, threshold, maxFiles);
    }
    raw := found;
    if found.None? {
      return None, raw;
    }
    r := ShrinkToLsnContiguous(files, found.value);
  }
}
