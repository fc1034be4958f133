/** The specification of a table: its writes in LSN order, and what a set of layers must satisfy to stand
for them. Layers are told apart by disjoint LSN spans, so that "newest layer wins" can mean "latest
write wins". */
module WriteLog {
  import opened Rows

  datatype Write = Write(lsn: nat, rows: Batch)

  predicate LogOk(log: seq<Write>, next: nat) {
    && (forall i, j :: 0 <= i < j < |log| ==> log[i].lsn < log[j].lsn)
    && (forall i :: 0 <= i < |log| ==> 1 <= log[i].lsn < next)
  }

  function LogRows(log: seq<Write>): (rows: Batch) {
    if log == [] then [] else LogRows(log[..|log| - 1]) + log[|log| - 1].rows
  }

  lemma LogRowsAppend(log: seq<Write>, w: Write)
    ensures LogRows(log + [w]) == LogRows(log) + w.rows
  {
    assert (log + [w])[..|log|] == log;
  }

  /** Last write per time among the writes with an LSN from `lo` to `hi`. */
  function Stretch(log: seq<Write>, lo: nat, hi: int): (m: map<int, int>) {
    if log == [] then map[] else
      var m, w := Stretch(log[..|log| - 1], lo, hi), log[|log| - 1];
      if lo <= w.lsn <= hi then m + LastWrite(w.rows) else m
  }

  /** What a memtable or file holds: its inclusive LSN span and the value it shows at each time. */
  datatype Layer = Layer(base: nat, max: nat, shows: map<int, int>)

  predicate Inside(l: Layer, lsn: nat) {
    l.base <= lsn <= l.max
  }

  predicate Apart(a: Layer, b: Layer) {
    a.max < b.base || b.max < a.base
  }

  predicate PairwiseApart(layers: seq<Layer>) {
    forall i, j :: 0 <= i < j < |layers| ==> Apart(layers[i], layers[j])
  }

  ghost predicate Held(layers: seq<Layer>, lsn: nat) {
    exists i :: 0 <= i < |layers| && Inside(layers[i], lsn)
  }

  ghost predicate Meant(log: seq<Write>, layers: seq<Layer>) {
    forall i :: 0 <= i < |layers| ==>
      1 <= layers[i].base <= layers[i].max && layers[i].shows == Stretch(log, layers[i].base, layers[i].max)
  }

  /** Every write with an LSN from `lo` to `hi` is in one of the layers. */
  ghost predicate Complete(log: seq<Write>, layers: seq<Layer>, lo: nat, hi: int) {
    forall k :: 0 <= k < |log| && lo <= log[k].lsn <= hi ==> Held(layers, log[k].lsn)
  }

  /** The layers, in any order, stand for the log. */
  ghost predicate Sound(log: seq<Write>, next: nat, layers: seq<Layer>) {
    && LogOk(log, next)
    && (forall i :: 0 <= i < |layers| ==> layers[i].max < next)
    && Meant(log, layers) && PairwiseApart(layers) && Complete(log, layers, 0, next)
  }

  /** Later layers over earlier ones. */
  function Stack(layers: seq<Layer>): (m: map<int, int>) {
    if layers == [] then map[] else Stack(layers[..|layers| - 1]) + layers[|layers| - 1].shows
  }

  // ----- spans of the log -----

  lemma StretchAppend(log: seq<Write>, w: Write, lo: nat, hi: int)
    ensures Stretch(log + [w], lo, hi) ==
            if lo <= w.lsn <= hi then Stretch(log, lo, hi) + LastWrite(w.rows) else Stretch(log, lo, hi)
  {
    assert (log + [w])[..|log|] == log;
  }

  ghost predicate Writes(log: seq<Write>, lo: nat, hi: int, t: int) {
    exists k :: 0 <= k < |log| && lo <= log[k].lsn <= hi && t in LastWrite(log[k].rows)
  }

  lemma {:induction false} StretchKeys(log: seq<Write>, lo: nat, hi: int, t: int)
    ensures t in Stretch(log, lo, hi) <==> Writes(log, lo, hi, t)
  {
    if log != [] {
      var init := log[..|log| - 1];
      StretchKeys(init, lo, hi, t);
      if Writes(init, lo, hi, t) {
        var k :| 0 <= k < |init| && lo <= init[k].lsn <= hi && t in LastWrite(init[k].rows);
        assert log[k] == init[k];
      }
      if Writes(log, lo, hi, t) {
        var k :| 0 <= k < |log| && lo <= log[k].lsn <= hi && t in LastWrite(log[k].rows);
        if k < |init| { assert init[k] == log[k]; }
      }
    }
  }

  /** A span is its lower part overlaid by its upper part. */
  lemma {:induction false} StretchSplit(log: seq<Write>, next: nat, lo: nat, mid: nat, hi: int)
    requires LogOk(log, next) && lo <= mid <= hi + 1
    ensures Stretch(log, lo, hi) == Stretch(log, lo, mid - 1) + Stretch(log, mid, hi)
  {
    if log != [] {
      var n := |log| - 1;
      var init, w := log[..n], log[n];
      StretchSplit(init, next, lo, mid, hi);
      if w.lsn < mid {
        forall t ensures t !in Stretch(init, mid, hi) { StretchKeys(init, mid, hi, t); }
        assert Stretch(init, mid, hi) == map[];
        assert forall m: map<int, int> :: m + map[] == m;
      } else if w.lsn <= hi {
        SumAssoc(Stretch(init, lo, mid - 1), Stretch(init, mid, hi), LastWrite(w.rows));
      }
    }
  }

  lemma SumAssoc(a: map<int, int>, b: map<int, int>, c: map<int, int>)
    ensures (a + b) + c == a + (b + c)
  {
  }

  lemma {:induction false} StretchAll(log: seq<Write>, lo: nat, hi: int)
    requires forall k :: 0 <= k < |log| ==> lo <= log[k].lsn <= hi
    ensures Stretch(log, lo, hi) == LastWrite(LogRows(log))
  {
    if log != [] {
      StretchAll(log[..|log| - 1], lo, hi);
      LastWriteConcat(LogRows(log[..|log| - 1]), log[|log| - 1].rows);
    }
  }

  // ----- who wins at a time -----

  /** `k` is the last in the sequence to show `t`. */
  ghost predicate LastHolder(layers: seq<Layer>, t: int, k: nat) {
    k < |layers| && t in layers[k].shows && forall j :: k < j < |layers| ==> t !in layers[j].shows
  }

  /** `k` has the highest span of those that show `t`. */
  ghost predicate TopHolder(layers: seq<Layer>, t: int, k: nat) {
    && k < |layers| && t in layers[k].shows
    && forall j :: 0 <= j < |layers| && j != k && t in layers[j].shows ==> layers[j].max < layers[k].base
  }

  ghost predicate Shown(layers: seq<Layer>, t: int) {
    exists i :: 0 <= i < |layers| && t in layers[i].shows
  }

  lemma {:induction false} StackKeys(layers: seq<Layer>, t: int)
    ensures t in Stack(layers) <==> Shown(layers, t)
  {
    if layers != [] {
      var n := |layers| - 1;
      StackKeys(layers[..n], t);
      assert forall i :: 0 <= i < n ==> layers[..n][i] == layers[i];
    }
  }

  lemma {:induction false} StackLast(layers: seq<Layer>, t: int, k: nat)
    requires LastHolder(layers, t, k)
    ensures t in Stack(layers) && Stack(layers)[t] == layers[k].shows[t]
  {
    var n := |layers| - 1;
    if k < n {
      StackLast(layers[..n], t, k);
    }
  }

  lemma {:induction false} FindLastHolder(layers: seq<Layer>, t: int) returns (k: nat)
    requires Shown(layers, t)
    ensures LastHolder(layers, t, k)
  {
    var n := |layers| - 1;
    if t in layers[n].shows {
      k := n;
    } else {
      var i :| 0 <= i < |layers| && t in layers[i].shows;
      assert layers[..n][i] == layers[i];
      k := FindLastHolder(layers[..n], t);
    }
  }

  lemma {:induction false} FindTopHolder(layers: seq<Layer>, t: int) returns (k: nat)
    requires PairwiseApart(layers)
    requires forall i :: 0 <= i < |layers| ==> layers[i].base <= layers[i].max
    requires Shown(layers, t)
    ensures TopHolder(layers, t, k)
  {
    var n := |layers| - 1;
    var init := layers[..n];
    k := n;
    if Shown(init, t) {
      var top := FindTopHolder(init, t);
      assert Apart(layers[top], layers[n]);
      if t !in layers[n].shows || layers[n].max < layers[top].base {
        k := top;
      }
      TopOfInit(layers, t, top, k);
    } else {
      NotInInit(layers, t);
    }
  }

  lemma TopOfInit(layers: seq<Layer>, t: int, top: nat, k: nat)
    requires layers != [] && TopHolder(layers[..|layers| - 1], t, top)
    requires forall i :: 0 <= i < |layers| ==> layers[i].base <= layers[i].max
    requires k == top || k == |layers| - 1
    requires k == top ==> t !in layers[|layers| - 1].shows || layers[|layers| - 1].max < layers[top].base
    requires k != top ==> t in layers[k].shows && layers[top].max < layers[k].base
    ensures TopHolder(layers, t, k)
  {
    var init := layers[..|layers| - 1];
    forall j | 0 <= j < |layers| && j != k && t in layers[j].shows
      ensures layers[j].max < layers[k].base
    {
      if j < |init| {
        assert init[j] == layers[j];
      }
    }
  }

  lemma NotInInit(layers: seq<Layer>, t: int)
    requires layers != [] && Shown(layers, t) && !Shown(layers[..|layers| - 1], t)
    ensures TopHolder(layers, t, |layers| - 1)
  {
    assert forall j :: 0 <= j < |layers| - 1 ==> layers[j] == layers[..|layers| - 1][j];
  }

  /** The layer that holds a write of `t` shows `t`. */
  lemma WriterLayer(log: seq<Write>, layers: seq<Layer>, lo: nat, hi: int, t: int) returns (i: nat)
    requires Meant(log, layers) && Complete(log, layers, lo, hi) && Writes(log, lo, hi, t)
    ensures i < |layers| && t in layers[i].shows && lo <= layers[i].max && layers[i].base <= hi
  {
    var k :| 0 <= k < |log| && lo <= log[k].lsn <= hi && t in LastWrite(log[k].rows);
    assert Held(layers, log[k].lsn);
    i :| 0 <= i < |layers| && Inside(layers[i], log[k].lsn);
    StretchKeys(log, layers[i].base, layers[i].max, t);
    assert Writes(log, layers[i].base, layers[i].max, t);
  }

  /** The layers of a stretch of the log, in whatever order, decide it time by time: what is written is
      shown, and the value is that of the holder with the highest span. */
  lemma TopDecides(log: seq<Write>, next: nat, layers: seq<Layer>, lo: nat, hi: int, t: int, k: nat)
    requires LogOk(log, next) && Meant(log, layers) && Complete(log, layers, lo, hi) && TopHolder(layers, t, k)
    requires lo <= layers[k].base && layers[k].max <= hi
    ensures t in Stretch(log, lo, hi) && Stretch(log, lo, hi)[t] == layers[k].shows[t]
  {
    hide Stretch, LastWrite;
    var l := layers[k];
    StretchSplit(log, next, lo, l.base, hi);
    StretchSplit(log, next, l.base, l.max + 1, hi);
    StretchKeys(log, l.max + 1, hi, t);
    if Writes(log, l.max + 1, hi, t) {
      assert Complete(log, layers, l.max + 1, hi);
      var i := WriterLayer(log, layers, l.max + 1, hi, t);
      assert false;
    }
  }

  lemma ShownExactly(log: seq<Write>, layers: seq<Layer>, lo: nat, hi: int, t: int)
    requires Meant(log, layers) && Complete(log, layers, lo, hi)
    requires forall i :: 0 <= i < |layers| ==> lo <= layers[i].base && layers[i].max <= hi
    ensures t in Stretch(log, lo, hi) <==> Shown(layers, t)
  {
    StretchKeys(log, lo, hi, t);
    if Writes(log, lo, hi, t) {
      var i := WriterLayer(log, layers, lo, hi, t);
    } else if Shown(layers, t) {
      var i :| 0 <= i < |layers| && t in layers[i].shows;
      StretchKeys(log, layers[i].base, layers[i].max, t);
      assert false;
    }
  }

  /** Order of the sequence and order of the spans agree about who wins. */
  ghost predicate Agree(layers: seq<Layer>) {
    forall t: int, i: nat, j: nat :: LastHolder(layers, t, j) && i < j && t in layers[i].shows ==> layers[i].max < layers[j].base
  }

  /** Stacking the layers of a stretch gives that stretch of the log when the two orders agree. */
  lemma AgreeingStack(log: seq<Write>, next: nat, layers: seq<Layer>, lo: nat, hi: int)
    requires LogOk(log, next) && Meant(log, layers) && Complete(log, layers, lo, hi)
    requires forall i :: 0 <= i < |layers| ==> lo <= layers[i].base && layers[i].max <= hi
    requires Agree(layers)
    ensures Stack(layers) == Stretch(log, lo, hi)
  {
    forall t
      ensures t in Stack(layers) <==> t in Stretch(log, lo, hi)
      ensures t in Stack(layers) ==> Stack(layers)[t] == Stretch(log, lo, hi)[t]
    {
      StackKeys(layers, t);
      ShownExactly(log, layers, lo, hi, t);
      if Shown(layers, t) {
        var k := FindLastHolder(layers, t);
        LastIsTop(layers, t, k);
        StackLast(layers, t, k);
        TopDecides(log, next, layers, lo, hi, t, k);
      }
    }
  }

  lemma LastIsTop(layers: seq<Layer>, t: int, k: nat)
    requires Agree(layers) && LastHolder(layers, t, k)
    ensures TopHolder(layers, t, k)
  {
  }

  // ----- what each step of a table does to its layers -----

  /** A write into a fresh layer of its own, above everything there is. */
  lemma NewLayerSound(log: seq<Write>, next: nat, layers: seq<Layer>, w: Write)
    requires Sound(log, next, layers) && 1 <= next <= w.lsn
    ensures Sound(log + [w], w.lsn + 1, layers + [Layer(w.lsn, w.lsn, LastWrite(w.rows))])
  {
    hide LastWrite, Stretch;
    var layers' := layers + [Layer(w.lsn, w.lsn, LastWrite(w.rows))];
    OlderUnchanged(log, next, layers, w);
    StretchAppend(log, w, w.lsn, w.lsn);
    NothingThere(log, next, w.lsn, w.lsn);
    assert map[] + LastWrite(w.rows) == LastWrite(w.rows);
    assert Inside(layers'[|layers|], w.lsn);
    StillComplete(log, next, layers, layers', w);
  }

  /** A write into the newest layer. */
  lemma GrowLayerSound(log: seq<Write>, next: nat, layers: seq<Layer>, w: Write)
    requires Sound(log, next, layers) && 1 <= next <= w.lsn && layers != []
    requires forall i :: 0 <= i < |layers| - 1 ==> layers[i].max < layers[|layers| - 1].base
    ensures var n := |layers| - 1;
            Sound(log + [w], w.lsn + 1, layers[n := Layer(layers[n].base, w.lsn, layers[n].shows + LastWrite(w.rows))])
  {
    hide LastWrite, Stretch;
    var n := |layers| - 1;
    var l := layers[n];
    var layers' := layers[n := Layer(l.base, w.lsn, l.shows + LastWrite(w.rows))];
    OlderUnchanged(log, next, layers, w);
    StretchAppend(log, w, l.base, w.lsn);
    NothingAbove(log, next, layers, w.lsn);
    assert layers'[n].shows == Stretch(log + [w], l.base, w.lsn);
    assert Inside(layers'[n], w.lsn);
    forall i | 0 <= i < |layers|
      ensures forall lsn: nat :: Inside(layers[i], lsn) ==> Inside(layers'[i], lsn)
    {
    }
    StillComplete(log, next, layers, layers', w);
  }

  lemma OlderUnchanged(log: seq<Write>, next: nat, layers: seq<Layer>, w: Write)
    requires Sound(log, next, layers) && 1 <= next <= w.lsn
    ensures LogOk(log + [w], w.lsn + 1) && Meant(log + [w], layers)
  {
    hide LastWrite, Stretch;
    forall i | 0 <= i < |layers|
      ensures layers[i].shows == Stretch(log + [w], layers[i].base, layers[i].max)
    {
      StretchAppend(log, w, layers[i].base, layers[i].max);
    }
  }

  lemma NothingThere(log: seq<Write>, next: nat, lo: nat, hi: int)
    requires LogOk(log, next) && next <= lo
    ensures Stretch(log, lo, hi) == map[]
  {
    hide LastWrite, Stretch;
    forall t ensures t !in Stretch(log, lo, hi) { StretchKeys(log, lo, hi, t); }
  }

  lemma NothingAbove(log: seq<Write>, next: nat, layers: seq<Layer>, hi: nat)
    requires Sound(log, next, layers) && layers != [] && next <= hi
    requires forall i :: 0 <= i < |layers| - 1 ==> layers[i].max < layers[|layers| - 1].base
    ensures Stretch(log, layers[|layers| - 1].base, hi) == layers[|layers| - 1].shows
  {
    hide LastWrite, Stretch;
    var l := layers[|layers| - 1];
    StretchSplit(log, next, l.base, l.max + 1, hi);
    var above := l.max + 1;
    var m := Stretch(log, above, hi);
    forall t
      ensures t !in m
    {
      StretchKeys(log, above, hi, t);
    }
    assert l.shows + map[] == l.shows;
  }

  lemma StillComplete(log: seq<Write>, next: nat, layers: seq<Layer>, layers': seq<Layer>, w: Write)
    requires Complete(log, layers, 0, next) && LogOk(log, next) && Held(layers', w.lsn)
    requires |layers| <= |layers'|
    requires forall i, lsn: nat :: 0 <= i < |layers| && Inside(layers[i], lsn) ==> Inside(layers'[i], lsn)
    ensures Complete(log + [w], layers', 0, w.lsn + 1)
  {
    forall k | 0 <= k < |log|
      ensures Held(layers', log[k].lsn)
    {
      assert Held(layers, log[k].lsn);
      var i :| 0 <= i < |layers| && Inside(layers[i], log[k].lsn);
      assert Inside(layers'[i], log[k].lsn);
    }
  }

  /** LSNs handed to other tables. */
  lemma LaterNextSound(log: seq<Write>, next: nat, next': nat, layers: seq<Layer>)
    requires Sound(log, next, layers) && next <= next'
    ensures Sound(log, next', layers)
  {
    hide LastWrite, Stretch;
  }

  /** `to` holds the layers of `from`, rearranged by `place`. */
  ghost predicate Rearranged(from: seq<Layer>, to: seq<Layer>, place: seq<nat>) {
    && |place| == |to| == |from|
    && (forall i :: 0 <= i < |to| ==> place[i] < |from| && to[i] == from[place[i]])
    && (forall i, j :: 0 <= i < j < |to| ==> place[i] != place[j])
    && (forall k :: 0 <= k < |from| ==> k in place)
  }

  /** Soundness does not depend on the order of the layers. */
  lemma RearrangedSound(log: seq<Write>, next: nat, from: seq<Layer>, to: seq<Layer>, place: seq<nat>)
    requires Sound(log, next, from) && Rearranged(from, to, place)
    ensures Sound(log, next, to)
  {
    hide LastWrite, Stretch;
    forall i, j | 0 <= i < j < |to|
      ensures Apart(to[i], to[j])
    {
      var p, q := place[i], place[j];
      assert p < q || q < p;
    }
    forall k | 0 <= k < |log| && 0 <= log[k].lsn <= next
      ensures Held(to, log[k].lsn)
    {
      assert Held(from, log[k].lsn);
      var p :| 0 <= p < |from| && Inside(from[p], log[k].lsn);
      assert p in place;
      var i :| 0 <= i < |place| && place[i] == p;
      assert Inside(to[i], log[k].lsn);
    }
  }

  /** Moving one layer forward past a stretch of others. */
  lemma MoveSound(log: seq<Write>, next: nat, a: seq<Layer>, b: seq<Layer>, x: Layer, c: seq<Layer>)
    requires Sound(log, next, a + b + [x] + c)
    ensures Sound(log, next, a + [x] + b + c)
  {
    hide Sound;
    var n, m, from, to := |a|, |b|, a + b + [x] + c, a + [x] + b + c;
    var place := seq(|from|, i requires 0 <= i < |from| => if i < n || i > n + m then i else if i == n then n + m else i - 1);
    forall k | 0 <= k < |from|
      ensures k in place
    {
      assert place[if k < n || k > n + m then k else if k == n + m then n else k + 1] == k;
    }
    RearrangedSound(log, next, from, to, place);
  }

  // ----- reading and compacting -----

  predicate Ordered(layers: seq<Layer>) {
    forall i, j :: 0 <= i < j < |layers| ==> layers[i].max < layers[j].base
  }

  /** Layers stacked by span show, at every time, exactly the last write in LSN order. */
  lemma ReadIsLastWrite(log: seq<Write>, next: nat, layers: seq<Layer>)
    requires Sound(log, next, layers) && Ordered(layers)
    ensures Stack(layers) == LastWrite(LogRows(log))
  {
    hide LastWrite, Stretch, Stack;
    AgreeingStack(log, next, layers, 0, next);
    StretchAll(log, 0, next);
  }

  /** The least and greatest LSN of the merged layer are those of its inputs. */
  predicate Hull(run: seq<Layer>, base: nat, max: nat) {
    && (forall i :: 0 <= i < |run| ==> base <= run[i].base && run[i].max <= max)
    && (exists i :: 0 <= i < |run| && run[i].base == base)
    && (exists i :: 0 <= i < |run| && run[i].max == max)
  }

  ghost predicate Tiled(run: seq<Layer>, base: nat, max: nat) {
    forall lsn: nat :: base <= lsn <= max ==> Held(run, lsn)
  }

  /** Stacking shows what ranking by span shows. */
  ghost predicate Faithful(layers: seq<Layer>) {
    forall t: int, k: nat :: TopHolder(layers, t, k) ==> t in Stack(layers) && Stack(layers)[t] == layers[k].shows[t]
  }

  /** Stacking the layers of a stretch gives that stretch of the log exactly when it is faithful. */
  lemma FaithfulStack(log: seq<Write>, next: nat, layers: seq<Layer>, lo: nat, hi: int)
    requires LogOk(log, next) && Meant(log, layers) && Complete(log, layers, lo, hi) && PairwiseApart(layers)
    requires forall i :: 0 <= i < |layers| ==> lo <= layers[i].base <= layers[i].max <= hi
    ensures Stack(layers) == Stretch(log, lo, hi) <==> Faithful(layers)
  {
    hide Stack, Stretch, LastWrite, Meant, Complete, PairwiseApart;
    forall t
      ensures t in Stack(layers) <==> t in Stretch(log, lo, hi)
      ensures Faithful(layers) && t in Stack(layers) ==> Stack(layers)[t] == Stretch(log, lo, hi)[t]
    {
      StackKeys(layers, t);
      ShownExactly(log, layers, lo, hi, t);
      if Shown(layers, t) {
        var k := FindTopHolder(layers, t);
        TopDecides(log, next, layers, lo, hi, t, k);
      }
    }
    forall t: int, k: nat | TopHolder(layers, t, k)
      ensures t in Stretch(log, lo, hi) && Stretch(log, lo, hi)[t] == layers[k].shows[t]
    {
      TopDecides(log, next, layers, lo, hi, t, k);
    }
  }

  /** Replacing a run without holes by its stack, under the hull of its spans, keeps the layers sound
      exactly when the stack shows what ranking the run by span shows. */
  lemma CompactSound(log: seq<Write>, next: nat, a: seq<Layer>, run: seq<Layer>, b: seq<Layer>, merged: Layer)
    requires Sound(log, next, a + run + b) && run != []
    requires Hull(run, merged.base, merged.max) && Tiled(run, merged.base, merged.max) && merged.shows == Stack(run)
    ensures Sound(log, next, a + [merged] + b) <==> Faithful(run)
  {
    hide LastWrite, Stretch, Stack, Faithful;
    var before, after := a + run + b, a + [merged] + b;
    SplitSound(log, next, a, run, b);
    assert Complete(log, run, merged.base, merged.max) by {
      forall k | 0 <= k < |log| && merged.base <= log[k].lsn <= merged.max
        ensures Held(run, log[k].lsn)
      {
      }
    }
    FaithfulStack(log, next, run, merged.base, merged.max);
    OutsideHull(a, run, b, merged);
    MergedComplete(log, next, a, run, b, merged);
    assert after[|a|] == merged;
  }

  lemma SplitSound(log: seq<Write>, next: nat, a: seq<Layer>, run: seq<Layer>, b: seq<Layer>)
    requires Sound(log, next, a + run + b)
    ensures Meant(log, a) && Meant(log, run) && Meant(log, b)
    ensures PairwiseApart(a) && PairwiseApart(run) && PairwiseApart(b)
    ensures forall i, j :: 0 <= i < |a| && 0 <= j < |b| ==> Apart(a[i], b[j])
    ensures forall i, j :: 0 <= i < |a| && 0 <= j < |run| ==> Apart(a[i], run[j])
    ensures forall i, j :: 0 <= i < |b| && 0 <= j < |run| ==> Apart(b[i], run[j])
    ensures forall i :: 0 <= i < |a| ==> a[i].max < next
    ensures forall i :: 0 <= i < |b| ==> b[i].max < next
    ensures forall i :: 0 <= i < |run| ==> run[i].max < next
  {
    hide LastWrite, Stretch;
    var all := a + run + b;
    assert forall i :: 0 <= i < |a| ==> a[i] == all[i];
    assert forall i :: 0 <= i < |run| ==> run[i] == all[|a| + i];
    assert forall i :: 0 <= i < |b| ==> b[i] == all[|a| + |run| + i];
  }

  /** No other layer can rank inside the merged span: it would share an LSN with a member of the run. */
  lemma OutsideHull(a: seq<Layer>, run: seq<Layer>, b: seq<Layer>, merged: Layer)
    requires forall i, j :: 0 <= i < |a| && 0 <= j < |run| ==> Apart(a[i], run[j])
    requires forall i, j :: 0 <= i < |b| && 0 <= j < |run| ==> Apart(b[i], run[j])
    requires forall i :: 0 <= i < |a| ==> a[i].base <= a[i].max
    requires forall i :: 0 <= i < |b| ==> b[i].base <= b[i].max
    requires Tiled(run, merged.base, merged.max) && merged.base <= merged.max
    ensures forall i :: 0 <= i < |a| ==> Apart(a[i], merged)
    ensures forall i :: 0 <= i < |b| ==> Apart(b[i], merged)
  {
    forall x: Layer | x in a || x in b
      ensures Apart(x, merged)
    {
      var lsn := if x.base <= merged.base then merged.base else x.base;
      assert lsn <= merged.max ==> Held(run, lsn);
    }
  }

  lemma MergedComplete(log: seq<Write>, next: nat, a: seq<Layer>, run: seq<Layer>, b: seq<Layer>, merged: Layer)
    requires Complete(log, a + run + b, 0, next) && Hull(run, merged.base, merged.max)
    ensures Complete(log, a + [merged] + b, 0, next)
  {
    var before, after := a + run + b, a + [merged] + b;
    forall k | 0 <= k < |log| && 0 <= log[k].lsn <= next
      ensures Held(after, log[k].lsn)
    {
      assert Held(before, log[k].lsn);
      var i :| 0 <= i < |before| && Inside(before[i], log[k].lsn);
      var j := if i < |a| then i else if i < |a| + |run| then |a| else i - |run| + 1;
      assert Inside(after[j], log[k].lsn);
    }
  }

  // ----- exactly when compaction preserves reads -----

  /** The layers can be ranked: their spans do not meet. */
  ghost predicate Rankable(layers: seq<Layer>) {
    PairwiseApart(layers) && forall i :: 0 <= i < |layers| ==> layers[i].base <= layers[i].max
  }

  /** Where a layer is once the run behind `a` has become one. */
  function MovedTo(a: nat, run: nat, k: nat): (k': nat)
    requires 0 < run
  {
    if k < a then k else if k < a + run then a else k - run + 1
  }

  lemma MergedRankable(a: seq<Layer>, run: seq<Layer>, b: seq<Layer>, merged: Layer)
    requires Rankable(a + run + b) && run != []
    requires Hull(run, merged.base, merged.max) && Tiled(run, merged.base, merged.max)
    ensures Rankable(a + [merged] + b) && merged.base <= merged.max
  {
    hide Rankable, Tiled;
    var before, after := a + run + b, a + [merged] + b;
    SplitRankable(a, run, b);
    OutsideHull(a, run, b, merged);
    forall i, j | 0 <= i < j < |after|
      ensures Apart(after[i], after[j])
    {
      if i != |a| && j != |a| {
        var p, q := if i < |a| then i else i + |run| - 1, if j < |a| then j else j + |run| - 1;
        assert after[i] == before[p] && after[j] == before[q];
        RankedApart(before, p, q);
      }
    }
    AllRankable(after);
  }

  lemma AllRankable(layers: seq<Layer>)
    requires forall i, j :: 0 <= i < j < |layers| ==> Apart(layers[i], layers[j])
    requires forall i :: 0 <= i < |layers| ==> layers[i].base <= layers[i].max
    ensures Rankable(layers)
  {
  }

  lemma SplitRankable(a: seq<Layer>, run: seq<Layer>, b: seq<Layer>)
    requires Rankable(a + run + b)
    ensures forall i, j :: 0 <= i < |a| && 0 <= j < |run| ==> Apart(a[i], run[j])
    ensures forall i, j :: 0 <= i < |b| && 0 <= j < |run| ==> Apart(b[i], run[j])
    ensures forall i :: 0 <= i < |a| ==> a[i].base <= a[i].max
    ensures forall i :: 0 <= i < |run| ==> run[i].base <= run[i].max
    ensures forall i :: 0 <= i < |b| ==> b[i].base <= b[i].max
  {
    var all := a + run + b;
    assert forall i :: 0 <= i < |a| ==> a[i] == all[i];
    assert forall i :: 0 <= i < |run| ==> run[i] == all[|a| + i];
    assert forall i :: 0 <= i < |b| ==> b[i] == all[|a| + |run| + i];
  }

  /** The newest holder of a time stays it, or, if it was in the run, is replaced by the merge. */
  lemma TopMoves(a: seq<Layer>, run: seq<Layer>, b: seq<Layer>, merged: Layer, t: int, k: nat)
    requires Rankable(a + run + b) && Rankable(a + [merged] + b) && run != [] && TopHolder(a + run + b, t, k)
    requires Hull(run, merged.base, merged.max) && merged.shows == Stack(run)
    ensures TopHolder(a + [merged] + b, t, MovedTo(|a|, |run|, k))
  {
    hide Stack, Rankable;
    var before, after, top := a + run + b, a + [merged] + b, MovedTo(|a|, |run|, k);
    StackKeys(run, t);
    SplitRankable(a, run, b);
    if |a| <= k < |a| + |run| {
      assert before[k] == run[k - |a|];
    } else {
      assert before[k] == after[top];
    }
    forall j | 0 <= j < |after| && j != top && t in after[j].shows
      ensures after[j].max < after[top].base
    {
      RankedApart(after, j, top);
      if j == |a| {
        var i :| 0 <= i < |run| && t in run[i].shows;
        assert before[|a| + i] == run[i];
      } else {
        var i := if j < |a| then j else j + |run| - 1;
        assert before[i] == after[j] && i != k;
      }
    }
  }

  lemma RankedApart(layers: seq<Layer>, i: nat, j: nat)
    requires Rankable(layers) && i < |layers| && j < |layers| && i != j
    ensures Apart(layers[i], layers[j])
    ensures layers[i].base <= layers[i].max && layers[j].base <= layers[j].max
  {
  }

  /** A sequence in span order shows, at each time, what the newest holder of the layers shows. */
  lemma RankedTop(from: seq<Layer>, to: seq<Layer>, place: seq<nat>, t: int, k: nat)
    requires Rearranged(from, to, place) && Ordered(to) && Rankable(from) && TopHolder(from, t, k)
    ensures t in Stack(to) && Stack(to)[t] == from[k].shows[t]
  {
    hide Stack;
    assert k in place;
    var i :| 0 <= i < |place| && place[i] == k;
    assert to[i] == from[k];
    forall j | i < j < |to|
      ensures t !in to[j].shows
    {
      assert to[j] == from[place[j]] && to[i].max < to[j].base;
      RankedApart(from, k, place[j]);
    }
    StackLast(to, t, i);
  }

  lemma RankedKeys(from: seq<Layer>, to: seq<Layer>, place: seq<nat>, t: int)
    requires Rearranged(from, to, place)
    ensures t in Stack(to) <==> Shown(from, t)
  {
    hide Stack;
    StackKeys(to, t);
    if Shown(from, t) {
      var k :| 0 <= k < |from| && t in from[k].shows;
      assert k in place;
      var i :| 0 <= i < |place| && place[i] == k;
      assert t in to[i].shows;
    }
  }

  /** Wherever the newest holder of a time is one of these layers, stacking them shows its value. Times that
      a newer layer outside covers do not matter. */
  ghost predicate VisiblyFaithful(layers: seq<Layer>, start: nat, count: nat)
    requires start + count <= |layers|
  {
    forall t: int, k: nat :: TopHolder(layers, t, k) && start <= k < start + count ==>
      (var m := Stack(layers[start..start + count]); t in m && m[t] == layers[k].shows[t])
  }

  lemma ShownConcat(a: seq<Layer>, b: seq<Layer>, t: int)
    ensures Shown(a + b, t) <==> Shown(a, t) || Shown(b, t)
  {
    assert forall i :: 0 <= i < |a| ==> a[i] == (a + b)[i];
    assert forall i :: 0 <= i < |b| ==> b[i] == (a + b)[|a| + i];
  }

  lemma ShownStays(a: seq<Layer>, run: seq<Layer>, b: seq<Layer>, merged: Layer, t: int)
    requires merged.shows == Stack(run)
    ensures Shown(a + [merged] + b, t) <==> Shown(a + run + b, t)
  {
    hide Stack;
    StackKeys(run, t);
    assert Shown([merged], t) <==> t in [merged][0].shows;
    ShownConcat(a, run, t);
    ShownConcat(a + run, b, t);
    ShownConcat(a, [merged], t);
    ShownConcat(a + [merged], b, t);
  }

  /** At one time: the newest holder before and after the merge, and what a read makes of them. */
  lemma MergedReadAt(
    a: seq<Layer>, run: seq<Layer>, b: seq<Layer>, merged: Layer,
    to: seq<Layer>, p: seq<nat>, to': seq<Layer>, p': seq<nat>, t: int, k: nat)
    requires Rankable(a + run + b) && Rankable(a + [merged] + b) && run != [] && TopHolder(a + run + b, t, k)
    requires Hull(run, merged.base, merged.max) && merged.shows == Stack(run)
    requires Rearranged(a + run + b, to, p) && Ordered(to) && Rearranged(a + [merged] + b, to', p') && Ordered(to')
    ensures t in Stack(to) && t in Stack(to')
    ensures !(|a| <= k < |a| + |run|) ==> Stack(to')[t] == Stack(to)[t]
    ensures |a| <= k < |a| + |run| ==>
              t in Stack(run) && (Stack(to')[t] == Stack(to)[t] <==> Stack(run)[t] == (a + run + b)[k].shows[t])
  {
    hide Stack, Rankable, Rearranged, Ordered, Hull;
    TopMoves(a, run, b, merged, t, k);
    RankedTop(a + run + b, to, p, t, k);
    RankedTop(a + [merged] + b, to', p', t, MovedTo(|a|, |run|, k));
  }

  /** Both reads, before and after the run became its stack. */
  ghost predicate BothRanked(
    a: seq<Layer>, run: seq<Layer>, b: seq<Layer>, merged: Layer,
    to: seq<Layer>, p: seq<nat>, to': seq<Layer>, p': seq<nat>)
  {
    && Rankable(a + run + b) && Rankable(a + [merged] + b) && run != []
    && Hull(run, merged.base, merged.max) && merged.shows == Stack(run)
    && Rearranged(a + run + b, to, p) && Ordered(to) && Rearranged(a + [merged] + b, to', p') && Ordered(to')
  }

  lemma FaithfulReadAt(
    a: seq<Layer>, run: seq<Layer>, b: seq<Layer>, merged: Layer,
    to: seq<Layer>, p: seq<nat>, to': seq<Layer>, p': seq<nat>, t: int)
    requires BothRanked(a, run, b, merged, to, p, to', p') && VisiblyFaithful(a + run + b, |a|, |run|)
    ensures t in Stack(to) <==> t in Stack(to')
    ensures t in Stack(to) ==> Stack(to')[t] == Stack(to)[t]
  {
    hide Stack, Rearranged, Ordered, Hull, TopHolder, Rankable, Shown;
    var layers := a + run + b;
    assert layers[|a|..|a| + |run|] == run;
    RankedKeys(layers, to, p, t);
    RankedKeys(a + [merged] + b, to', p', t);
    ShownStays(a, run, b, merged, t);
    if Shown(layers, t) {
      var k := TopOf(layers, t);
      MergedReadAt(a, run, b, merged, to, p, to', p', t, k);
    }
  }

  lemma TopOf(layers: seq<Layer>, t: int) returns (k: nat)
    requires Rankable(layers) && Shown(layers, t)
    ensures TopHolder(layers, t, k)
  {
    k := FindTopHolder(layers, t);
  }

  lemma UnfaithfulReadAt(
    a: seq<Layer>, run: seq<Layer>, b: seq<Layer>, merged: Layer,
    to: seq<Layer>, p: seq<nat>, to': seq<Layer>, p': seq<nat>)
    requires BothRanked(a, run, b, merged, to, p, to', p') && !VisiblyFaithful(a + run + b, |a|, |run|)
    ensures Stack(to') != Stack(to)
  {
    hide Stack, Rearranged, Ordered, Hull, Rankable;
    var layers := a + run + b;
    assert layers[|a|..|a| + |run|] == run;
    var t: int, k: nat :| TopHolder(layers, t, k) && |a| <= k < |a| + |run|
                          && !(t in Stack(run) && Stack(run)[t] == layers[k].shows[t]);
    MergedReadAt(a, run, b, merged, to, p, to', p', t, k);
  }

  /** Reads in span order are the same before and after a run becomes its stack exactly when the stack is
      right wherever the run is newest. */
  lemma MergedReadsExactly(
    a: seq<Layer>, run: seq<Layer>, b: seq<Layer>, merged: Layer,
    to: seq<Layer>, p: seq<nat>, to': seq<Layer>, p': seq<nat>)
    requires Rankable(a + run + b) && run != []
    requires Hull(run, merged.base, merged.max) && Tiled(run, merged.base, merged.max) && merged.shows == Stack(run)
    requires Rearranged(a + run + b, to, p) && Ordered(to) && Rearranged(a + [merged] + b, to', p') && Ordered(to')
    ensures Stack(to') == Stack(to) <==> VisiblyFaithful(a + run + b, |a|, |run|)
  {
    hide Stack, Rearranged, Ordered, Hull, Tiled, Rankable, VisiblyFaithful;
    MergedRankable(a, run, b, merged);
    if VisiblyFaithful(a + run + b, |a|, |run|) {
      forall t
        ensures t in Stack(to) <==> t in Stack(to')
        ensures t in Stack(to) ==> Stack(to')[t] == Stack(to)[t]
      {
        FaithfulReadAt(a, run, b, merged, to, p, to', p', t);
      }
    } else {
      UnfaithfulReadAt(a, run, b, merged, to, p, to', p');
    }
  }

  /** Same spans and same times; the values may differ. */
  ghost predicate SameShape(a: seq<Layer>, b: seq<Layer>) {
    && |a| == |b|
    && forall i :: 0 <= i < |a| ==> a[i].base == b[i].base && a[i].max == b[i].max && a[i].shows.Keys == b[i].shows.Keys
  }

  /** Each layer's rows carry its position in the run. */
  function Stamped(run: seq<Layer>): (r: seq<Layer>)
    ensures SameShape(run, r)
    ensures forall i, t :: 0 <= i < |run| && t in r[i].shows ==> r[i].shows[t] == i
  {
    seq(|run|, i requires 0 <= i < |run| => Layer(run[i].base, run[i].max, map t | t in run[i].shows :: i))
  }

  /** The order of a run agrees with its spans if and only if merging it preserves what ranking by span
      shows, whatever the rows' values are. */
  lemma AgreeExactly(run: seq<Layer>)
    requires PairwiseApart(run) && forall i :: 0 <= i < |run| ==> run[i].base <= run[i].max
    ensures Agree(run) <==> forall run' :: SameShape(run, run') ==> Faithful(run')
  {
    if Agree(run) {
      forall run' | SameShape(run, run')
        ensures Faithful(run')
      {
        SameShapeAgrees(run, run');
        AgreeFaithful(run');
      }
    } else {
      var t: int, i: nat, j: nat :|
        LastHolder(run, t, j) && i < j && t in run[i].shows && !(run[i].max < run[j].base);
      StampedUnfaithful(run, t, i, j);
    }
  }

  lemma SameShapeAgrees(run: seq<Layer>, run': seq<Layer>)
    requires Agree(run) && SameShape(run, run')
    ensures Agree(run')
  {
    forall t: int, i: nat, j: nat | LastHolder(run', t, j) && i < j && t in run'[i].shows
      ensures run'[i].max < run'[j].base
    {
      assert forall k :: 0 <= k < |run| ==> (t in run[k].shows <==> t in run[k].shows.Keys);
      assert forall k :: 0 <= k < |run| ==> (t in run'[k].shows <==> t in run'[k].shows.Keys);
      assert LastHolder(run, t, j);
    }
  }

  lemma AgreeFaithful(layers: seq<Layer>)
    requires Agree(layers) && forall i :: 0 <= i < |layers| ==> layers[i].base <= layers[i].max
    ensures Faithful(layers)
  {
    forall t: int, k: nat | TopHolder(layers, t, k)
      ensures t in Stack(layers) && Stack(layers)[t] == layers[k].shows[t]
    {
      var j := FindLastHolder(layers, t);
      LastIsTop(layers, t, j);
      StackLast(layers, t, j);
    }
  }

  lemma StampedUnfaithful(run: seq<Layer>, t: int, i: nat, j: nat)
    requires PairwiseApart(run) && forall i :: 0 <= i < |run| ==> run[i].base <= run[i].max
    requires LastHolder(run, t, j) && i < j && t in run[i].shows && !(run[i].max < run[j].base)
    ensures !Faithful(Stamped(run))
  {
    var s := Stamped(run);
    assert forall k :: 0 <= k < |run| ==> (t in run[k].shows <==> t in run[k].shows.Keys);
    assert forall k :: 0 <= k < |run| ==> (t in s[k].shows <==> t in s[k].shows.Keys);
    assert LastHolder(s, t, j) && Shown(s, t);
    StackLast(s, t, j);
    var k := FindTopHolder(s, t);
    assert k != j;
    assert TopHolder(s, t, k) && s[k].shows[t] == k;
  }
}
