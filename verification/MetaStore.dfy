/** The metadata store (src/catalog/src/store/mod.rs): an in-memory image of schemas and manifests, a log
of the records since the last snapshot, and a degraded mode that keeps records in memory while the disk
fails. Replay ignores sequence numbers, so crash safety rests on replaying a log twice being harmless. */
module MetaStore {
  import opened Rows
  import opened Sst
  import MetaWal

  type Name = string

  datatype Schema = Schema(table: Name, columns: seq<(string, string)>, dataDir: string)

  type Files = seq<SstMeta>

  datatype Op =
    | PutSchemaOp(schema: Option<Schema>)
    | SetManifestOp(table: Name, files: Files)
    | DropTableOp(table: Name)
    | NoOp

  datatype Record = Record(seqNo: nat, op: Op)

  datatype Image = Image(schemas: map<Name, Schema>, manifests: map<Name, Files>, seqNo: nat)

  const BLANK := Image(map[], map[], 0)

  function OrDefault(manifests: map<Name, Files>, table: Name): (r: map<Name, Files>) {
    if table in manifests then manifests else manifests[table := []]
  }

  /** The effect of one record; its sequence number only ever raises the counter. */
  function Apply(r: Record, i: Image): (i': Image) {
    var n := Max(i.seqNo, r.seqNo);
    match r.op
    case PutSchemaOp(None) => i.(seqNo := n)
    case PutSchemaOp(Some(s)) => Image(i.schemas[s.table := s], OrDefault(i.manifests, s.table), n)
    case SetManifestOp(t, files) => Image(i.schemas, i.manifests[t := files], n)
    case DropTableOp(t) => Image(i.schemas - {t}, i.manifests - {t}, n)
    case NoOp => i.(seqNo := n)
  }

  function Replay(records: seq<Record>, i: Image): (i': Image) {
    if records == [] then i else Apply(records[|records| - 1], Replay(records[..|records| - 1], i))
  }

  lemma ReplayAppend(records: seq<Record>, r: Record, i: Image)
    ensures Replay(records + [r], i) == Apply(r, Replay(records, i))
  {
    assert (records + [r])[..|records|] == records;
  }

  lemma {:induction false} ReplayConcat(a: seq<Record>, b: seq<Record>, i: Image)
    ensures Replay(a + b, i) == Replay(b, Replay(a, i))
  {
    if b == [] {
      assert a + b == a;
    } else {
      var n := |b| - 1;
      ReplayConcat(a, b[..n], i);
      assert (a + b)[..|a + b| - 1] == a + b[..n];
    }
  }

  // ----- what a log does to one table -----

  datatype SchemaEffect = KeepSchema | NewSchema(schema: Option<Schema>)
  datatype ManifestEffect = KeepManifest | EnsureManifest | NewManifest(files: Option<Files>)

  /** The combined effect of a log on one table: on its schema, and on its manifest. */
  function SchemaEffectOf(records: seq<Record>, t: Name): (e: SchemaEffect) {
    if records == [] then KeepSchema else
      var before := SchemaEffectOf(records[..|records| - 1], t);
      match records[|records| - 1].op
      case PutSchemaOp(Some(s)) => if s.table == t then NewSchema(Some(s)) else before
      case DropTableOp(u) => if u == t then NewSchema(None) else before
      case _ => before
  }

  function ManifestEffectOf(records: seq<Record>, t: Name): (e: ManifestEffect) {
    if records == [] then KeepManifest else
      var before := ManifestEffectOf(records[..|records| - 1], t);
      match records[|records| - 1].op
      case PutSchemaOp(Some(s)) =>
        if s.table != t then before
        else if before.KeepManifest? || before == NewManifest(None) then
          (if before.KeepManifest? then EnsureManifest else NewManifest(Some([])))
        else before
      case SetManifestOp(u, files) => if u == t then NewManifest(Some(files)) else before
      case DropTableOp(u) => if u == t then NewManifest(None) else before
      case _ => before
  }

  function Get<T>(m: map<Name, T>, t: Name): (v: Option<T>) {
    if t in m then Some(m[t]) else None
  }

  function OnSchema(e: SchemaEffect, v: Option<Schema>): (r: Option<Schema>) {
    if e.KeepSchema? then v else e.schema
  }

  function OnManifest(e: ManifestEffect, v: Option<Files>): (r: Option<Files>) {
    match e
    case KeepManifest => v
    case EnsureManifest => if v.None? then Some([]) else v
    case NewManifest(files) => files
  }

  function MaxSeq(records: seq<Record>): (n: nat) {
    if records == [] then 0 else Max(MaxSeq(records[..|records| - 1]), records[|records| - 1].seqNo)
  }

  /** Replaying does to each table what its combined effect says. */
  lemma {:induction false} ReplayEffect(records: seq<Record>, i: Image, t: Name)
    ensures Get(Replay(records, i).schemas, t) == OnSchema(SchemaEffectOf(records, t), Get(i.schemas, t))
    ensures Get(Replay(records, i).manifests, t) == OnManifest(ManifestEffectOf(records, t), Get(i.manifests, t))
    ensures Replay(records, i).seqNo == Max(i.seqNo, MaxSeq(records))
  {
    if records != [] {
      ReplayEffect(records[..|records| - 1], i, t);
    }
  }

  lemma SameMaps<T>(a: map<Name, T>, b: map<Name, T>)
    requires forall t :: Get(a, t) == Get(b, t)
    ensures a == b
  {
    forall t
      ensures t in a <==> t in b
      ensures t in a ==> a[t] == b[t]
    {
      assert Get(a, t) == Get(b, t);
    }
  }

  /** Any log replayed twice leaves what replaying it once leaves. */
  lemma ReplayTwice(records: seq<Record>, i: Image)
    ensures Replay(records, Replay(records, i)) == Replay(records, i)
  {
    var once := Replay(records, i);
    var twice := Replay(records, once);
    forall t: Name
      ensures Get(twice.schemas, t) == Get(once.schemas, t) && Get(twice.manifests, t) == Get(once.manifests, t)
      ensures twice.seqNo == once.seqNo
    {
      ReplayEffect(records, i, t);
      ReplayEffect(records, once, t);
    }
    SameMaps(twice.schemas, once.schemas);
    SameMaps(twice.manifests, once.manifests);
    assert Get(twice.schemas, "") == Get(once.schemas, "");
  }

  // ----- the order of sequence numbers, and what a lost suffix takes with it -----

  predicate Ordered(records: seq<Record>) {
    forall i, j :: 0 <= i < j < |records| ==> records[i].seqNo < records[j].seqNo
  }

  lemma {:induction false} MaxSeqBounds(records: seq<Record>, i: nat)
    requires i < |records|
    ensures records[i].seqNo <= MaxSeq(records)
  {
    if i < |records| - 1 {
      MaxSeqBounds(records[..|records| - 1], i);
    }
  }

  /** In an ordered log the greatest number is the last. */
  lemma {:induction false} MaxSeqIsLast(records: seq<Record>)
    requires Ordered(records) && records != []
    ensures MaxSeq(records) == records[|records| - 1].seqNo
  {
    if |records| > 1 {
      MaxSeqIsLast(records[..|records| - 1]);
    }
  }

  lemma OrderedAppend(records: seq<Record>, r: Record)
    requires Ordered(records) && MaxSeq(records) < r.seqNo
    ensures Ordered(records + [r])
  {
    forall i | 0 <= i < |records| ensures records[i].seqNo < r.seqNo {
      MaxSeqBounds(records, i);
    }
  }

  lemma OrderedSplit(kept: seq<Record>, dropped: seq<Record>)
    requires Ordered(kept + dropped)
    ensures Ordered(kept)
    ensures Ordered(dropped)
    ensures dropped != [] ==> MaxSeq(kept) < MaxSeq(dropped) || kept == []
  {
    var all := kept + dropped;
    assert forall i :: 0 <= i < |kept| ==> all[i] == kept[i];
    assert forall i :: 0 <= i < |dropped| ==> all[|kept| + i] == dropped[i];
    if dropped != [] && kept != [] {
      MaxSeqIsLast(kept);
      MaxSeqIsLast(dropped);
    }
  }

  /** What `base` and `kept` leave of one table, and what `dropped` would have made of that. */
  ghost predicate NoEffect(dropped: seq<Record>, kept: seq<Record>, base: Image, t: Name) {
    var schema := OnSchema(SchemaEffectOf(kept, t), Get(base.schemas, t));
    var manifest := OnManifest(ManifestEffectOf(kept, t), Get(base.manifests, t));
    && OnSchema(SchemaEffectOf(dropped, t), schema) == schema
    && OnManifest(ManifestEffectOf(dropped, t), manifest) == manifest
  }

  /** The records of `dropped` can be lost: the base image was taken after the last of them, and on top
      of what `kept` does to that image they change no table. */
  ghost predicate Harmless(dropped: seq<Record>, kept: seq<Record>, base: Image) {
    MaxSeq(dropped) <= base.seqNo && forall t :: NoEffect(dropped, kept, base, t)
  }

  lemma NoEffectExactly(dropped: seq<Record>, kept: seq<Record>, base: Image, t: Name)
    ensures var k, all := Replay(kept, base), Replay(kept + dropped, base);
            NoEffect(dropped, kept, base, t)
            <==> Get(all.schemas, t) == Get(k.schemas, t) && Get(all.manifests, t) == Get(k.manifests, t)
    ensures Replay(kept + dropped, base).seqNo == Max(Max(base.seqNo, MaxSeq(kept)), MaxSeq(dropped))
    ensures Replay(kept, base).seqNo == Max(base.seqNo, MaxSeq(kept))
  {
    ReplayConcat(kept, dropped, base);
    ReplayEffect(kept, base, t);
    ReplayEffect(dropped, Replay(kept, base), t);
  }

  /** Losing the end of an ordered log loses nothing exactly when that end is harmless. */
  lemma LossExactly(kept: seq<Record>, dropped: seq<Record>, base: Image)
    requires Ordered(kept + dropped)
    ensures Replay(kept, base) == Replay(kept + dropped, base) <==> Harmless(dropped, kept, base)
  {
    hide Replay, NoEffect;
    var k, all := Replay(kept, base), Replay(kept + dropped, base);
    forall t
      ensures NoEffect(dropped, kept, base, t)
              <==> Get(all.schemas, t) == Get(k.schemas, t) && Get(all.manifests, t) == Get(k.manifests, t)
    {
      NoEffectExactly(dropped, kept, base, t);
    }
    NoEffectExactly(dropped, kept, base, "");
    OrderedSplit(kept, dropped);
    if Harmless(dropped, kept, base) {
      SameMaps(all.schemas, k.schemas);
      SameMaps(all.manifests, k.manifests);
    }
  }

  /** Without a snapshot that reaches the last of them, losing records always loses something. */
  lemma LossWithoutSnapshot(kept: seq<Record>, dropped: seq<Record>, base: Image)
    requires Ordered(kept + dropped) && dropped != [] && base.seqNo < dropped[|dropped| - 1].seqNo
    ensures Replay(kept, base) != Replay(kept + dropped, base)
  {
    LossExactly(kept, dropped, base);
    OrderedSplit(kept, dropped);
    MaxSeqIsLast(dropped);
  }

  // ----- the store -----

  datatype PersistMode = Durable | MemoryOnly

  /** How far a compaction got: a failure, or a crash, can fall before the snapshot is renamed into
      place, between that and the removal of the log, or nowhere. */
  datatype CompactOutcome = SaveFailed | TruncateFailed | Done

  /** The bytes of the records' frames. */
  function FrameBytes(records: seq<Record>, size: Record -> nat): (n: nat) {
    if records == [] then 0 else
      FrameBytes(records[..|records| - 1], size) + MetaWal.FRAME_HEADER_LEN + size(records[|records| - 1])
  }

  lemma FrameBytesAppend(records: seq<Record>, r: Record, size: Record -> nat)
    ensures FrameBytes(records + [r], size) == FrameBytes(records, size) + MetaWal.FRAME_HEADER_LEN + size(r)
  {
    assert (records + [r])[..|records|] == records;
  }

  class MetaStore {
    /** The size of an encoded record. */
    const size: Record -> nat
    var image: Image
    var mode: PersistMode
    var log: seq<Record>
    var logBytes: nat
    var pending: seq<Record>
    var snapshot: Option<Image>
    /** Bytes of a torn record the last restart found at the end of the log. */
    ghost var torn: nat

    function Base(): (i: Image)
      reads this
    {
      if snapshot.Some? then snapshot.value else BLANK
    }

    /** What holds of every store, also after a failed recovery: the pending records are in order, the
        live image has them already, and the log is as long as its frames. */
    ghost predicate Alive()
      reads this
    {
      && logBytes == FrameBytes(log, size) + torn
      && (mode == Durable ==> pending == [])
      && Ordered(pending) && Replay(pending, image) == image
    }

    /** Snapshot, log and pending records together account for the live image, and the records are in
        the order of their numbers. */
    ghost predicate Valid()
      reads this
    {
      Alive() && Replay(log + pending, Base()) == image && Ordered(log + pending)
    }

    /** `rec` went to the log, with a compaction if that was due, or, in the degraded mode or on a failed
        write, to the pending list. */
    twostate predicate Stored(rec: Record, appends: bool, c: CompactOutcome)
      reads this
    {
      if old(mode) == MemoryOnly || !appends then
        && mode == MemoryOnly && log == old(log) && logBytes == old(logBytes) && snapshot == old(snapshot)
        && pending == old(pending) + [rec]
      else
        && mode == Durable && pending == []
        && var due := old(|log|) + 1 >= 64 || old(logBytes) + 12 + size(rec) >= 512 * 1024;
           && snapshot == (if due && c != SaveFailed then Some(image) else old(snapshot))
           && log == (if due && c == Done then [] else old(log) + [rec])
           && logBytes == if due && c == Done then 0 else old(logBytes) + 12 + size(rec)
    }

    /** An operation that is logged as `op` reported success. */
    twostate predicate Recorded(op: Op, appends: bool, c: CompactOutcome)
      reads this
    {
      var rec := Record(old(image.seqNo) + 1, op);
      image == Apply(rec, old(image)) && Stored(rec, appends, c)
    }

    constructor (size: Record -> nat)
      ensures Valid() && image == BLANK && mode == Durable && log == [] && snapshot.None? && pending == []
      ensures this.size == size && logBytes == 0
      ensures image.schemas == map[] && image.manifests == map[] && image.seqNo == 0
    {
      this.size, torn := size, 0;
      image, mode, log, logBytes, pending, snapshot := BLANK, Durable, [], 0, [], None;
    }

    /** What a restart finds: the snapshot with the log replayed over it. */
    constructor Open(snapshot: Option<Image>, log: seq<Record>, torn: nat, mode: PersistMode, size: Record -> nat)
      ensures image == Replay(log, if snapshot.Some? then snapshot.value else BLANK)
      ensures this.snapshot == snapshot && this.log == log && this.mode == mode && pending == []
      ensures Alive() && (Valid() <==> Ordered(log))
      ensures this.size == size && logBytes == FrameBytes(log, size) + torn
    {
      this.snapshot, this.log, this.mode, pending, this.size, this.torn := snapshot, log, mode, [], size, torn;
      logBytes := FrameBytes(log, size) + torn;
      var i := if snapshot.Some? then snapshot.value else BLANK;
      for k := 0 to |log|
        invariant i == Replay(log[..k], if snapshot.Some? then snapshot.value else BLANK)
      {
        assert log[..k + 1][..k] == log[..k];
        i := Apply(log[k], i);
      }
      image := i;
      new;
      assert log[..|log|] == log && log + [] == log;
    }

    /** Creates or replaces a schema; refused, without effect, when invalid or over budget. */
    method PutSchema(s: Schema, admitted: bool, appends: bool, c: CompactOutcome) returns (r: Result<()>)
      requires Alive()
      modifies this
      ensures Alive() && (old(Valid()) ==> Valid()) && (r.Ok? <==> admitted)
      ensures r.Ok? ==> Get(image.schemas, s.table) == Some(s)
                        && Get(image.manifests, s.table) == OnManifest(EnsureManifest, Get(old(image).manifests, s.table))
                        && OthersKept(old(image), image, s.table)
      ensures r.Ok? ==> Recorded(PutSchemaOp(Some(s)), appends, c)
      ensures r.Ok? && mode == Durable && c == Done ==> |log| < 64 && logBytes < 512 * 1024
      ensures r.Err? ==> unchanged(this)
    {
      hide Replay, Ordered, FrameBytes;
      if !admitted {
        return Err;
      }
      var rec := Record(image.seqNo + 1, PutSchemaOp(Some(s)));
      image := Image(image.schemas[s.table := s], OrDefault(image.manifests, s.table), image.seqNo + 1);
      AppendRecord(rec, appends, c, old(image), old(Valid()));
      return Ok(());
    }

    /** Creates a table; refused when the name is taken. */
    method CreateSchema(s: Schema, admitted: bool, appends: bool, c: CompactOutcome) returns (r: Result<()>)
      requires Alive()
      modifies this
      ensures Alive() && (old(Valid()) ==> Valid()) && (r.Ok? <==> admitted && s.table !in old(image).schemas)
      ensures r.Ok? ==> Get(image.schemas, s.table) == Some(s)
                        && Get(image.manifests, s.table) == OnManifest(EnsureManifest, Get(old(image).manifests, s.table))
                        && OthersKept(old(image), image, s.table)
      ensures r.Ok? ==> Recorded(PutSchemaOp(Some(s)), appends, c)
      ensures r.Ok? && mode == Durable && c == Done ==> |log| < 64 && logBytes < 512 * 1024
      ensures r.Err? ==> unchanged(this)
    {
      if s.table in image.schemas {
        return Err;
      }
      r := PutSchema(s, admitted, appends, c);
    }

    method SetManifest(table: Name, files: Files, admitted: bool, appends: bool, c: CompactOutcome)
      returns (r: Result<()>)
      requires Alive()
      modifies this
      ensures Alive() && (old(Valid()) ==> Valid()) && (r.Ok? <==> admitted && table in old(image).schemas)
      ensures r.Ok? ==> Get(image.manifests, table) == Some(files) && image.schemas == old(image).schemas
                        && OthersKept(old(image), image, table)
      ensures r.Ok? ==> Recorded(SetManifestOp(table, files), appends, c)
      ensures r.Ok? && mode == Durable && c == Done ==> |log| < 64 && logBytes < 512 * 1024
      ensures r.Err? ==> unchanged(this)
    {
      hide Replay, Ordered, FrameBytes;
      if table !in image.schemas || !admitted {
        return Err;
      }
      var rec := Record(image.seqNo + 1, SetManifestOp(table, files));
      image := Image(image.schemas, image.manifests[table := files], image.seqNo + 1);
      AppendRecord(rec, appends, c, old(image), old(Valid()));
      return Ok(());
    }

    method DropTable(table: Name, appends: bool, c: CompactOutcome) returns (r: Result<()>)
      requires Alive()
      modifies this
      ensures Alive() && (old(Valid()) ==> Valid()) && (r.Ok? <==> table in old(image).schemas)
      ensures r.Ok? ==> table !in image.schemas && table !in image.manifests && OthersKept(old(image), image, table)
      ensures r.Ok? ==> Recorded(DropTableOp(table), appends, c)
      ensures r.Ok? && mode == Durable && c == Done ==> |log| < 64 && logBytes < 512 * 1024
      ensures r.Err? ==> unchanged(this)
    {
      hide Replay, Ordered, FrameBytes;
      if table !in image.schemas {
        return Err;
      }
      var rec := Record(image.seqNo + 1, DropTableOp(table));
      image := Image(image.schemas - {table}, image.manifests - {table}, image.seqNo + 1);
      AppendRecord(rec, appends, c, old(image), old(Valid()));
      return Ok(());
    }

    /** Logs the record, or keeps it in memory when the log cannot be written. */
    method AppendRecord(rec: Record, appends: bool, c: CompactOutcome, ghost before: Image, ghost accounted: bool)
      requires logBytes == FrameBytes(log, size) + torn
      requires (mode == Durable ==> pending == []) && Ordered(pending) && Replay(pending, before) == before
      requires accounted ==> Replay(log + pending, Base()) == before && Ordered(log + pending)
      requires rec.seqNo == before.seqNo + 1 && image == Apply(rec, before)
      modifies this
      ensures Alive() && image == old(image) && Stored(rec, appends, c)
      ensures accounted ==> Valid()
      ensures mode == Durable && c == Done ==> |log| < 64 && logBytes < 512 * 1024
    {
      hide Replay, Apply, Ordered, MaxSeq, FrameBytes;
      PendingMore(pending, before, rec);
      if accounted {
        LoggedMore(log + pending, Base(), rec);
      }
      assert log + pending + [rec] == log + (pending + [rec]);
      if mode == MemoryOnly {
        pending := pending + [rec];
      } else if appends {
        assert log + pending == log && log + [rec] + [] == log + [rec];
        NothingPending(image);
        FrameBytesAppend(log, rec, size);
        log, logBytes := log + [rec], logBytes + MetaWal.FRAME_HEADER_LEN + size(rec);
        if MetaWal.NeedsCompaction(|log|, logBytes) {
          Compact(c);
        }
      } else {
        mode, pending := MemoryOnly, pending + [rec];
      }
    }

    /** Snapshots the live image and then drops the log. Wherever it stops, a store that was accounted for
        still is; and once it completes the store is accounted for whatever was lost before. */
    method Compact(c: CompactOutcome)
      requires Alive()
      modifies this
      ensures Alive() && (old(Valid()) || c == Done ==> Valid())
      ensures image == old(image) && pending == old(pending) && mode == old(mode)
      ensures snapshot == if c == SaveFailed then old(snapshot) else Some(image)
      ensures log == (if c == Done then [] else old(log)) && logBytes == if c == Done then 0 else old(logBytes)
    {
      hide Replay, Ordered, MaxSeq;
      if c == SaveFailed {
        return;
      }
      if Valid() {
        ReplayTwice(log + pending, Base());
      }
      snapshot := Some(image);
      if c == TruncateFailed {
        return;
      }
      log, logBytes, torn := [], 0, 0;
      assert log + pending == pending;
    }

    /** Writes the pending records out. They are taken off the list first, so a write that fails loses
        the rest: the store is still accounted for exactly when those could be lost. */
    method TryRecoverDurable(failAt: nat, headerWritten: bool) returns (r: Result<()>)
      requires Alive()
      modifies this
      ensures Alive() && image == old(image) && snapshot == old(snapshot) && torn == old(torn)
      ensures r.Ok? <==> old(mode) == Durable || (failAt >= |old(pending)| && headerWritten)
      ensures old(mode) == Durable ==> unchanged(this)
      ensures old(mode) == MemoryOnly && failAt >= |old(pending)| ==>
                && mode == Durable && pending == [] && log == old(log) + old(pending)
                && (old(Valid()) ==> Valid())
      ensures old(mode) == MemoryOnly && failAt < |old(pending)| ==>
                && mode == MemoryOnly && pending == [] && log == old(log) + old(pending)[..failAt]
                && (old(Valid()) ==> Ordered(log) && (Valid() <==> Harmless(old(pending)[failAt..], log, Base())))
    {
      hide Replay, Harmless, Ordered;
      if mode != MemoryOnly {
        return Ok(());
      }
      var drained := pending;
      pending := [];
      NothingPending(image);
      for k := 0 to |drained|
        invariant log == old(log) + drained[..k] && k <= failAt && pending == []
        invariant image == old(image) && mode == MemoryOnly && snapshot == old(snapshot)
        invariant torn == old(torn) && logBytes == FrameBytes(log, size) + torn
      {
        if k == failAt {
          ghost var dropped := drained[failAt..];
          assert log + pending == log && log + dropped == old(log) + drained;
          if old(Valid()) {
            LossExactly(log, dropped, Base());
            OrderedSplit(log, dropped);
          }
          return Err;
        }
        FrameBytesAppend(log, drained[k], size);
        log, logBytes := log + [drained[k]], logBytes + MetaWal.FRAME_HEADER_LEN + size(drained[k]);
      }
      assert drained[..|drained|] == drained && log + [] == log;
      mode := Durable;
      return if headerWritten then Ok(()) else Err;
    }
  }

  lemma NothingPending(i: Image)
    ensures Replay([], i) == i && Ordered([])
  {
  }

  /** One more pending record, applied to an image that has the others. */
  lemma PendingMore(pending: seq<Record>, before: Image, rec: Record)
    requires Ordered(pending) && Replay(pending, before) == before && rec.seqNo == before.seqNo + 1
    ensures Ordered(pending + [rec]) && Replay(pending + [rec], Apply(rec, before)) == Apply(rec, before)
  {
    hide Replay, Apply, Ordered, MaxSeq;
    LoggedMore(pending, before, rec);
    ReplayTwice(pending + [rec], before);
  }

  /** One more record behind a log that led to the image it was applied to. */
  lemma LoggedMore(records: seq<Record>, base: Image, rec: Record)
    requires Ordered(records) && rec.seqNo == Replay(records, base).seqNo + 1
    ensures Ordered(records + [rec]) && Replay(records + [rec], base) == Apply(rec, Replay(records, base))
  {
    hide Replay, Apply, Ordered, MaxSeq;
    ReplayAppend(records, rec, base);
    ReplayEffect(records, base, "");
    OrderedAppend(records, rec);
  }

  /** Nothing but the named table changed. */
  ghost predicate OthersKept(a: Image, b: Image, table: Name) {
    forall t :: t != table ==> Get(b.schemas, t) == Get(a.schemas, t) && Get(b.manifests, t) == Get(a.manifests, t)
  }

  /** A restart at any moment of durable operation, even between the snapshot and the removal of the
      log, finds the live image. In the degraded mode it does exactly when the pending records could be
      lost. */
  method CrashRecovers(store: MetaStore, duringCompaction: bool, torn: nat) returns (reopened: MetaStore)
    requires store.Valid()
    modifies store
    ensures reopened.Valid() && store.image == old(store.image)
    ensures store.mode == Durable ==> reopened.image == store.image
    ensures reopened.image == store.image <==> Harmless(store.pending, store.log, store.Base())
  {
    hide Replay, Ordered, Harmless;
    if duringCompaction {
      store.Compact(TruncateFailed);
    }
    LossExactly(store.log, store.pending, store.Base());
    OrderedSplit(store.log, store.pending);
    assert store.log + [] == store.log;
    reopened := new MetaStore.Open(store.snapshot, store.log, torn, store.mode, store.size);
  }

  /** A recovery, then a restart. If every pending record was written the restart finds the live image; if
      a write failed it finds it exactly when the records from that one on could be lost, which needs a
      snapshot taken after all of them. */
  method RecoverThenRestart(store: MetaStore, failAt: nat, headerWritten: bool, torn: nat) returns (reopened: MetaStore)
    requires store.Valid()
    modifies store
    ensures reopened.Valid() && store.image == old(store.image)
    ensures old(store.mode) == Durable || failAt >= old(|store.pending|) ==> reopened.image == store.image
    ensures old(store.mode) == MemoryOnly && failAt < old(|store.pending|) ==>
              && (reopened.image == store.image <==>
                  Harmless(old(store.pending)[failAt..], old(store.log) + old(store.pending)[..failAt], old(store.Base())))
              && (reopened.image == store.image ==>
                  old(store.pending)[old(|store.pending|) - 1].seqNo <= old(store.Base()).seqNo)
  {
    hide Replay, Harmless, Ordered;
    if store.mode == MemoryOnly && failAt < |store.pending| {
      LosesWithoutSnapshot(store, failAt);
    }
    var r := store.TryRecoverDurable(failAt, headerWritten);
    assert store.log + [] == store.log;
    reopened := new MetaStore.Open(store.snapshot, store.log, torn, store.mode, store.size);
  }

  lemma LosesWithoutSnapshot(store: MetaStore, failAt: nat)
    requires store.Valid() && failAt < |store.pending|
    ensures Replay(store.log + store.pending[..failAt], store.Base()) == store.image ==>
              store.pending[|store.pending| - 1].seqNo <= store.Base().seqNo
  {
    var kept, dropped := store.log + store.pending[..failAt], store.pending[failAt..];
    assert kept + dropped == store.log + store.pending;
    if store.Base().seqNo < dropped[|dropped| - 1].seqNo {
      LossWithoutSnapshot(kept, dropped, store.Base());
    }
  }

  /** The way back: after a recovery, whatever it lost, a compaction that completes makes a restart find
      the live image again. */
  method HealedByCompaction(store: MetaStore, failAt: nat, headerWritten: bool, torn: nat) returns (reopened: MetaStore)
    requires store.Alive()
    modifies store
    ensures store.Valid() && store.image == old(store.image)
    ensures reopened.Valid() && reopened.image == store.image
  {
    hide Replay, Ordered, Harmless;
    var r := store.TryRecoverDurable(failAt, headerWritten);
    store.Compact(Done);
    assert store.log + store.pending == [];
    NothingPending(store.image);
    reopened := new MetaStore.Open(store.snapshot, store.log, torn, store.mode, store.size);
  }

  /** The shortest such run. The log cannot be written when a table is created, nor when the store tries
      to recover: the create was acknowledged and shows in the live store, and a restart does not find it. */
  method LostCreate(s: Schema, size: Record -> nat, c: CompactOutcome) returns (created: Result<()>, store: MetaStore, reopened: MetaStore)
    ensures created.Ok? && Get(store.image.schemas, s.table) == Some(s) && reopened.image == BLANK
  {
    store := new MetaStore(size);
    created := store.CreateSchema(s, true, false, c);
    var recovered := store.TryRecoverDurable(0, true);
    assert store.log == [];
    reopened := new MetaStore.Open(store.snapshot, store.log, 0, store.mode, store.size);
  }
}
