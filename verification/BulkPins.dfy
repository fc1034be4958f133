/** Which SST files exist (src/storage/src/wal/bulk_load.rs and the unlinking at the end of a compaction
pass): a bulk load pins its file with a hard link and a log entry, compaction leaves pinned inputs on disk,
and collecting the entry removes the link and the file no longer indexed. */
module BulkPins {

  type Path = nat

  /** A durable bulk-load entry; the link's name is made of both. */
  datatype Event = Event(lsn: nat, original: Path)

  // ----- the event log -----

  predicate SortedByLsn(events: seq<Event>) {
    forall i, j :: 0 <= i < j < |events| ==> events[i].lsn <= events[j].lsn
  }

  function Newer(events: seq<Event>, lsn: nat): (r: seq<Event>)
    ensures forall e :: e in r <==> e in events && e.lsn > lsn
    ensures SortedByLsn(events) ==> SortedByLsn(r)
  {
    if events == [] then [] else
      var n := |events| - 1;
      var init := Newer(events[..n], lsn);
      assert events == events[..n] + [events[n]];
      if events[n].lsn > lsn then init + [events[n]] else init
  }

  function Expired(events: seq<Event>, lsn: nat): (r: seq<Event>)
    ensures forall e :: e in r <==> e in events && e.lsn <= lsn
  {
    if events == [] then [] else
      var n := |events| - 1;
      var init := Expired(events[..n], lsn);
      assert events == events[..n] + [events[n]];
      if events[n].lsn <= lsn then init + [events[n]] else init
  }

  /** Appends and re-sorts. */
  method AppendSorted(events: seq<Event>, e: Event) returns (r: seq<Event>)
    requires SortedByLsn(events)
    ensures SortedByLsn(r) && forall x :: x in r <==> x in events || x == e
  {
    hide SortedByLsn;
    var pos := |events|;
    while pos > 0 && events[pos - 1].lsn > e.lsn
      invariant 0 <= pos <= |events| && forall k :: pos <= k < |events| ==> events[k].lsn > e.lsn
    {
      pos := pos - 1;
    }
    r := events[..pos] + [e] + events[pos..];
    InsertedSorted(events, pos, e);
    InsertedMembers(events, pos, e);
  }

  lemma InsertedSorted(events: seq<Event>, pos: nat, e: Event)
    requires pos <= |events| && SortedByLsn(events) && (pos > 0 ==> events[pos - 1].lsn <= e.lsn)
    requires forall k :: pos <= k < |events| ==> events[k].lsn > e.lsn
    ensures SortedByLsn(events[..pos] + [e] + events[pos..])
  {
    var r := events[..pos] + [e] + events[pos..];
    forall i | 0 <= i < |r|
      ensures r[i] == if i < pos then events[i] else if i == pos then e else events[i - 1]
    {
    }
  }

  lemma InsertedMembers(events: seq<Event>, pos: nat, e: Event)
    requires pos <= |events|
    ensures forall x :: x in events[..pos] + [e] + events[pos..] <==> x in events || x == e
  {
    assert events == events[..pos] + events[pos..];
  }

  predicate Pins(events: seq<Event>, p: Path) {
    exists e :: e in events && e.original == p
  }

  /** No file is loaded twice. */
  predicate UniqueOriginals(events: seq<Event>) {
    forall e, f :: e in events && f in events && e.original == f.original ==> e == f
  }

  // ----- the files of a table -----

  class TableFiles {
    var indexed: set<Path>
    var disk: set<Path>
    var links: set<Event>
    var events: seq<Event>
    /** Names are never used again. */
    ghost var used: set<Path>

    ghost predicate Valid()
      reads this
    {
      && indexed <= disk <= used
      && (forall e :: e in events ==> e in links && e.original in disk)
      && (forall l :: l in links ==> l in events)
      && (forall p :: p in disk ==> p in indexed || Pins(events, p))
      && UniqueOriginals(events) && SortedByLsn(events)
    }

    constructor ()
      ensures Valid() && indexed == {} && events == []
    {
      indexed, disk, links, events, used := {}, {}, {}, [], {};
    }

    /** A flush adds a file. */
    method AddFlushed(p: Path)
      requires Valid() && p !in used
      modifies this
      ensures Valid() && indexed == old(indexed) + {p} && events == old(events)
    {
      indexed, disk, used := indexed + {p}, disk + {p}, used + {p};
    }

    /** A bulk load adds a file, its link and its entry. */
    method CommitBulkLoad(p: Path, lsn: nat)
      requires Valid() && p !in used
      modifies this
      ensures Valid() && indexed == old(indexed) + {p} && Event(lsn, p) in events
      ensures forall e :: e in old(events) ==> e in events
    {
      var e := Event(lsn, p);
      disk, indexed, used := disk + {p}, indexed + {p}, used + {p};
      links := links + {e};
      ghost var before := events;
      events := AppendSorted(events, e);
      forall q | q in disk
        ensures q in indexed || Pins(events, q)
      {
        if q !in indexed {
          assert Pins(before, q);
          var f :| f in before && f.original == q;
          assert f in events;
        }
      }
    }

    /** The files to catch up on after `lsn`, oldest first. */
    function Since(lsn: nat): (r: seq<Event>)
      requires Valid()
      reads this
      ensures SortedByLsn(r) && forall e :: e in r <==> e in events && e.lsn > lsn
    {
      Newer(events, lsn)
    }

    /** Compaction drops its inputs from the index and unlinks those that no entry pins. */
    method Compact(inputs: seq<Path>, output: Path)
      requires Valid() && output !in used && forall i :: 0 <= i < |inputs| ==> inputs[i] in indexed
      modifies this
      ensures Valid() && events == old(events) && links == old(links)
      ensures indexed == old(indexed) - (set p | p in inputs) + {output}
      ensures disk == old(disk) - (set p | p in inputs && !Pins(events, p)) + {output}
    {
      indexed := indexed - (set p | p in inputs) + {output};
      disk, used := disk + {output}, used + {output};
      for i := 0 to |inputs|
        invariant disk == old(disk) + {output} - (set p | p in inputs[..i] && !Pins(events, p))
        invariant events == old(events) && links == old(links) && used == old(used) + {output}
        invariant indexed == old(indexed) - (set p | p in inputs) + {output}
      {
        assert inputs[..i + 1] == inputs[..i] + [inputs[i]];
        if !Pins(events, inputs[i]) {
          disk := disk - {inputs[i]};
        }
      }
      assert inputs[..|inputs|] == inputs;
    }

    /** Collects the entries up to an LSN: their links go, and so do their files unless still indexed. */
    method CollectUpto(lsn: nat)
      requires Valid()
      modifies this
      ensures Valid() && indexed == old(indexed)
      ensures forall e :: e in events <==> e in old(events) && e.lsn > lsn
      ensures forall p :: p in disk <==> p in old(disk) && (p in indexed || Pins(events, p))
    {
      var expired, live := Expired(events, lsn), Newer(events, lsn);
      links := RemoveLinks(links, expired);
      CollectedDisk(events, lsn, disk, indexed, disk - Dropped(expired, indexed));
      events := live;
      disk := RemoveFiles(disk, expired, indexed);
    }
  }

  function Dropped(expired: seq<Event>, indexed: set<Path>): (r: set<Path>) {
    set e | e in expired && e.original !in indexed :: e.original
  }

  method RemoveLinks(links: set<Event>, expired: seq<Event>) returns (r: set<Event>)
    ensures r == links - (set e | e in expired)
  {
    r := links;
    for i := 0 to |expired|
      invariant r == links - (set e | e in expired[..i])
    {
      assert expired[..i + 1] == expired[..i] + [expired[i]];
      r := r - {expired[i]};
    }
    assert expired[..|expired|] == expired;
  }

  method RemoveFiles(disk: set<Path>, expired: seq<Event>, indexed: set<Path>) returns (r: set<Path>)
    ensures r == disk - Dropped(expired, indexed)
  {
    r := disk;
    for i := 0 to |expired|
      invariant r == disk - Dropped(expired[..i], indexed)
    {
      assert expired[..i + 1] == expired[..i] + [expired[i]];
      assert Dropped(expired[..i + 1], indexed) ==
             Dropped(expired[..i], indexed) + if expired[i].original in indexed then {} else {expired[i].original};
      if expired[i].original !in indexed {
        r := r - {expired[i].original};
      }
    }
    assert expired[..|expired|] == expired;
  }

  /** After a collection, exactly the files still indexed or still pinned are left. */
  lemma CollectedDisk(events: seq<Event>, lsn: nat, before: set<Path>, indexed: set<Path>, after: set<Path>)
    requires UniqueOriginals(events) && indexed <= before
    requires forall e :: e in events ==> e.original in before
    requires forall p :: p in before ==> p in indexed || Pins(events, p)
    requires after == before - Dropped(Expired(events, lsn), indexed)
    ensures forall p :: p in after <==> p in before && (p in indexed || Pins(Newer(events, lsn), p))
    ensures indexed <= after && forall e :: e in Newer(events, lsn) ==> e.original in after
  {
    var expired, live := Expired(events, lsn), Newer(events, lsn);
    forall p | p in before && p !in indexed
      ensures p in after <==> Pins(live, p)
    {
      var e :| e in events && e.original == p;
      if e.lsn > lsn {
        assert e in live;
      } else {
        assert e in expired;
      }
    }
  }
}
