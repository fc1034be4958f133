/** Memory accounting (src/storage/src/memory.rs, src/storage/src/memtable/table.rs and the merge guard of
src/storage/src/compaction/job.rs): one counter shared by all memtables and merges. The ledger is who owes
what; the counter must always be its total. */
module Memory {
  import opened Rows

  /** The total of a ledger. */
  ghost function Total(ledger: map<nat, nat>): (n: nat)
    decreases |ledger|
  {
    if ledger == map[] then 0 else
      var k: nat :| k in ledger;
      ledger[k] + Total(ledger - {k})
  }

  /** Any entry can be counted first. */
  lemma {:induction false} TotalTake(ledger: map<nat, nat>, k: nat)
    requires k in ledger
    ensures Total(ledger) == ledger[k] + Total(ledger - {k})
    decreases |ledger|
  {
    assert ledger != map[];
    var first: nat :| first in ledger && Total(ledger) == ledger[first] + Total(ledger - {first});
    if first != k {
      TotalTake(ledger - {first}, k);
      TotalTake(ledger - {k}, first);
      assert ledger - {first} - {k} == ledger - {k} - {first};
    }
  }

  lemma TotalSet(ledger: map<nat, nat>, k: nat, v: nat)
    requires k in ledger
    ensures Total(ledger[k := v]) == Total(ledger) - ledger[k] + v
  {
    TotalTake(ledger, k);
    TotalTake(ledger[k := v], k);
    assert ledger[k := v] - {k} == ledger - {k};
  }

  lemma TotalAdd(ledger: map<nat, nat>, k: nat, v: nat)
    requires k !in ledger
    ensures Total(ledger[k := v]) == Total(ledger) + v
  {
    TotalTake(ledger[k := v], k);
    assert ledger[k := v] - {k} == ledger;
  }

  lemma TotalAtLeast(ledger: map<nat, nat>, k: nat)
    requires k in ledger
    ensures ledger[k] <= Total(ledger)
  {
    TotalTake(ledger, k);
  }

  function SaturatingSub(a: nat, b: nat): (r: nat) {
    if b <= a then a - b else 0
  }

  class MemoryController {
    const limit: nat
    var used: nat
    ghost var ledger: map<nat, nat>

    /** The counter is what live memtables and open merges owe, to the byte. */
    ghost predicate Valid()
      reads this
    {
      used == Total(ledger)
    }

    constructor (limit: nat)
      ensures Valid() && used == 0 && ledger == map[] && this.limit == limit
    {
      this.limit, used, ledger := limit, 0, map[];
    }

    ghost method Register(owner: nat)
      requires Valid() && owner !in ledger
      modifies this`ledger
      ensures Valid() && ledger == old(ledger)[owner := 0]
    {
      TotalAdd(ledger, owner, 0);
      ledger := ledger[owner := 0];
    }

    method ReserveUnchecked(bytes: nat, ghost owner: nat)
      requires Valid() && owner in ledger
      modifies this
      ensures Valid() && ledger == old(ledger)[owner := old(ledger)[owner] + bytes] && used == old(used) + bytes
    {
      TotalSet(ledger, owner, ledger[owner] + bytes);
      used := used + bytes;
      ledger := ledger[owner := ledger[owner] + bytes];
    }

    /** A checked reservation never takes the counter past the limit; refused, it changes nothing. */
    method TryReserve(bytes: nat, ghost owner: nat) returns (ok: bool)
      requires Valid() && owner in ledger
      modifies this
      ensures Valid() && (ok <==> bytes == 0 || old(used) + bytes <= limit)
      ensures ok ==> ledger == old(ledger)[owner := old(ledger)[owner] + bytes] && used == old(used) + bytes
      ensures ok && bytes > 0 ==> used <= limit
      ensures !ok ==> ledger == old(ledger) && used == old(used)
    {
      if bytes == 0 {
        assert ledger == ledger[owner := ledger[owner] + 0];
        return true;
      }
      if used + bytes > limit {
        return false;
      }
      ReserveUnchecked(bytes, owner);
      return true;
    }

    /** The subtraction saturates, but what is released is always owed, so it never clamps. */
    method Release(bytes: nat, ghost owner: nat)
      requires Valid() && owner in ledger && bytes <= ledger[owner]
      modifies this
      ensures Valid() && ledger == old(ledger)[owner := old(ledger)[owner] - bytes] && used == old(used) - bytes
    {
      TotalSet(ledger, owner, ledger[owner] - bytes);
      TotalAtLeast(ledger, owner);
      used := SaturatingSub(used, bytes);
      ledger := ledger[owner := ledger[owner] - bytes];
    }
  }

  class MemTable {
    const memory: MemoryController
    const id: nat
    var frozenRam: nat
    var ram: nat
    var charged: nat

    ghost predicate Valid()
      reads this, memory
    {
      memory.Valid() && id in memory.ledger && memory.ledger[id] == charged
    }

    /** Nobody else's account is touched. */
    twostate predicate OthersKept()
      reads memory
    {
      forall k :: k != id ==> (k in memory.ledger <==> k in old(memory.ledger))
                              && (k in memory.ledger ==> memory.ledger[k] == old(memory.ledger)[k])
    }

    constructor (memory: MemoryController, id: nat)
      requires memory.Valid() && id !in memory.ledger
      modifies memory
      ensures Valid() && charged == 0 && ram == 0 && frozenRam == 0 && this.memory == memory && this.id == id
      ensures memory.ledger == old(memory.ledger)[id := 0] && memory.used == old(memory.used)
    {
      this.memory, this.id, frozenRam, ram, charged := memory, id, 0, 0, 0;
      new;
      memory.Register(id);
    }

    /** Brings the charge in line with the footprint; only growth under a checked insert can fail. */
    method SyncChargedToRam(allowReserve: bool) returns (r: Result<()>)
      requires Valid()
      modifies this`charged, memory
      ensures Valid() && OthersKept()
      ensures r.Ok? ==> charged == ram
      ensures r.Err? <==> allowReserve && ram > old(charged) && old(memory.used) + (ram - old(charged)) > memory.limit
      ensures r.Err? ==> charged == old(charged) && memory.used == old(memory.used)
      ensures allowReserve && charged > old(charged) ==> memory.used <= memory.limit
      ensures memory.used - charged == old(memory.used) - old(charged)
    {
      if ram > charged {
        var delta := ram - charged;
        if !allowReserve {
          memory.ReserveUnchecked(delta, id);
          charged := ram;
          return Ok(());
        }
        var ok := memory.TryReserve(delta, id);
        if !ok {
          return Err;
        }
        charged := ram;
      } else if ram < charged {
        memory.Release(charged - ram, id);
        charged := ram;
      }
      return Ok(());
    }

    /** An insert: the rows are buffered first and charged afterwards, so a refused insert leaves a
        footprint above the charge. */
    method Insert(rows: nat, newlyFrozen: nat, activeRam: nat) returns (r: Result<()>)
      requires Valid()
      modifies this, memory
      ensures Valid() && OthersKept()
      ensures rows == 0 ==> r.Ok? && unchanged(this)
      ensures rows > 0 ==> frozenRam == old(frozenRam) + newlyFrozen && ram == frozenRam + activeRam
      ensures r.Err? <==> rows > 0 && ram > old(charged) && old(memory.used) + (ram - old(charged)) > memory.limit
      ensures rows > 0 && r.Ok? ==> charged == ram
      ensures r.Err? ==> charged == old(charged) && memory.used == old(memory.used)
      ensures memory.used - charged == old(memory.used) - old(charged)
      ensures charged > old(charged) ==> memory.used <= memory.limit
    {
      if rows == 0 {
        return Ok(());
      }
      frozenRam := frozenRam + newlyFrozen;
      ram := frozenRam + activeRam;
      r := SyncChargedToRam(true);
    }

    /** Sealing always succeeds and settles the account, over the limit if need be. */
    method Seal(tailRam: nat)
      requires Valid()
      modifies this, memory
      ensures Valid() && OthersKept() && charged == ram == frozenRam == old(frozenRam) + tailRam
    {
      ram := frozenRam;
      if tailRam > 0 {
        frozenRam := frozenRam + tailRam;
        ram := ram + tailRam;
      }
      var r := SyncChargedToRam(false);
    }

    method ReleaseMemory()
      requires Valid()
      modifies this, memory
      ensures Valid() && OthersKept() && charged == 0 && ram == 0 && frozenRam == 0
      ensures memory.used == old(memory.used) - old(charged)
    {
      var owed := charged;
      charged := 0;
      memory.Release(owed, id);
      ram, frozenRam := 0, 0;
    }

    /** Dropping the memtable returns whatever is still charged. */
    method Drop()
      requires Valid()
      modifies memory
      ensures memory.Valid() && OthersKept() && id in memory.ledger && memory.ledger[id] == 0
      ensures memory.used == old(memory.used) - charged
    {
      memory.Release(charged, id);
    }
  }

  /** One insert: its rows, the bytes of the chunks it froze, and of the active buffer after it. */
  datatype Inserted = Inserted(rows: nat, newlyFrozen: nat, activeRam: nat)

  function FrozenBy(inserts: seq<Inserted>): (n: nat) {
    if inserts == [] then 0 else
      var last := inserts[|inserts| - 1];
      FrozenBy(inserts[..|inserts| - 1]) + if last.rows == 0 then 0 else last.newlyFrozen
  }

  /** The active buffer as the last insert of some rows left it. */
  function LastActive(inserts: seq<Inserted>): (n: nat) {
    if inserts == [] then 0 else
      var last := inserts[|inserts| - 1];
      if last.rows == 0 then LastActive(inserts[..|inserts| - 1]) else last.activeRam
  }

  /** Inserts into a new memtable. Its footprint is all they froze and the active buffer, refused ones included,
      and it is charged for that whenever the last insert of some rows was accepted. */
  method InsertAll(m: MemTable, inserts: seq<Inserted>) returns (accepted: bool)
    requires m.Valid() && m.ram == 0 && m.frozenRam == 0 && m.charged == 0
    modifies m, m.memory
    ensures m.Valid() && m.OthersKept()
    ensures m.frozenRam == FrozenBy(inserts) && m.ram == FrozenBy(inserts) + LastActive(inserts)
    ensures accepted ==> m.charged == FrozenBy(inserts) + LastActive(inserts)
    ensures !accepted ==> inserts != [] && m.charged < m.ram
  {
    accepted := true;
    for i := 0 to |inserts|
      invariant m.Valid() && m.OthersKept()
      invariant m.frozenRam == FrozenBy(inserts[..i]) && m.ram == FrozenBy(inserts[..i]) + LastActive(inserts[..i])
      invariant if accepted then m.charged == m.ram else i > 0 && m.charged < m.ram
    {
      var x := inserts[i];
      assert inserts[..i + 1][..i] == inserts[..i];
      var r := m.Insert(x.rows, x.newlyFrozen, x.activeRam);
      if x.rows > 0 {
        accepted := r.Ok?;
      }
    }
    assert inserts[..|inserts|] == inserts;
  }

  /** A merge's charge on the counter, for as long as the merge runs. */
  class MergeMemGuard {
    const memory: MemoryController
    const bytes: nat
    ghost const owner: nat

    ghost predicate Valid()
      reads memory
    {
      memory.Valid() && owner in memory.ledger && memory.ledger[owner] == bytes
    }

    constructor (memory: MemoryController, bytes: nat, ghost owner: nat)
      requires memory.Valid() && owner !in memory.ledger
      modifies memory
      ensures Valid() && this.memory == memory && this.bytes == bytes && this.owner == owner
      ensures memory.ledger == old(memory.ledger)[owner := bytes] && memory.used == old(memory.used) + bytes
    {
      this.memory, this.bytes, this.owner := memory, bytes, owner;
      new;
      memory.Register(owner);
      memory.ReserveUnchecked(bytes, owner);
    }

    /** On every exit of the merge, whatever others charged or released meanwhile. */
    method Drop()
      requires Valid()
      modifies memory
      ensures memory.Valid() && memory.ledger == old(memory.ledger)[owner := 0] && memory.used == old(memory.used) - bytes
    {
      memory.Release(bytes, owner);
    }
  }

  /** A merge running beside a memtable that takes inserts: each account comes out as if alone. */
  method MergeBesideInsert(m: MemTable, bytes: nat, ghost owner: nat, rows: nat, newlyFrozen: nat, activeRam: nat)
    returns (r: Result<()>)
    requires m.Valid() && owner !in m.memory.ledger
    modifies m, m.memory
    ensures m.Valid() && m.memory.ledger == old(m.memory.ledger)[owner := 0][m.id := m.charged]
    ensures m.memory.used - m.charged == old(m.memory.used) - old(m.charged)
    ensures rows > 0 ==> m.frozenRam == old(m.frozenRam) + newlyFrozen && m.ram == m.frozenRam + activeRam
    ensures r.Ok? && rows > 0 ==> m.charged == m.ram
  {
    var guard := new MergeMemGuard(m.memory, bytes, owner);
    r := m.Insert(rows, newlyFrozen, activeRam);
    guard.Drop();
  }
}
