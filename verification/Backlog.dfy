/** The two-level backlog budget of the write-ahead log (src/storage/src/wal/backlog.rs): every enqueue
takes permits from its table's semaphore and then from the global one, and gives both back once the batch
is durable. A semaphore serves its waiters in order of arrival: the first one keeps what was at hand when it
came and waits for the rest, and returned permits go to the waiters before anyone else. An await is a
place where other tasks run, so asking the table and asking the global semaphore are separate steps. */
module Backlog {
  import opened Sst

  const MAX_PERMITS: nat := 0x1FFF_FFFF_FFFF_FFFF

  /** How many permits a batch takes: its bytes, clamped so that one batch always fits alone. */
  function Permits(limit: nat, bytes: nat): (n: nat)
    ensures n <= limit && n <= bytes && n <= U32_MAX
    ensures n == bytes || n == limit || n == U32_MAX
  {
    Min(Min(bytes, limit), U32_MAX)
  }

  function Capacity(limit: nat): (n: nat)
    ensures 1 <= n <= MAX_PERMITS
    ensures 1 <= limit <= MAX_PERMITS ==> n == limit
    ensures limit > 0 ==> n <= limit
    ensures limit == 0 ==> n == 1
    ensures limit > MAX_PERMITS ==> n == MAX_PERMITS
  {
    Min(if limit == 0 then 1 else limit, MAX_PERMITS)
  }

  /** The clamp never asks for more than the semaphore holds when it is full. */
  lemma AlwaysFits(limit: nat, bytes: nat)
    requires limit > 0
    ensures Permits(limit, bytes) <= Capacity(limit)
  {
  }

  datatype Request = Request(table: nat, bytes: nat)

  function GlobalSum(rs: seq<Request>, limit: nat): (n: nat) {
    if rs == [] then 0 else GlobalSum(rs[..|rs| - 1], limit) + Permits(limit, rs[|rs| - 1].bytes)
  }

  /** What a request takes from the semaphore of table `t`. */
  function Share(r: Request, t: nat, limit: nat): (n: nat) {
    if r.table == t then Permits(limit, r.bytes) else 0
  }

  function TableSum(rs: seq<Request>, t: nat, limit: nat): (n: nat) {
    if rs == [] then 0 else TableSum(rs[..|rs| - 1], t, limit) + Share(rs[|rs| - 1], t, limit)
  }

  function Without(rs: seq<Request>, i: nat): (r: seq<Request>)
    requires i < |rs|
  {
    rs[..i] + rs[i + 1..]
  }

  lemma SumAppend(rs: seq<Request>, r: Request, t: nat, limit: nat)
    ensures GlobalSum(rs + [r], limit) == GlobalSum(rs, limit) + Permits(limit, r.bytes)
    ensures TableSum(rs + [r], t, limit) == TableSum(rs, t, limit) + Share(r, t, limit)
  {
    assert (rs + [r])[..|rs|] == rs;
  }

  lemma WithoutLast(rs: seq<Request>, i: nat)
    requires i < |rs| - 1
    ensures Without(rs, i) == Without(rs[..|rs| - 1], i) + [rs[|rs| - 1]]
  {
    var n := |rs| - 1;
    assert rs[i + 1..] == rs[..n][i + 1..] + [rs[n]];
  }

  lemma {:induction false} SumWithout(rs: seq<Request>, i: nat, t: nat, limit: nat)
    requires i < |rs|
    ensures GlobalSum(Without(rs, i), limit) == GlobalSum(rs, limit) - Permits(limit, rs[i].bytes)
    ensures TableSum(Without(rs, i), t, limit) == TableSum(rs, t, limit) - Share(rs[i], t, limit)
  {
    hide Permits;
    var n := |rs| - 1;
    if i == n {
      assert Without(rs, i) == rs[..n];
    } else {
      SumWithout(rs[..n], i, t, limit);
      WithoutLast(rs, i);
      SumAppend(Without(rs[..n], i), rs[n], t, limit);
    }
  }

  lemma {:induction false} SumConcat(a: seq<Request>, b: seq<Request>, t: nat, limit: nat)
    ensures GlobalSum(a + b, limit) == GlobalSum(a, limit) + GlobalSum(b, limit)
    ensures TableSum(a + b, t, limit) == TableSum(a, t, limit) + TableSum(b, t, limit)
  {
    hide Permits, Share;
    if b == [] {
      assert a + b == a;
    } else {
      var init, last := b[..|b| - 1], b[|b| - 1];
      SumConcat(a, init, t, limit);
      assert (a + b)[..|a + b| - 1] == a + init;
    }
  }

  predicate AllOf(rs: seq<Request>, t: nat) {
    forall i :: 0 <= i < |rs| ==> rs[i].table == t
  }

  lemma {:induction false} OneTable(rs: seq<Request>, t: nat, u: nat, limit: nat)
    requires AllOf(rs, t)
    ensures TableSum(rs, u, limit) == if u == t then GlobalSum(rs, limit) else 0
  {
    hide Permits;
    if rs != [] {
      OneTable(rs[..|rs| - 1], t, u, limit);
    }
  }

  function ByteSum(rs: seq<Request>): (n: nat) {
    if rs == [] then 0 else ByteSum(rs[..|rs| - 1]) + rs[|rs| - 1].bytes
  }

  /** Every request fits the limit and one call. */
  predicate Within(rs: seq<Request>, limit: nat) {
    forall i :: 0 <= i < |rs| ==> rs[i].bytes <= limit && rs[i].bytes <= U32_MAX
  }

  lemma {:induction false} FittingSum(rs: seq<Request>, limit: nat)
    requires Within(rs, limit)
    ensures GlobalSum(rs, limit) == ByteSum(rs)
  {
    if rs != [] {
      FittingSum(rs[..|rs| - 1], limit);
    }
  }

  lemma PositiveSum(rs: seq<Request>, limit: nat)
    requires rs != [] && 0 < limit && forall i :: 0 <= i < |rs| ==> rs[i].bytes > 0
    ensures GlobalSum(rs, limit) > 0
  {
    assert Permits(limit, rs[|rs| - 1].bytes) > 0;
  }

  function OfTable(rs: seq<Request>, t: nat): (r: seq<Request>) {
    if rs == [] then [] else
      var init, last := OfTable(rs[..|rs| - 1], t), rs[|rs| - 1];
      if last.table == t then init + [last] else init
  }

  lemma {:induction false} OfTableSum(rs: seq<Request>, t: nat, limit: nat)
    ensures GlobalSum(OfTable(rs, t), limit) == TableSum(rs, t, limit)
  {
    hide Permits;
    if rs != [] {
      OfTableSum(rs[..|rs| - 1], t, limit);
      SumAppend(OfTable(rs[..|rs| - 1], t), rs[|rs| - 1], t, limit);
    }
  }

  // ----- one semaphore -----

  /** A waiter and how many of its permits it has not been given yet. */
  datatype Waiter = Waiter(request: Request, missing: nat)

  datatype Semaphore = Semaphore(available: nat, queue: seq<Waiter>)

  function Requests(queue: seq<Waiter>): (rs: seq<Request>)
    ensures |rs| == |queue| && forall i :: 0 <= i < |queue| ==> rs[i] == queue[i].request
  {
    seq(|queue|, i requires 0 <= i < |queue| => queue[i].request)
  }

  /** Only the first waiter may have been given something, and while anyone waits nothing is at hand. */
  predicate SemaphoreOk(s: Semaphore, limit: nat) {
    && (s.queue != [] ==> s.available == 0)
    && (forall i :: 0 <= i < |s.queue| ==>
          && s.queue[i].request.bytes > 0 && 0 < s.queue[i].missing <= Permits(limit, s.queue[i].request.bytes)
          && (i > 0 ==> s.queue[i].missing == Permits(limit, s.queue[i].request.bytes)))
  }

  /** What has been set aside for the first waiter. */
  function SetAside(s: Semaphore, limit: nat): (n: nat)
    requires SemaphoreOk(s, limit)
  {
    if s.queue == [] then 0 else Permits(limit, s.queue[0].request.bytes) - s.queue[0].missing
  }

  /** `acquire_many`: done at once if the permits are at hand, else what is at hand is set aside. */
  function Acquire(s: Semaphore, r: Request, limit: nat): (p: (Semaphore, bool)) {
    var need := Permits(limit, r.bytes);
    if need <= s.available then (s.(available := s.available - need), true)
    else (Semaphore(0, s.queue + [Waiter(r, need - s.available)]), false)
  }

  /** `add_permits`: the waiters are served in order, and only what none of them needs becomes available. */
  function AddPermits(s: Semaphore, n: nat): (p: (Semaphore, seq<Request>))
    decreases |s.queue|
  {
    if s.queue == [] then (s.(available := s.available + n), [])
    else if n < s.queue[0].missing then
      (s.(queue := [s.queue[0].(missing := s.queue[0].missing - n)] + s.queue[1..]), [])
    else
      var rest := AddPermits(s.(queue := s.queue[1..]), n - s.queue[0].missing);
      (rest.0, [s.queue[0].request] + rest.1)
  }

  /** Asking neither makes nor loses permits, and never overtakes a waiter. */
  lemma AcquireKeeps(s: Semaphore, r: Request, limit: nat)
    requires SemaphoreOk(s, limit) && r.bytes > 0 && 0 < limit
    ensures var (s', got) := Acquire(s, r, limit);
            && SemaphoreOk(s', limit)
            && s'.available + SetAside(s', limit) + (if got then Permits(limit, r.bytes) else 0)
               == s.available + SetAside(s, limit)
            && Requests(s'.queue) == Requests(s.queue) + (if got then [] else [r])
            && (got ==> s.queue == [])
  {
    hide Permits;
  }

  /** The semaphore without its first waiter, who got all it asked for. */
  lemma FirstServed(s: Semaphore, limit: nat)
    requires SemaphoreOk(s, limit) && s.queue != []
    ensures var t := s.(queue := s.queue[1..]);
            && SemaphoreOk(t, limit) && SetAside(t, limit) == 0
            && Requests(s.queue) == [s.queue[0].request] + Requests(t.queue)
            && SetAside(s, limit) + s.queue[0].missing == Permits(limit, s.queue[0].request.bytes)
  {
    hide Permits;
  }

  lemma SumHead(r: Request, rs: seq<Request>, limit: nat)
    ensures GlobalSum([r] + rs, limit) == Permits(limit, r.bytes) + GlobalSum(rs, limit)
  {
    hide Permits;
    SumConcat([r], rs, 0, limit);
    assert [r][..0] == [];
  }

  /** Returning permits neither makes nor loses any, and wakes the waiters from the front. */
  lemma {:induction false} AddKeeps(s: Semaphore, n: nat, limit: nat)
    requires SemaphoreOk(s, limit)
    ensures var (s', woken) := AddPermits(s, n);
            && SemaphoreOk(s', limit)
            && s'.available + SetAside(s', limit) + GlobalSum(woken, limit) == s.available + SetAside(s, limit) + n
            && Requests(s.queue) == woken + Requests(s'.queue)
    decreases |s.queue|
  {
    hide Permits, SemaphoreOk, SetAside, Requests, GlobalSum;
    if s.queue != [] && n >= s.queue[0].missing {
      var t, first := s.(queue := s.queue[1..]), s.queue[0].request;
      FirstServed(s, limit);
      AddKeeps(t, n - s.queue[0].missing, limit);
      SumHead(first, AddPermits(t, n - s.queue[0].missing).1, limit);
    } else {
      NobodyServed(s, n, limit);
    }
  }

  lemma NobodyServed(s: Semaphore, n: nat, limit: nat)
    requires SemaphoreOk(s, limit) && (s.queue == [] || n < s.queue[0].missing)
    ensures var (s', woken) := AddPermits(s, n);
            && SemaphoreOk(s', limit) && woken == [] && Requests(s'.queue) == Requests(s.queue)
            && s'.available + SetAside(s', limit) + GlobalSum(woken, limit) == s.available + SetAside(s, limit) + n
  {
    hide Permits;
  }

  /** With nothing held outside it, a semaphore keeps nobody waiting. */
  lemma NobodyWaitsAlone(s: Semaphore, limit: nat)
    requires SemaphoreOk(s, limit) && 0 < limit && s.available + SetAside(s, limit) == Capacity(limit)
    ensures s.queue == []
  {
    if s.queue != [] {
      AlwaysFits(limit, s.queue[0].request.bytes);
    }
  }

  // ----- the budget -----

  /** Requests for some bytes, on known tables. */
  predicate Proper(rs: seq<Request>, tables: nat) {
    forall i :: 0 <= i < |rs| ==> rs[i].bytes > 0 && rs[i].table < tables
  }

  /** Everyone waiting for a table's permits. */
  function Queued(tables: seq<Semaphore>): (m: multiset<Request>) {
    if tables == [] then multiset{} else
      Queued(tables[..|tables| - 1]) + multiset(Requests(tables[|tables| - 1].queue))
  }

  lemma {:induction false} QueuedUpdate(tables: seq<Semaphore>, t: nat, s: Semaphore)
    requires t < |tables|
    ensures Queued(tables[t := s]) + multiset(Requests(tables[t].queue)) == Queued(tables) + multiset(Requests(s.queue))
  {
    hide Requests;
    var n := |tables| - 1;
    if t == n {
      assert tables[t := s][..n] == tables[..n];
    } else {
      QueuedUpdate(tables[..n], t, s);
      assert tables[t := s][..n] == tables[..n][t := s];
      var a, b, last := Queued(tables[..n]), Queued(tables[..n][t := s]), multiset(Requests(tables[n].queue));
      assert (b + last) + multiset(Requests(tables[t].queue)) == (b + multiset(Requests(tables[t].queue))) + last;
      assert (a + last) + multiset(Requests(s.queue)) == (a + multiset(Requests(s.queue))) + last;
    }
  }

  lemma Cancel(a: multiset<Request>, b: multiset<Request>, c: multiset<Request>)
    requires a + c == b + c
    ensures a == b
  {
    forall x ensures a[x] == b[x] {
      assert (a + c)[x] == (b + c)[x];
    }
  }

  lemma QueuedJoin(tables: seq<Semaphore>, t: nat, s: Semaphore, joined: seq<Request>)
    requires t < |tables| && Requests(s.queue) == Requests(tables[t].queue) + joined
    ensures Queued(tables[t := s]) == Queued(tables) + multiset(joined)
  {
    hide Requests, Queued;
    QueuedUpdate(tables, t, s);
    var was := multiset(Requests(tables[t].queue));
    assert Queued(tables) + (was + multiset(joined)) == Queued(tables) + multiset(joined) + was;
    Cancel(Queued(tables[t := s]), Queued(tables) + multiset(joined), was);
  }

  lemma QueuedLeave(tables: seq<Semaphore>, t: nat, s: Semaphore, left: seq<Request>)
    requires t < |tables| && Requests(tables[t].queue) == left + Requests(s.queue)
    ensures Queued(tables) == Queued(tables[t := s]) + multiset(left)
  {
    hide Requests, Queued;
    QueuedUpdate(tables, t, s);
    var now := multiset(Requests(s.queue));
    assert Queued(tables[t := s]) + (multiset(left) + now) == Queued(tables[t := s]) + multiset(left) + now;
    Cancel(Queued(tables), Queued(tables[t := s]) + multiset(left), now);
  }

  lemma {:induction false} NobodyQueued(tables: seq<Semaphore>)
    requires forall t :: 0 <= t < |tables| ==> tables[t].queue == []
    ensures Queued(tables) == multiset{}
  {
    if tables != [] {
      NobodyQueued(tables[..|tables| - 1]);
      assert Requests([]) == [];
    }
  }

  /** All permits of a semaphore are accounted for when `held` are out. */
  ghost predicate Balanced(s: Semaphore, limit: nat, held: nat) {
    SemaphoreOk(s, limit) && s.available + SetAside(s, limit) + held == Capacity(limit)
  }

  lemma AskBalances(s: Semaphore, r: Request, limit: nat, held: nat)
    requires Balanced(s, limit, held) && r.bytes > 0 && 0 < limit
    ensures var (s', got) := Acquire(s, r, limit);
            && Balanced(s', limit, held + if got then Permits(limit, r.bytes) else 0)
            && Requests(s'.queue) == Requests(s.queue) + (if got then [] else [r])
  {
    hide Permits, Acquire, SetAside, SemaphoreOk, Capacity;
    AcquireKeeps(s, r, limit);
  }

  lemma ReturnBalances(s: Semaphore, n: nat, limit: nat, held: nat)
    requires Balanced(s, limit, held) && n <= held
    ensures var (s', woken) := AddPermits(s, n);
            && Balanced(s', limit, held - n + GlobalSum(woken, limit))
            && Requests(s.queue) == woken + Requests(s'.queue)
  {
    hide Permits, AddPermits, SetAside, SemaphoreOk, Capacity, GlobalSum;
    AddKeeps(s, n, limit);
  }

  lemma SplitAllOf(all: seq<Request>, a: seq<Request>, b: seq<Request>, t: nat)
    requires all == a + b
    ensures AllOf(all, t) <==> AllOf(a, t) && AllOf(b, t)
  {
    assert forall i :: 0 <= i < |a| ==> all[i] == a[i];
    assert forall i :: 0 <= i < |b| ==> all[|a| + i] == b[i];
  }

  lemma SplitProper(all: seq<Request>, a: seq<Request>, b: seq<Request>, tables: nat)
    requires all == a + b
    ensures Proper(all, tables) <==> Proper(a, tables) && Proper(b, tables)
  {
    assert forall i :: 0 <= i < |a| ==> all[i] == a[i];
    assert forall i :: 0 <= i < |b| ==> all[|a| + i] == b[i];
  }

  class WalBacklogBudget {
    const globalLimit: nat
    const tableLimit: nat
    var global: Semaphore
    var tables: seq<Semaphore>
    /** Reservations that have their table permits and ask for global ones next. */
    var holding: seq<Request>
    /** Reservations made and not yet released. */
    var outstanding: seq<Request>
    /** Releases halfway through: the global permits are back, the table permits not yet. */
    var returning: seq<Request>

    /** Permits of table `t` that are out, with reservations halfway through, made, or halfway back. */
    ghost function Held(t: nat): (n: nat)
      reads this
    {
      TableSum(holding, t, tableLimit) + TableSum(Requests(global.queue), t, tableLimit)
      + TableSum(outstanding, t, tableLimit) + TableSum(returning, t, tableLimit)
    }

    /** Permits are conserved, in each semaphore. */
    ghost predicate Valid()
      reads this
    {
      && 0 < globalLimit <= MAX_PERMITS && 0 < tableLimit
      && Balanced(global, globalLimit, GlobalSum(outstanding, globalLimit))
      && (forall t :: 0 <= t < |tables| ==> Balanced(tables[t], tableLimit, Held(t)) && AllOf(Requests(tables[t].queue), t))
      && Proper(holding, |tables|) && Proper(Requests(global.queue), |tables|)
      && Proper(outstanding, |tables|) && Proper(returning, |tables|)
    }

    /** Everyone who asked and has not started to release. */
    ghost function Everyone(): (m: multiset<Request>)
      reads this
    {
      Queued(tables) + multiset(holding) + multiset(Requests(global.queue)) + multiset(outstanding)
    }

    /** How many steps the requests have before them. */
    ghost function Weight(): (n: nat)
      reads this
    {
      5 * |Queued(tables)| + 4 * |holding| + 3 * |global.queue| + 2 * |outstanding| + |returning|
    }

    constructor (globalLimit: nat, tableLimit: nat)
      ensures Valid() && Everyone() == multiset{} && tables == [] && returning == []
      ensures 1 <= globalLimit <= MAX_PERMITS ==> this.globalLimit == globalLimit
      ensures 1 <= tableLimit ==> this.tableLimit == tableLimit
      ensures globalLimit == 0 ==> this.globalLimit == 1
      ensures globalLimit > 0x1FFF_FFFF_FFFF_FFFF ==> this.globalLimit == 0x1FFF_FFFF_FFFF_FFFF
      ensures tableLimit == 0 ==> this.tableLimit == 1
    {
      hide Permits, Balanced, Capacity, SemaphoreOk, SetAside;
      this.globalLimit := Capacity(globalLimit);
      this.tableLimit := if tableLimit == 0 then 1 else tableLimit;
      global := Semaphore(Capacity(globalLimit), []);
      tables, holding, outstanding, returning := [], [], [], [];
      new;
      SameCapacity(globalLimit);
      EmptySemaphore(this.globalLimit);
    }

    method NewTableBacklog() returns (t: nat)
      requires Valid()
      modifies this`tables
      ensures Valid() && Everyone() == old(Everyone())
      ensures t == |old(tables)| && tables == old(tables) + [Semaphore(Capacity(tableLimit), [])]
    {
      hide TableSum, GlobalSum, Capacity, Balanced;
      t := |tables|;
      NoneHeld(holding, t, tableLimit);
      NoneHeld(Requests(global.queue), t, tableLimit);
      NoneHeld(outstanding, t, tableLimit);
      NoneHeld(returning, t, tableLimit);
      EmptySemaphore(tableLimit);
      assert (tables + [Semaphore(Capacity(tableLimit), [])])[..t] == tables;
      tables := tables + [Semaphore(Capacity(tableLimit), [])];
    }

    /** A reservation asks its table; nothing is reserved for no bytes. */
    method Reserve(t: nat, bytes: nat) returns (done: bool)
      requires Valid() && t < |tables|
      modifies this`tables, this`holding
      ensures Valid() && done == (bytes == 0)
      ensures done ==> unchanged(this)
      ensures !done ==>
                var r := Request(t, bytes);
                var (s, got) := Acquire(old(tables)[t], r, tableLimit);
                && tables == old(tables)[t := s] && holding == old(holding) + (if got then [r] else [])
                && Everyone() == old(Everyone()) + multiset{r}
    {
      hide Permits, TableSum, GlobalSum, Balanced, Queued, Acquire, AllOf, Requests;
      if bytes == 0 {
        return true;
      }
      var r := Request(t, bytes);
      var (s, got) := Acquire(tables[t], r, tableLimit);
      ghost var joined := if got then [] else [r];
      AskBalances(tables[t], r, tableLimit, Held(t));
      SplitAllOf(Requests(s.queue), Requests(tables[t].queue), joined, t);
      AllOfOne(r);
      QueuedJoin(tables, t, s, joined);
      forall u ensures TableSum(holding + [r], u, tableLimit) == TableSum(holding, u, tableLimit) + Share(r, u, tableLimit) {
        SumAppend(holding, r, u, tableLimit);
      }
      tables := tables[t := s];
      if got {
        holding := holding + [r];
      }
      return false;
    }

    /** A reservation with its table permits asks for the global ones. */
    method AskGlobal(i: nat)
      requires Valid() && i < |holding|
      modifies this`global, this`holding, this`outstanding
      ensures Valid() && Everyone() == old(Everyone()) && Weight() < old(Weight())
      ensures holding == Without(old(holding), i)
      ensures var (s, got) := Acquire(old(global), old(holding)[i], globalLimit);
              global == s && outstanding == old(outstanding) + if got then [old(holding)[i]] else []
    {
      hide Permits, TableSum, GlobalSum, Balanced, Queued, Acquire, AllOf, Without, Requests, Proper;
      var r := holding[i];
      WithoutOne(holding, i);
      WithoutProper(holding, i, |tables|);
      var (s, got) := Acquire(global, r, globalLimit);
      AskBalances(global, r, globalLimit, GlobalSum(outstanding, globalLimit));
      SumAppend(outstanding, r, 0, globalLimit);
      ghost var waiting: seq<Request> := Requests(global.queue);
      SplitProper(outstanding + [r], outstanding, [r], |tables|);
      SplitProper(waiting + [r], waiting, [r], |tables|);
      forall u
        ensures TableSum(Without(holding, i), u, tableLimit) + Share(r, u, tableLimit) == TableSum(holding, u, tableLimit)
        ensures TableSum(outstanding + [r], u, tableLimit) == TableSum(outstanding, u, tableLimit) + Share(r, u, tableLimit)
        ensures TableSum(waiting + [r], u, tableLimit) == TableSum(waiting, u, tableLimit) + Share(r, u, tableLimit)
      {
        SumWithout(holding, i, u, tableLimit);
        SumAppend(outstanding, r, u, tableLimit);
        SumAppend(waiting, r, u, tableLimit);
      }
      assert waiting + [] == waiting;
      global := s;
      holding := Without(holding, i);
      if got {
        outstanding := outstanding + [r];
      }
    }

    /** All or nothing: a refused attempt leaves everything as it was, and a granted one overtakes nobody. */
    method TryReserve(t: nat, bytes: nat) returns (ok: bool)
      requires Valid() && t < |tables|
      modifies this
      ensures Valid()
      ensures ok <==> bytes == 0 || (Permits(tableLimit, bytes) <= old(tables)[t].available
                                     && Permits(globalLimit, bytes) <= old(global).available)
      ensures !ok || bytes == 0 ==> unchanged(this)
      ensures ok && bytes > 0 ==>
                && old(tables)[t].queue == [] && old(global).queue == []
                && outstanding == old(outstanding) + [Request(t, bytes)]
                && holding == old(holding) && returning == old(returning)
                && tables == old(tables)[t := Semaphore(old(tables)[t].available - Permits(tableLimit, bytes), [])]
                && global == Semaphore(old(global).available - Permits(globalLimit, bytes), [])
    {
      hide TableSum, GlobalSum, Queued, Capacity;
      if bytes == 0 {
        return true;
      }
      var r := Request(t, bytes);
      var tableN, globalN := Permits(tableLimit, bytes), Permits(globalLimit, bytes);
      if tables[t].available < tableN {
        return false;
      }
      ghost var before := tables;
      tables := tables[t := tables[t].(available := tables[t].available - tableN)];
      if global.available < globalN {
        tables := tables[t := AddPermits(tables[t], tableN).0];
        assert tables == before;
        return false;
      }
      SumAppend(outstanding, r, 0, globalLimit);
      forall u
        ensures TableSum(outstanding + [r], u, tableLimit) == TableSum(outstanding, u, tableLimit) + Share(r, u, tableLimit)
      {
        SumAppend(outstanding, r, u, tableLimit);
      }
      global := global.(available := global.available - globalN);
      outstanding := outstanding + [r];
      return true;
    }

    /** First half of a release: the global permits go back, and the waiters they serve have their
        reservation. */
    method ReleaseGlobal(i: nat)
      requires Valid() && i < |outstanding|
      modifies this`global, this`outstanding, this`returning
      ensures Valid() && Everyone() + multiset{old(outstanding)[i]} == old(Everyone()) && Weight() < old(Weight())
      ensures returning == old(returning) + [old(outstanding)[i]]
      ensures var (s, made) := AddPermits(old(global), Permits(globalLimit, old(outstanding)[i].bytes));
              global == s && outstanding == Without(old(outstanding), i) + made
    {
      hide Permits, TableSum, GlobalSum, Balanced, Queued, AddPermits, AllOf, Without, Requests, Proper;
      var r := outstanding[i];
      var (s, made) := AddPermits(global, Permits(globalLimit, r.bytes));
      WithoutOne(outstanding, i);
      WithoutProper(outstanding, i, |tables|);
      SumWithout(outstanding, i, 0, globalLimit);
      SumConcat(Without(outstanding, i), made, 0, globalLimit);
      ReturnBalances(global, Permits(globalLimit, r.bytes), globalLimit, GlobalSum(outstanding, globalLimit));
      ghost var waiting: seq<Request> := Requests(s.queue);
      SplitProper(Requests(global.queue), made, waiting, |tables|);
      SplitProper(Without(outstanding, i) + made, Without(outstanding, i), made, |tables|);
      SplitProper(returning + [r], returning, [r], |tables|);
      forall u
        ensures TableSum(Without(outstanding, i) + made, u, tableLimit) + TableSum(waiting, u, tableLimit)
                + TableSum(returning + [r], u, tableLimit)
                == TableSum(outstanding, u, tableLimit) + TableSum(Requests(global.queue), u, tableLimit)
                   + TableSum(returning, u, tableLimit)
      {
        SumWithout(outstanding, i, u, tableLimit);
        SumConcat(Without(outstanding, i), made, u, tableLimit);
        SumConcat(made, waiting, u, tableLimit);
        SumAppend(returning, r, u, tableLimit);
      }
      global, outstanding, returning := s, Without(outstanding, i) + made, returning + [r];
    }

    /** Second half: the table permits go back, and the waiters they serve ask for global ones next. */
    method ReleaseTable(i: nat)
      requires Valid() && i < |returning|
      modifies this`tables, this`holding, this`returning
      ensures Valid() && Everyone() == old(Everyone()) && Weight() < old(Weight())
      ensures returning == Without(old(returning), i)
      ensures var r := old(returning)[i];
              var (s, going) := AddPermits(old(tables)[r.table], Permits(tableLimit, r.bytes));
              tables == old(tables)[r.table := s] && holding == old(holding) + going
    {
      hide Permits, TableSum, GlobalSum, Balanced, Queued, AddPermits, AllOf, Without, Requests, Proper;
      var r := returning[i];
      WithoutOne(returning, i);
      WithoutProper(returning, i, |tables|);
      SumWithout(returning, i, r.table, tableLimit);
      var (s, going) := AddPermits(tables[r.table], Permits(tableLimit, r.bytes));
      ReturnBalances(tables[r.table], Permits(tableLimit, r.bytes), tableLimit, Held(r.table));
      SplitAllOf(Requests(tables[r.table].queue), going, Requests(s.queue), r.table);
      WaitersProper(tables[r.table], r.table, tableLimit, Held(r.table), going, |tables|);
      SplitProper(holding + going, holding, going, |tables|);
      QueuedLeave(tables, r.table, s, going);
      assert |Queued(tables)| == |Queued(tables[r.table := s])| + |going|;
      forall u
        ensures TableSum(Without(returning, i), u, tableLimit) + Share(r, u, tableLimit) == TableSum(returning, u, tableLimit)
        ensures TableSum(holding + going, u, tableLimit)
                == TableSum(holding, u, tableLimit) + if u == r.table then GlobalSum(going, tableLimit) else 0
      {
        SumWithout(returning, i, u, tableLimit);
        SumConcat(holding, going, u, tableLimit);
        OneTable(going, r.table, u, tableLimit);
      }
      tables, holding, returning := tables[r.table := s], holding + going, Without(returning, i);
    }

    /** The cap in bytes: batches that each fit, reserved and not yet released, never exceed the global limit,
        and those of one table never exceed the table's, with the ones halfway through or back. */
    lemma BytesWithin(t: nat)
      requires Valid() && t < |tables|
      ensures Within(outstanding, globalLimit) ==> ByteSum(outstanding) <= globalLimit
      ensures var held := OfTable(holding + Requests(global.queue) + outstanding + returning, t);
              Within(held, tableLimit) ==> ByteSum(held) <= tableLimit
    {
      hide GlobalSum, TableSum, Permits, SemaphoreOk, SetAside, Requests, OfTable, ByteSum, Capacity;
      if Within(outstanding, globalLimit) {
        FittingSum(outstanding, globalLimit);
      }
      assert Balanced(tables[t], tableLimit, Held(t));
      var waiting: seq<Request> := Requests(global.queue);
      var all := holding + waiting + outstanding + returning;
      SumConcat(holding, waiting, t, tableLimit);
      SumConcat(holding + waiting, outstanding, t, tableLimit);
      SumConcat(holding + waiting + outstanding, returning, t, tableLimit);
      OfTableSum(all, t, tableLimit);
      if Within(OfTable(all, t), tableLimit) {
        FittingSum(OfTable(all, t), tableLimit);
      }
    }

    /** A batch over the limit is let in, but only by itself. */
    lemma OversizedAlone(i: nat)
      requires Valid() && globalLimit <= U32_MAX && i < |outstanding| && outstanding[i].bytes >= globalLimit
      ensures |outstanding| == 1
    {
      hide GlobalSum, TableSum, SemaphoreOk, SetAside, Without;
      SumWithout(outstanding, i, 0, globalLimit);
      WithoutOne(outstanding, i);
      if Without(outstanding, i) != [] {
        WithoutProper(outstanding, i, |tables|);
        PositiveSum(Without(outstanding, i), globalLimit);
      }
    }

    /** The order of asking, table first, never deadlocks: with no reservation made, none halfway through and
        none halfway back, nobody is waiting. */
    lemma NoDeadlock()
      requires Valid() && outstanding == [] && holding == [] && returning == []
      ensures global.queue == [] && (forall t :: 0 <= t < |tables| ==> tables[t].queue == [])
      ensures Everyone() == multiset{}
    {
      NobodyWaitsAlone(global, globalLimit);
      forall t | 0 <= t < |tables|
        ensures tables[t].queue == []
      {
        NobodyWaitsAlone(tables[t], tableLimit);
      }
      NobodyQueued(tables);
    }
  }

  lemma EmptySemaphore(limit: nat)
    ensures Balanced(Semaphore(Capacity(limit), []), limit, 0)
  {
  }

  lemma SameCapacity(limit: nat)
    ensures Capacity(Capacity(limit)) == Capacity(limit)
  {
  }

  lemma AllOfOne(r: Request)
    ensures AllOf([r], r.table) && AllOf([], r.table)
  {
  }

  lemma WaitersProper(s: Semaphore, t: nat, limit: nat, held: nat, first: seq<Request>, tables: nat)
    requires Balanced(s, limit, held) && AllOf(Requests(s.queue), t) && t < tables && first <= Requests(s.queue)
    ensures Proper(first, tables)
  {
  }

  lemma WithoutProper(rs: seq<Request>, i: nat, tables: nat)
    requires i < |rs| && Proper(rs, tables)
    ensures Proper(Without(rs, i), tables) && Proper([rs[i]], tables) && rs[i].table < tables && rs[i].bytes > 0
  {
  }

  lemma WithoutOne(rs: seq<Request>, i: nat)
    requires i < |rs|
    ensures multiset(Without(rs, i)) + multiset{rs[i]} == multiset(rs)
    ensures |Without(rs, i)| == |rs| - 1
    ensures forall k :: 0 <= k < |rs| - 1 ==> Without(rs, i)[k] in rs
  {
    assert rs == rs[..i] + [rs[i]] + rs[i + 1..];
  }

  lemma {:induction false} NoneHeld(rs: seq<Request>, t: nat, limit: nat)
    requires forall i :: 0 <= i < |rs| ==> rs[i].table != t
    ensures TableSum(rs, t, limit) == 0
  {
    if rs != [] {
      NoneHeld(rs[..|rs| - 1], t, limit);
    }
  }

  /** From any state, releasing what is made and letting the others go on serves everyone exactly once. */
  method ServeAll(b: WalBacklogBudget) returns (ghost served: multiset<Request>)
    requires b.Valid()
    modifies b
    ensures b.Valid() && b.Everyone() == multiset{} && served == old(b.Everyone())
  {
    hide WalBacklogBudget.Valid, WalBacklogBudget.Everyone, WalBacklogBudget.Weight, Queued, Acquire, AddPermits, Permits;
    served := multiset{};
    while b.outstanding != [] || b.holding != [] || b.returning != []
      invariant b.Valid() && served + b.Everyone() == old(b.Everyone())
      decreases b.Weight()
    {
      if b.holding != [] {
        b.AskGlobal(0);
      } else if b.returning != [] {
        b.ReleaseTable(0);
      } else {
        served := served + multiset{b.outstanding[0]};
        b.ReleaseGlobal(0);
      }
    }
    b.NoDeadlock();
  }
}
