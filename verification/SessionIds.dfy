/** The wrapping session-ID allocator of src/klf200/types.rs. */
module SessionIds {
  import opened Base

  const MAX: nat := 0xFFFF

  type SessionId = x: int | 1 <= x <= 0xFFFF witness 1

  /** The k-th candidate a scan visits when its cursor stands at next. */
  function Nth(next: SessionId, k: nat): SessionId {
    (next - 1 + k) % MAX + 1
  }

  datatype Allocator = Allocator(next: SessionId, active: set<SessionId>)

  const EMPTY: Allocator := Allocator(1, {})

  /** How many candidates from the k-th on are active before a free one; MAX when none is free. */
  function FreeOffset(next: SessionId, active: set<SessionId>, k: nat): (offset: nat)
    requires k <= MAX
    ensures k <= offset <= MAX
    ensures offset < MAX ==> Nth(next, offset) !in active
    ensures forall j :: k <= j < offset ==> Nth(next, j) in active
    decreases MAX - k, next
  {
    if k == MAX || Nth(next, k) !in active then k else FreeOffset(next, active, k + 1)
  }

  datatype Operation = Allocate | Reserve(id: SessionId) | Release(id: SessionId)

  datatype Outcome = Outcome(allocator: Allocator, result: Result<SessionId, KlfError>, scanned: nat)

  function Perform(a: Allocator, op: Operation): Outcome {
    match op
    case Allocate =>
      var offset := FreeOffset(a.next, a.active, 0);
      if offset == MAX then Outcome(a, Err(SessionIdsExhausted), MAX)
      else
        var id := Nth(a.next, offset);
        Outcome(Allocator(Nth(a.next, offset + 1), a.active + {id}), Ok(id), offset + 1)
    case Reserve(id) =>
      if id in a.active then Outcome(a, Err(SessionIdInUse(id)), 0)
      else Outcome(a.(active := a.active + {id}), Ok(id), 0)
    case Release(id) => Outcome(a.(active := a.active - {id}), Ok(id), 0)
  }

  // ----- The cyclic order -----

  lemma NthWraps(next: SessionId, k: nat)
    ensures Nth(next, 0) == next
    ensures Nth(next, k + 1) == if Nth(next, k) == MAX then 1 else Nth(next, k) + 1
    ensures Nth(next, MAX) == next
  {
  }

  lemma NthAdds(next: SessionId, j: nat, k: nat)
    ensures Nth(Nth(next, j), k) == Nth(next, j + k)
  {
    ModShift(next - 1 + j, k);
  }

  lemma ModShift(a: nat, k: nat)
    ensures (a % MAX + k) % MAX == (a + k) % MAX
  {
    var q := a / MAX;
    assert a == q * MAX + a % MAX;
    ModMultiple(q, a % MAX + k);
  }

  lemma {:induction false} ModMultiple(q: nat, r: nat)
    ensures (q * MAX + r) % MAX == r % MAX
    decreases q, r
  {
    if q > 0 {
      ModMultiple(q - 1, r);
      assert (q * MAX + r) % MAX == ((q - 1) * MAX + r) % MAX;
    }
  }

  /** Where the scan from next meets id. */
  function Distance(next: SessionId, id: SessionId): (k: nat)
    ensures k < MAX && Nth(next, k) == id
  {
    if id >= next then id - next else id + MAX - next
  }

  /** A scan is back at its start exactly after full rounds. */
  lemma NthReturns(next: SessionId, k: nat)
    requires Nth(next, k) == next
    ensures k % MAX == 0
  {
    var q, r := k / MAX, k % MAX;
    assert k == q * MAX + r;
    ModMultiple(q, next - 1 + r);
    assert (next - 1 + r) % MAX == next - 1;
  }

  // ----- Exactness -----

  /** allocate takes the first inactive ID in cyclic order and fails exactly when none is left. */
  lemma AllocateIsExact(a: Allocator)
    ensures var done := Perform(a, Allocate);
            match done.result
            case Ok(id) =>
              && id !in a.active
              && done.allocator.active == a.active + {id}
              && done.allocator.next == (if id == MAX then 1 else id + 1)
              && forall other: SessionId :: Distance(a.next, other) < Distance(a.next, id) ==> other in a.active
            case Err(e) => e == SessionIdsExhausted && done.allocator == a
    ensures Perform(a, Allocate).result.Err? <==> forall id: SessionId :: id in a.active
  {
    var offset := FreeOffset(a.next, a.active, 0);
    forall other: SessionId | Distance(a.next, other) < offset
      ensures other in a.active
    {
      assert Nth(a.next, Distance(a.next, other)) in a.active;
    }
    if offset < MAX {
      var id := Nth(a.next, offset);
      NthWraps(a.next, offset);
      assert Distance(a.next, id) == offset by {
        DistanceOfNth(a.next, offset);
      }
    } else {
      forall id: SessionId
        ensures id in a.active
      {
        assert Distance(a.next, id) < offset;
      }
    }
  }

  lemma DistanceOfNth(next: SessionId, k: nat)
    requires k < MAX
    ensures Distance(next, Nth(next, k)) == k
  {
  }

  // ----- Fairness over runs -----

  function Run(a: Allocator, ops: seq<Operation>): Allocator
    decreases |ops|
  {
    if ops == [] then a else Run(Perform(a, ops[0]).allocator, ops[1..])
  }

  /** The IDs the scans of a run looked at. */
  ghost function Visited(a: Allocator, ops: seq<Operation>): iset<SessionId>
    decreases |ops|
  {
    if ops == [] then iset{}
    else
      var done := Perform(a, ops[0]);
      ScanOf(a.next, done.scanned) + Visited(done.allocator, ops[1..])
  }

  ghost function ScanOf(next: SessionId, count: nat): iset<SessionId> {
    iset k: nat | k < count :: Nth(next, k)
  }

  function Travel(a: Allocator, ops: seq<Operation>): nat
    decreases |ops|
  {
    if ops == [] then 0
    else
      var done := Perform(a, ops[0]);
      done.scanned + Travel(done.allocator, ops[1..])
  }

  /** A scan only passes over an ID that is active or that it hands out. */
  lemma ScannedIsActiveOrTaken(a: Allocator, id: SessionId)
    requires id in ScanOf(a.next, Perform(a, Allocate).scanned)
    ensures id in a.active || Perform(a, Allocate).result == Ok(id)
  {
    var k: nat :| k < Perform(a, Allocate).scanned && Nth(a.next, k) == id;
  }

  lemma PerformMoves(a: Allocator, op: Operation)
    ensures Perform(a, op).allocator.next == Nth(a.next, Perform(a, op).scanned)
  {
    NthWraps(a.next, 0);
  }

  lemma ScanSplits(next: SessionId, first: nat, rest: nat)
    ensures ScanOf(next, first + rest) == ScanOf(next, first) + ScanOf(Nth(next, first), rest)
  {
    forall id: SessionId
      ensures id in ScanOf(next, first + rest) <==> id in ScanOf(next, first) || id in ScanOf(Nth(next, first), rest)
    {
      if id in ScanOf(next, first + rest) {
        var k: nat :| k < first + rest && Nth(next, k) == id;
        if k >= first {
          NthAdds(next, first, k - first);
        }
      }
      if id in ScanOf(Nth(next, first), rest) {
        var k: nat :| k < rest && Nth(Nth(next, first), k) == id;
        NthAdds(next, first, k);
      }
    }
  }

  lemma {:induction false} RunVisitsWhatItTravels(a: Allocator, ops: seq<Operation>)
    ensures Run(a, ops).next == Nth(a.next, Travel(a, ops))
    ensures Visited(a, ops) == ScanOf(a.next, Travel(a, ops))
    decreases |ops|
  {
    if ops == [] {
      NthWraps(a.next, 0);
    } else {
      var done := Perform(a, ops[0]);
      RunVisitsWhatItTravels(done.allocator, ops[1..]);
      PerformMoves(a, ops[0]);
      NthAdds(a.next, done.scanned, Travel(done.allocator, ops[1..]));
      ScanSplits(a.next, done.scanned, Travel(done.allocator, ops[1..]));
    }
  }

  lemma {:induction false} RunSnoc(a: Allocator, ops: seq<Operation>, op: Operation)
    ensures Run(a, ops + [op]) == Perform(Run(a, ops), op).allocator
    ensures Travel(a, ops + [op]) == Travel(a, ops) + Perform(Run(a, ops), op).scanned
    decreases |ops|
  {
    if ops != [] {
      assert (ops + [op])[1..] == ops[1..] + [op];
      RunSnoc(Perform(a, ops[0]).allocator, ops[1..], op);
    } else {
      assert ops + [op] == [op];
    }
  }

  lemma LongScanMeetsAll(next: SessionId, count: nat)
    requires count >= MAX
    ensures forall id: SessionId :: id in ScanOf(next, count)
  {
    forall id: SessionId
      ensures id in ScanOf(next, count)
    {
      assert Nth(next, Distance(next, id)) == id;
    }
  }

  /** Fairness: between two allocations of one ID the scans met every ID there is. */
  lemma ReuseOnlyAfterFullRound(a: Allocator, between: seq<Operation>, id: SessionId)
    requires Perform(a, Allocate).result == Ok(id)
    requires Perform(Run(Perform(a, Allocate).allocator, between), Allocate).result == Ok(id)
    ensures forall other: SessionId ::
              other in Visited(Perform(a, Allocate).allocator, between + [Allocate])
  {
    hide FreeOffset, Travel, Visited, Run;
    var start := Perform(a, Allocate).allocator;
    AllocateIsExact(a);
    AllocateIsExact(Run(start, between));
    RunSnoc(start, between, Allocate);
    RunVisitsWhatItTravels(start, between + [Allocate]);
    var travel := Travel(start, between + [Allocate]);
    NthReturns(start.next, travel);
    LongScanMeetsAll(start.next, travel);
  }

  lemma {:induction false} VisitedAtSomeStep(a: Allocator, ops: seq<Operation>, id: SessionId) returns (k: nat)
    requires id in Visited(a, ops)
    ensures k < |ops| && id in ScanOf(Run(a, ops[..k]).next, Perform(Run(a, ops[..k]), ops[k]).scanned)
    decreases |ops|
  {
    hide FreeOffset, ScanOf;
    var done := Perform(a, ops[0]);
    if id in ScanOf(a.next, done.scanned) {
      k := 0;
      assert Run(a, ops[..0]) == a;
    } else {
      var later := VisitedAtSomeStep(done.allocator, ops[1..], id);
      k := later + 1;
      assert ops[..k][1..] == ops[1..][..later];
    }
  }

  /** Fairness: between two allocations of one ID, every other ID comes up at some allocation, which
      hands it out or finds it active. */
  lemma EveryOtherIdComesUp(a: Allocator, between: seq<Operation>, id: SessionId, other: SessionId)
    requires Perform(a, Allocate).result == Ok(id)
    requires Perform(Run(Perform(a, Allocate).allocator, between), Allocate).result == Ok(id)
    ensures var start, ops := Perform(a, Allocate).allocator, between + [Allocate];
            exists k ::
              && 0 <= k < |ops| && ops[k] == Allocate
              && (other in Run(start, ops[..k]).active || Perform(Run(start, ops[..k]), Allocate).result == Ok(other))
  {
    hide FreeOffset, ScanOf, Visited, Run;
    var start, ops := Perform(a, Allocate).allocator, between + [Allocate];
    ReuseOnlyAfterFullRound(a, between, id);
    var k := VisitedAtSomeStep(start, ops, other);
    OnlyAllocationsScan(Run(start, ops[..k]), ops[k], other);
    ScannedIsActiveOrTaken(Run(start, ops[..k]), other);
  }

  lemma OnlyAllocationsScan(a: Allocator, op: Operation, id: SessionId)
    requires id in ScanOf(a.next, Perform(a, op).scanned)
    ensures op == Allocate
  {
  }

  // ----- The allocator object -----

  class SessionIdAllocator {
    var next: SessionId
    var active: set<SessionId>

    function Model(): Allocator
      reads this
    {
      Allocator(next, active)
    }

    constructor ()
      ensures Model() == EMPTY
    {
      next, active := 1, {};
    }

    constructor StartingAt(id: SessionId)
      ensures Model() == Allocator(id, {})
    {
      next, active := id, {};
    }

    constructor From(model: Allocator)
      ensures Model() == model
    {
      next, active := model.next, model.active;
    }

    method Allocate() returns (result: Result<SessionId, KlfError>)
      modifies this
      ensures Model() == Perform(old(Model()), Operation.Allocate).allocator
      ensures result == Perform(old(Model()), Operation.Allocate).result
    {
      ghost var start := next;
      ghost var offset := FreeOffset(start, active, 0);
      NthWraps(start, 0);
      for i := 0 to 0xFFFF
        invariant i <= offset
        invariant next == Nth(start, i)
        invariant active == old(active)
      {
        NthWraps(start, i);
        var candidate := next;
        next := if candidate == 0xFFFF then 1 else candidate + 1;
        if candidate !in active {
          active := active + {candidate};
          return Ok(candidate);
        }
      }
      NthWraps(start, 0);
      return Err(SessionIdsExhausted);
    }

    method Reserve(id: SessionId) returns (result: Result<SessionId, KlfError>)
      modifies this
      ensures Model() == Perform(old(Model()), Operation.Reserve(id)).allocator
      ensures result == Perform(old(Model()), Operation.Reserve(id)).result
    {
      if id in active {
        return Err(SessionIdInUse(id));
      }
      active := active + {id};
      return Ok(id);
    }

    method Release(id: SessionId) returns (wasActive: bool)
      modifies this
      ensures Model() == Perform(old(Model()), Operation.Release(id)).allocator
      ensures wasActive <==> id in old(active)
    {
      wasActive := id in active;
      active := active - {id};
    }
  }
}
