/**
 The byte ledger of the request admission controller: who owns which retained bytes, who
 keeps a request's memory alive, and who holds the large-body slots. Each function is one
 critical section under the body lock, on values; owners are numbered by creation.
 */
module Ledger {
  import opened Common

  // ----- configuration -----

  datatype RequestedConfig = Config(
    maxBody: int, budget: int, maxResponse: int, maxRetained: int,
    largeThreshold: int, largeLimit: int, smallThreshold: int, smallReserve: int)
  {
    predicate Valid() {
      && maxBody >= 0 && budget >= 0 && maxResponse >= 0 && maxRetained >= 0
      && largeThreshold >= 0 && largeLimit >= 0
      && smallThreshold >= 0 && smallReserve >= 0
      && smallReserve <= budget
      && (largeThreshold == 0 <==> largeLimit == 0)
    }
  }

  type Config = c: RequestedConfig | c.Valid() witness Config(0, 0, 0, 0, 0, 0, 0, 0)

  // ----- owners -----

  /** The lifecycle key of a routing attempt. */
  type Key = string

  const UNATTRIBUTED: Key := "unattributed"

  /** Response accounting of one attempt; `rejectedBytes` is kept by the model alone. */
  datatype Lifecycle = Lifecycle(
    started: nat, requested: nat, commits: nat, committed: nat, rollbacks: nat, rolledBack: nat,
    releases: nat, released: nat, rejections: nat, rejectedBytes: nat)

  const BLANK := Lifecycle(0, 0, 0, 0, 0, 0, 0, 0, 0, 0)

  /** A committed allocation: the direct one of an attempt, a committed temporary, or a synthetic one. */
  datatype AllocationId = Direct(key: Key) | FromTemporary(temp: nat) | Synthetic

  datatype Allocation = Allocation(id: AllocationId, key: Key, bytes: nat)

  /**
   A request lease. `releaseRan` says that the release critical section has run, and
   `summaries` are the per-attempt records published at finalization.
   */
  datatype Lease = Lease(
    body: nat, response: nat, releaseRequested: bool, releaseRan: bool,
    owners: int, finalized: bool, slot: bool, claim: Option<nat>, resourceOnly: bool,
    attempt: Option<Key>, allocations: seq<Allocation>,
    cycles: map<Key, Lifecycle>, summaries: map<Key, Lifecycle>)

  function NewLease(resourceOnly: bool): Lease {
    Lease(0, 0, false, false, 0, false, false, None, resourceOnly, None, [], map[], map[])
  }

  /** A reservation made while its request still waits for an active slot. */
  datatype Pending = Pending(
    bytes: nat, transferred: bool, released: bool, slot: bool, claim: Option<nat>, resourceOnly: bool)

  /** An activated temporary response reservation. */
  datatype Temp = Temp(lease: nat, key: Key, size: nat, committed: bool, released: bool)
  {
    predicate Live() { !committed && !released }
  }

  /** An activated memory deferral. */
  datatype Deferral = Deferral(lease: nat, released: bool)

  datatype Owner = OfLease(index: nat) | OfPending(index: nat)

  datatype Holder = Holder(owner: Owner, bytes: nat)

  datatype Books = Books(
    body: nat, pendingBody: nat, response: nat,
    leases: seq<Lease>, pendings: seq<Pending>, temps: seq<Temp>, deferrals: seq<Deferral>,
    deferred: set<nat>, holders: map<nat, Holder>, claims: nat)

  const EMPTY := Books(0, 0, 0, [], [], [], [], {}, map[], 0)

  // ----- outcomes -----

  /** Reasons a caller can be refused for. */
  datatype Refusal =
    | Inactive | BodyTooLarge | BudgetExhausted | LargeCapacityExhausted
    | TransferTooLarge | ModeChanged | DoubleTransfer | StagedTooLarge
    | ResponseTooLarge | RetainedTooLarge | GlobalBudget | ParentGovernor

  /** Errors that say the books themselves disagree. */
  datatype Fault =
    | PendingUnderflow | BodyUnderflow | ResponseUnderflow | OwnerUnderflow
    | HolderMissing | CapacityChanged | LedgerOverflow

  datatype Reply = Done(books: Books) | Refused(reason: Refusal) | Broken(fault: Fault)

  // ----- new owners -----

  function AddLease(b: Books, resourceOnly: bool): Books { b.(leases := b.leases + [NewLease(resourceOnly)]) }

  function AddPending(b: Books, resourceOnly: bool): Books {
    b.(pendings := b.pendings + [Pending(0, false, false, false, None, resourceOnly)])
  }

  // ----- access -----

  predicate Known(b: Books, o: Owner) {
    match o
    case OfLease(i) => i < |b.leases|
    case OfPending(i) => i < |b.pendings|
  }

  function Bytes(b: Books, o: Owner): nat
    requires Known(b, o)
  {
    match o
    case OfLease(i) => b.leases[i].body
    case OfPending(i) => b.pendings[i].bytes
  }

  predicate HasSlot(b: Books, o: Owner)
    requires Known(b, o)
  {
    match o
    case OfLease(i) => b.leases[i].slot
    case OfPending(i) => b.pendings[i].slot
  }

  function Claim(b: Books, o: Owner): Option<nat>
    requires Known(b, o)
  {
    match o
    case OfLease(i) => b.leases[i].claim
    case OfPending(i) => b.pendings[i].claim
  }

  predicate ResourceOnly(b: Books, o: Owner)
    requires Known(b, o)
  {
    match o
    case OfLease(i) => b.leases[i].resourceOnly
    case OfPending(i) => b.pendings[i].resourceOnly
  }

  function SetLease(b: Books, i: nat, l: Lease): Books
    requires i < |b.leases|
  {
    b.(leases := b.leases[i := l])
  }

  function SetBytes(b: Books, o: Owner, bytes: nat): Books
    requires Known(b, o)
  {
    match o
    case OfLease(i) => SetLease(b, i, b.leases[i].(body := bytes))
    case OfPending(i) => b.(pendings := b.pendings[i := b.pendings[i].(bytes := bytes)])
  }

  function SetClaim(b: Books, o: Owner, claim: Option<nat>): Books
    requires Known(b, o)
  {
    match o
    case OfLease(i) => SetLease(b, i, b.leases[i].(slot := claim.Some?, claim := claim))
    case OfPending(i) => b.(pendings := b.pendings[i := b.pendings[i].(slot := claim.Some?, claim := claim)])
  }

  // ----- large-body slots -----

  predicate NeedsSlot(c: Config, b: Books, o: Owner, next: nat)
    requires Known(b, o)
  {
    c.largeLimit != 0 && !HasSlot(b, o) && next > c.largeThreshold
  }

  /** Claims a slot when the owner grows past the threshold without one. */
  function ClaimSlot(c: Config, b: Books, o: Owner, next: nat): Reply
    requires Known(b, o)
  {
    if !NeedsSlot(c, b, o, next) then Done(b)
    else if |b.holders| >= c.largeLimit then Broken(CapacityChanged)
    else
      Done(SetClaim(b, o, Some(b.claims))
             .(holders := b.holders[b.claims := Holder(o, next)], claims := b.claims + 1))
  }

  function UpdateHolder(b: Books, o: Owner, bytes: nat): Reply
    requires Known(b, o)
  {
    if !HasSlot(b, o) then Done(b)
    else match Claim(b, o)
      case Some(id) =>
        if id in b.holders then Done(b.(holders := b.holders[id := Holder(o, bytes)])) else Broken(HolderMissing)
      case None => Broken(HolderMissing)
  }

  function ReleaseSlot(b: Books, o: Owner): Reply
    requires Known(b, o)
  {
    if !HasSlot(b, o) then Done(b)
    else match Claim(b, o)
      case Some(id) =>
        if id in b.holders then Done(SetClaim(b, o, None).(holders := b.holders - {id})) else Broken(HolderMissing)
      case None => Broken(HolderMissing)
  }

  /** Slot and holder record brought into line with an owner's current bytes. */
  function Settle(c: Config, b: Books, o: Owner): Reply
    requires Known(b, o)
  {
    match ClaimSlot(c, b, o, Bytes(b, o))
    case Done(claimed) => UpdateHolder(claimed, o, Bytes(b, o))
    case r => r
  }

  // ----- body bytes -----

  predicate SmallLane(c: Config, next: nat) { c.smallThreshold != 0 && next <= c.smallThreshold }

  function LaneBudget(c: Config, small: bool): int {
    if small then c.budget else Max(0, c.budget - c.smallReserve)
  }

  predicate OwnerActive(b: Books, o: Owner)
    requires Known(b, o)
  {
    match o
    case OfLease(i) => !b.leases[i].releaseRequested
    case OfPending(i) => !b.pendings[i].transferred && !b.pendings[i].released
  }

  /** Refusals that waiting cannot cure. */
  function HardRefusal(c: Config, b: Books, o: Owner, next: nat): Option<Refusal>
    requires Known(b, o)
  {
    if !OwnerActive(b, o) then Some(Inactive)
    else if ResourceOnly(b, o) then None
    else if next > c.maxBody then Some(BodyTooLarge)
    else if o.OfLease? && next + b.leases[o.index].response > c.maxRetained then Some(BudgetExhausted)
    else None
  }

  /** What makes a growth wait. */
  function Unavailable(c: Config, b: Books, o: Owner, next: nat, additional: nat): Option<Refusal>
    requires Known(b, o)
  {
    if b.body + b.response + additional > LaneBudget(c, SmallLane(c, next)) then Some(BudgetExhausted)
    else if NeedsSlot(c, b, o, next) && |b.holders| >= c.largeLimit then Some(LargeCapacityExhausted)
    else None
  }

  /** The first refusal of a growth, in the order in which the checks are made. */
  function GrowthRefusal(c: Config, b: Books, o: Owner, additional: nat): Option<Refusal>
    requires Known(b, o)
  {
    var next := Bytes(b, o) + additional;
    match HardRefusal(c, b, o, next)
    case Some(r) => Some(r)
    case None => Unavailable(c, b, o, next, additional)
  }

  function GrownBooks(b: Books, o: Owner, additional: nat): Books
    requires Known(b, o)
  {
    SetBytes(b, o, Bytes(b, o) + additional).(
      body := b.body + additional,
      pendingBody := if o.OfPending? then b.pendingBody + additional else b.pendingBody)
  }

  function CommitGrowth(c: Config, b: Books, o: Owner, additional: nat): Reply
    requires Known(b, o)
  {
    Settle(c, GrownBooks(b, o, additional), o)
  }

  /** A reservation's bytes, and its slot if it has one, in the hands of a lease. */
  function MovedBooks(b: Books, p: nat, i: nat): Books
    requires p < |b.pendings| && i < |b.leases|
    requires b.pendings[p].bytes <= b.pendingBody
    requires b.pendings[p].slot ==> b.pendings[p].claim.Some?
  {
    var from, to := b.pendings[p], b.leases[i];
    var next := to.body + from.bytes;
    var moved := b.(
      pendingBody := b.pendingBody - from.bytes,
      pendings := b.pendings[p := from.(bytes := 0, transferred := true)],
      leases := b.leases[i := to.(body := next)]);
    if !from.slot then moved
    else
      SetClaim(SetClaim(moved, OfPending(p), None), OfLease(i), from.claim)
        .(holders := b.holders[from.claim.value := Holder(OfLease(i), next)])
  }

  /** The body bytes of a reservation move to a lease, and a slot with them. */
  function Transfer(c: Config, b: Books, p: nat, i: nat): Reply
    requires p < |b.pendings| && i < |b.leases|
  {
    var from, to := b.pendings[p], b.leases[i];
    var next := to.body + from.bytes;
    if to.releaseRequested then Refused(Inactive)
    else if !to.resourceOnly && next > c.maxBody then Refused(TransferTooLarge)
    else if from.resourceOnly != to.resourceOnly then Refused(ModeChanged)
    else if from.bytes > b.pendingBody then Broken(PendingUnderflow)
    else if from.slot && to.slot then Refused(DoubleTransfer)
    else if from.slot && (from.claim.None? || from.claim.value !in b.holders) then Broken(HolderMissing)
    else if !from.slot && NeedsSlot(c, b, OfLease(i), next) && |b.holders| >= c.largeLimit then
      Refused(LargeCapacityExhausted)
    else Settle(c, MovedBooks(b, p, i), OfLease(i))
  }

  function DrainedPending(b: Books, p: nat): Books
    requires p < |b.pendings| && b.pendings[p].bytes <= b.pendingBody && b.pendings[p].bytes <= b.body
  {
    SetBytes(b, OfPending(p), 0)
      .(body := b.body - b.pendings[p].bytes, pendingBody := b.pendingBody - b.pendings[p].bytes)
  }

  /** The release critical section of a pending reservation; its flag is set later. */
  function ReleasePending(b: Books, p: nat): Reply
    requires p < |b.pendings|
  {
    if b.pendings[p].bytes > b.pendingBody then Broken(PendingUnderflow)
    else if b.pendings[p].bytes > b.body then Broken(BodyUnderflow)
    else ReleaseSlot(DrainedPending(b, p), OfPending(p))
  }

  function MarkPendingReleased(b: Books, p: nat): Books
    requires p < |b.pendings|
  {
    b.(pendings := b.pendings[p := b.pendings[p].(released := true)])
  }

  function ShrunkBooks(b: Books, i: nat, bytes: nat): Books
    requires i < |b.leases| && bytes <= b.leases[i].body && bytes <= b.body
  {
    SetBytes(b, OfLease(i), b.leases[i].body - bytes).(body := b.body - bytes)
  }

  /** A request gives back part of its body bytes while it is still active. */
  function ReleaseStaged(b: Books, i: nat, bytes: nat): Reply
    requires i < |b.leases|
  {
    var l := b.leases[i];
    if bytes == 0 || l.releaseRequested then Done(b)
    else if bytes > l.body then Refused(StagedTooLarge)
    else if bytes > b.body then Broken(BodyUnderflow)
    else if l.body == bytes then ReleaseSlot(ShrunkBooks(b, i, bytes), OfLease(i))
    else UpdateHolder(ShrunkBooks(b, i, bytes), OfLease(i), l.body - bytes)
  }

  // ----- response bytes -----

  function Cycle(l: Lease, k: Key): Lifecycle { if k in l.cycles then l.cycles[k] else BLANK }

  function SetCycle(l: Lease, k: Key, c: Lifecycle): Lease { l.(cycles := l.cycles[k := c]) }

  function CurrentKey(l: Lease): Key { if l.attempt.Some? then l.attempt.value else UNATTRIBUTED }

  /** The first limit of the ledger itself that a response growth would break. */
  function ResponseRefusal(c: Config, b: Books, i: nat, additional: nat): Option<Refusal>
    requires i < |b.leases|
  {
    var l := b.leases[i];
    if l.response + additional > c.maxResponse then Some(ResponseTooLarge)
    else if l.body + l.response + additional > c.maxRetained then Some(RetainedTooLarge)
    else if b.body + b.response + additional > c.budget then Some(GlobalBudget)
    else None
  }

  /** A refused response growth is charged to its attempt. */
  function Rejected(l: Lease, k: Key, additional: nat): Lease {
    var y := Cycle(l, k);
    SetCycle(l, k, y.(requested := y.requested + additional, rejections := y.rejections + 1,
                      rejectedBytes := y.rejectedBytes + additional))
  }

  function RecordRejection(b: Books, i: nat, k: Key, additional: nat): Books
    requires i < |b.leases|
  {
    SetLease(b, i, Rejected(b.leases[i], k, additional))
  }

  /** Stores a lease whose response bytes have grown, and grows the global counter with it. */
  function AddResponse(b: Books, i: nat, l: Lease, additional: nat): Books
    requires i < |b.leases|
  {
    SetLease(b, i, l).(response := b.response + additional)
  }

  function IndexOf(a: seq<Allocation>, id: AllocationId): nat
    ensures IndexOf(a, id) <= |a|
    ensures IndexOf(a, id) < |a| ==> a[IndexOf(a, id)].id == id
  {
    if a == [] || a[0].id == id then 0 else 1 + IndexOf(a[1..], id)
  }

  /** The bytes an entry already has. */
  function EntryBytes(a: seq<Allocation>, id: AllocationId): nat {
    if IndexOf(a, id) < |a| then a[IndexOf(a, id)].bytes else 0
  }

  /** Insertion-ordered dictionary assignment. */
  function PutAllocation(a: seq<Allocation>, x: Allocation): seq<Allocation> {
    var at := IndexOf(a, x.id);
    if at < |a| then a[at := x] else a + [x]
  }

  /** A direct reservation is committed to the lease at once, under the attempt's own entry. */
  function Directed(l: Lease, additional: nat): Lease {
    var k := CurrentKey(l);
    var y := Cycle(l, k);
    SetCycle(l, k, y.(started := y.started + 1, requested := y.requested + additional,
                      commits := y.commits + 1, committed := y.committed + additional))
      .(response := l.response + additional,
        allocations := PutAllocation(l.allocations,
                         Allocation(Direct(k), k, EntryBytes(l.allocations, Direct(k)) + additional)))
  }

  function ReserveDirect(b: Books, i: nat, additional: nat): Books
    requires i < |b.leases|
  {
    AddResponse(b, i, Directed(b.leases[i], additional), additional)
  }

  /** A temporary reservation becomes an owner of its lease's memory. */
  function Activated(l: Lease, additional: nat): Lease {
    var k := CurrentKey(l);
    var y := Cycle(l, k);
    SetCycle(l, k, y.(started := y.started + 1, requested := y.requested + additional))
      .(response := l.response + additional, owners := l.owners + 1)
  }

  function ActivateTemp(b: Books, i: nat, additional: nat): Books
    requires i < |b.leases|
  {
    AddResponse(b, i, Activated(b.leases[i], additional), additional)
      .(temps := b.temps + [Temp(i, CurrentKey(b.leases[i]), additional, false, false)])
  }

  function Grown(l: Lease, k: Key, additional: nat): Lease {
    var y := Cycle(l, k);
    SetCycle(l, k, y.(requested := y.requested + additional)).(response := l.response + additional)
  }

  function GrowTemp(b: Books, t: nat, additional: nat): Books
    requires t < |b.temps| && b.temps[t].lease < |b.leases|
  {
    var x := b.temps[t];
    AddResponse(b, x.lease, Grown(b.leases[x.lease], x.key, additional), additional)
      .(temps := b.temps[t := x.(size := x.size + additional)])
  }

  /** The bytes of a temporary pass to its lease, and the temporary stops being an owner. */
  function Committed(l: Lease, t: nat, x: Temp): Lease {
    var y := Cycle(l, x.key);
    SetCycle(l, x.key, y.(commits := y.commits + 1, committed := y.committed + x.size))
      .(allocations := PutAllocation(l.allocations, Allocation(FromTemporary(t), x.key, x.size)))
  }

  function BeforeCommitEnds(b: Books, t: nat): Books
    requires t < |b.temps| && b.temps[t].lease < |b.leases|
  {
    var x := b.temps[t];
    SetLease(b, x.lease, Committed(b.leases[x.lease], t, x)).(temps := b.temps[t := x.(committed := true)])
  }

  function CommitTemp(b: Books, t: nat): Reply
    requires t < |b.temps| && b.temps[t].lease < |b.leases|
  {
    if b.temps[t].released then Refused(Inactive)
    else if b.temps[t].committed then Done(b)
    else FinishOwner(BeforeCommitEnds(b, t), b.temps[t].lease)
  }

  /** The bytes of a temporary are given back. */
  function RolledBack(l: Lease, x: Temp): Lease
    requires x.size <= l.response
  {
    var y := Cycle(l, x.key);
    SetCycle(l, x.key, y.(rollbacks := y.rollbacks + 1, rolledBack := y.rolledBack + x.size))
      .(response := l.response - x.size)
  }

  function BeforeReleaseEnds(b: Books, t: nat): Books
    requires t < |b.temps| && b.temps[t].lease < |b.leases|
    requires b.temps[t].size <= b.leases[b.temps[t].lease].response && b.temps[t].size <= b.response
  {
    var x := b.temps[t];
    SetLease(b, x.lease, RolledBack(b.leases[x.lease], x))
      .(response := b.response - x.size, temps := b.temps[t := x.(released := true)])
  }

  /** Releasing again, or after a commit, does nothing. */
  function ReleaseTemp(b: Books, t: nat): Reply
    requires t < |b.temps| && b.temps[t].lease < |b.leases|
  {
    var x := b.temps[t];
    if !x.Live() then Done(b)
    else if x.size > b.leases[x.lease].response || x.size > b.response then Broken(ResponseUnderflow)
    else FinishOwner(BeforeReleaseEnds(b, t), x.lease)
  }

  // ----- lease lifetime -----

  function Defer(b: Books, i: nat): Reply
    requires i < |b.leases|
  {
    var l := b.leases[i];
    if l.releaseRequested || l.finalized then Refused(Inactive)
    else Done(SetLease(b, i, l.(owners := l.owners + 1)).(deferrals := b.deferrals + [Deferral(i, false)]))
  }

  function ReleaseDeferral(b: Books, d: nat): Reply
    requires d < |b.deferrals| && b.deferrals[d].lease < |b.leases|
  {
    var x := b.deferrals[d];
    if x.released then Done(b)
    else FinishOwner(b.(deferrals := b.deferrals[d := x.(released := true)]), x.lease)
  }

  function RequestRelease(b: Books, i: nat): Books
    requires i < |b.leases|
  {
    SetLease(b, i, b.leases[i].(releaseRequested := true))
  }

  /** The release critical section: finalize now, or leave that to the last owner. */
  function RunRelease(b: Books, i: nat): Reply
    requires i < |b.leases|
  {
    var l := b.leases[i];
    if !l.releaseRequested then Done(b)
    else if l.owners != 0 then Done(SetLease(b, i, l.(releaseRan := true)).(deferred := b.deferred + {i}))
    else Finalize(SetLease(b, i, l.(releaseRan := true)), i)
  }

  function FinishOwner(b: Books, i: nat): Reply
    requires i < |b.leases|
  {
    var l := b.leases[i];
    if l.owners <= 0 then Broken(OwnerUnderflow)
    else
      var left := SetLease(b, i, l.(owners := l.owners - 1));
      if l.releaseRequested && l.owners == 1 then Finalize(left, i) else Done(left)
  }

  /** The bytes of the allocations of one attempt, or of all of them. */
  function AllocatedBytes(a: seq<Allocation>, only: Option<Key>): nat {
    if a == [] then 0 else
      var x := a[|a| - 1];
      AllocatedBytes(a[..|a| - 1], only) + if only.None? || only.value == x.key then x.bytes else 0
  }

  /** The allocations released at finalization, completed by a synthetic one if bytes are missing. */
  function FinalAllocations(l: Lease): seq<Allocation> {
    var total := AllocatedBytes(l.allocations, None);
    if total >= l.response then l.allocations
    else l.allocations + [Allocation(Synthetic, CurrentKey(l), l.response - total)]
  }

  /** The attempt records after every allocation has been released in turn. */
  function ReleasedCycles(cycles: map<Key, Lifecycle>, a: seq<Allocation>): map<Key, Lifecycle> {
    if a == [] then cycles else
      var before := ReleasedCycles(cycles, a[..|a| - 1]);
      var x := a[|a| - 1];
      var y := if x.key in before then before[x.key] else BLANK;
      before[x.key := y.(releases := y.releases + 1, released := y.released + x.bytes)]
  }

  function FinalLease(l: Lease): Lease {
    l.(body := 0, response := 0, allocations := [], cycles := map[],
       summaries := ReleasedCycles(l.cycles, FinalAllocations(l)) - {UNATTRIBUTED}, finalized := true)
  }

  /** The state of a finalization before its slot is given up. */
  function Emptied(b: Books, i: nat): Books
    requires i < |b.leases| && b.leases[i].body <= b.body && b.leases[i].response <= b.response
  {
    var l := b.leases[i];
    SetLease(b, i, FinalLease(l))
      .(body := b.body - l.body, response := b.response - l.response, deferred := b.deferred - {i})
  }

  /** Gives back everything a lease owns, once. */
  function Finalize(b: Books, i: nat): Reply
    requires i < |b.leases|
  {
    var l := b.leases[i];
    if l.finalized then Done(b)
    else if l.body > b.body then Broken(BodyUnderflow)
    else if l.response > b.response then Broken(ResponseUnderflow)
    else if AllocatedBytes(l.allocations, None) > l.response then Broken(LedgerOverflow)
    else
      ReleaseSlot(Emptied(b, i), OfLease(i))
  }

  // ----- attempts -----

  /** Binds response ownership to the attempt now executing; an earlier record of the key is kept. */
  function BeginAttempt(b: Books, i: nat, k: Key): Books
    requires i < |b.leases|
  {
    var l := b.leases[i];
    if l.releaseRequested then b
    else SetLease(b, i, SetCycle(l, k, Cycle(l, k)).(attempt := Some(k)))
  }

  function EndAttempt(b: Books, i: nat): Books
    requires i < |b.leases|
  {
    SetLease(b, i, b.leases[i].(attempt := None))
  }
}
