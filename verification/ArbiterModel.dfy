/** The APDU arbiter's data, and what each decision of its scheduler means: which waiting
    request may be granted in a given state of the queue, the active leases and the barriers. */
module ArbiterModel {
  import opened Wrappers
  import Text

  type ApduClass = string

  const USIM_AKA: ApduClass := "USIMAKA"
  const SMSC: ApduClass := "SMSC"
  const EUICC_WRITE: ApduClass := "EUICCWrite"

  /** Durations are in nanoseconds, as in the program. */
  const MILLISECOND: int := 1_000_000
  const TRANSPORT_PRIORITY_AGING: int := 500 * MILLISECOND
  const DEFAULT_MAX_LEASE_HOLD: int := 120_000 * MILLISECOND

  datatype LeaseType = Session | OneShot | Transport

  datatype Scope = Exclusive | QmiChannel

  datatype Kind = Lease(leaseType: LeaseType) | Barrier(blocked: set<ApduClass>)

  /** A waiting request. The owner and mode labels, which are only logged, are not kept. */
  datatype Ticket = Ticket(id: nat, cls: ApduClass, channel: int, scope: Scope, kind: Kind, enqueued: int) {
    predicate IsTransport() { kind.Lease? && kind.leaseType.Transport? }
    predicate Blocks(c: ApduClass) { kind.Barrier? && c in kind.blocked }

    /** What the two constructors of tickets guarantee. */
    predicate WellFormed() {
      && id > 0
      && (scope.QmiChannel? ==> IsTransport() && channel > 0)
    }
  }

  datatype Options = Options(maxLeaseHold: int, maxSessions: int, maxQmiTransports: int) {
    predicate Normal() { maxLeaseHold > 0 && maxSessions > 0 && maxQmiTransports > 0 }

    function Normalize(): (o: Options)
      ensures o.Normal() && (Normal() ==> o == this)
    {
      Options(if maxLeaseHold <= 0 then DEFAULT_MAX_LEASE_HOLD else maxLeaseHold,
              if maxSessions <= 0 then 1 else maxSessions,
              if maxQmiTransports <= 0 then 1 else maxQmiTransports)
    }
  }

  /** What a caller asks for. */
  datatype Request = Request(mode: string, cls: ApduClass, channel: int, scope: Scope)

  function NormalizeClass(c: ApduClass, t: LeaseType): ApduClass {
    if c != "" then c else if t.OneShot? then USIM_AKA else EUICC_WRITE
  }

  function NormalizeMode(mode: string): string {
    var m := Text.ToUpper(Text.Trim(mode));
    if m == "" then "UNKNOWN" else m
  }

  function NormalizeScope(req: Request, t: LeaseType): Scope {
    if t.Transport? && req.scope.QmiChannel? && NormalizeMode(req.mode) == "QMI" && req.channel > 0
    then QmiChannel else Exclusive
  }

  function LeaseTicket(id: nat, req: Request, t: LeaseType, enqueued: int): (r: Ticket)
    requires id > 0
    ensures r.WellFormed() && r.kind == Lease(t) && r.id == id && r.enqueued == enqueued && r.cls != ""
  {
    Ticket(id, NormalizeClass(req.cls, t), req.channel, NormalizeScope(req, t), Lease(t), enqueued)
  }

  function BarrierTicket(id: nat, req: Request, blockedClasses: seq<ApduClass>, enqueued: int): (r: Ticket)
    requires id > 0
    ensures r.WellFormed() && r.kind.Barrier? && r.id == id && r.enqueued == enqueued
    ensures r.kind.blocked != {} && "" !in r.kind.blocked
    ensures forall i :: 0 <= i < |blockedClasses| && blockedClasses[i] != "" ==> blockedClasses[i] in r.kind.blocked
  {
    var named := set i | 0 <= i < |blockedClasses| :: NormalizeClass(blockedClasses[i], OneShot);
    assert forall i :: 0 <= i < |blockedClasses| && blockedClasses[i] != "" ==>
      NormalizeClass(blockedClasses[i], OneShot) == blockedClasses[i] && NormalizeClass(blockedClasses[i], OneShot) in named;
    Ticket(id, if req.cls == "" then "SwitchBarrier" else req.cls, req.channel, Exclusive,
           Barrier(if named == {} then {USIM_AKA, SMSC} else named), enqueued)
  }

  /** Everything a grant decision looks at. */
  datatype Sched = Sched(
    queue: seq<Ticket>, sessions: seq<Ticket>, oneshot: Option<Ticket>,
    transports: seq<Ticket>, barriers: seq<Ticket>)
  {
    function OneshotSeq(): seq<Ticket> { if oneshot.Some? then [oneshot.value] else [] }
    function Leases(): seq<Ticket> { sessions + OneshotSeq() + transports }
    predicate NoLease() { sessions == [] && oneshot.None? && transports == [] }
    predicate Idle() { NoLease() && barriers == [] && queue == [] }
  }

  predicate ClassBlocked(barriers: seq<Ticket>, c: ApduClass) {
    exists i :: 0 <= i < |barriers| && barriers[i].Blocks(c)
  }

  /** A barrier that blocks class c is queued before the ticket with this id. */
  predicate PendingBarrierAhead(queue: seq<Ticket>, id: nat, c: ApduClass) {
    exists i :: 0 <= i < |queue| && queue[i].Blocks(c) && forall j :: 0 <= j <= i ==> queue[j].id != id
  }

  predicate HasExclusive(transports: seq<Ticket>) {
    exists i :: 0 <= i < |transports| && transports[i].scope.Exclusive?
  }

  function QmiCount(transports: seq<Ticket>): nat {
    if transports == [] then 0
    else QmiCount(transports[..|transports| - 1]) + (if transports[|transports| - 1].scope.QmiChannel? then 1 else 0)
  }

  predicate ChannelBusy(transports: seq<Ticket>, channel: int) {
    exists i :: 0 <= i < |transports| && transports[i].scope.QmiChannel? && transports[i].channel == channel
  }

  /** The active transports leave room for t. */
  predicate TransportFits(o: Options, transports: seq<Ticket>, t: Ticket) {
    if t.scope.Exclusive? then transports == []
    else
      && !HasExclusive(transports)
      && QmiCount(transports) < o.maxQmiTransports
      && !ChannelBusy(transports, t.channel)
  }

  /** A transport request that does not fit holds back everything queued behind it. */
  predicate Gates(o: Options, transports: seq<Ticket>, t: Ticket) {
    t.scope.Exclusive? || HasExclusive(transports) || QmiCount(transports) >= o.maxQmiTransports
  }

  /** The scan of the queue for a transport to grant ends at t. */
  predicate Stops(o: Options, c: Sched, t: Ticket) {
    || !t.IsTransport()
    || (!ClassBlocked(c.barriers, t.cls) && !TransportFits(o, c.transports, t) && Gates(o, c.transports, t))
  }

  predicate Eligible(o: Options, c: Sched, t: Ticket) {
    t.IsTransport() && !ClassBlocked(c.barriers, t.cls) && TransportFits(o, c.transports, t)
  }

  predicate Aged(t: Ticket, now: int) { now - t.enqueued >= TRANSPORT_PRIORITY_AGING }

  /** The length of the queue's ungated prefix, counted from position i. */
  function WindowEnd(o: Options, c: Sched, i: nat): (r: nat)
    requires i <= |c.queue|
    ensures i <= r <= |c.queue|
    ensures forall j :: i <= j < r ==> !Stops(o, c, c.queue[j])
    ensures r < |c.queue| ==> Stops(o, c, c.queue[r])
    decreases |c.queue| - i
  {
    if i == |c.queue| || Stops(o, c, c.queue[i]) then i else WindowEnd(o, c, i + 1)
  }

  /** The three ways a transport can be the one to grant, strongest first. */
  datatype Pick = AgedOther | Aka | Any

  predicate Fits(o: Options, c: Sched, now: int, p: Pick, t: Ticket) {
    && Eligible(o, c, t)
    && match p
       case AgedOther => t.cls != USIM_AKA && Aged(t, now)
       case Aka => t.cls == USIM_AKA
       case Any => true
  }

  /** The first position of the ungated prefix, from i on, that fits p; the queue's length when there is none. */
  function FirstFit(o: Options, c: Sched, now: int, p: Pick, i: nat): (r: nat)
    requires i <= |c.queue|
    ensures i <= r <= |c.queue|
    ensures r < |c.queue| ==> r < WindowEnd(o, c, 0) && Fits(o, c, now, p, c.queue[r])
    ensures forall j :: i <= j < r && j < WindowEnd(o, c, 0) ==> !Fits(o, c, now, p, c.queue[j])
    decreases |c.queue| - i
  {
    if i >= WindowEnd(o, c, 0) then |c.queue|
    else if Fits(o, c, now, p, c.queue[i]) then i
    else FirstFit(o, c, now, p, i + 1)
  }

  /** The position of the transport request to grant next; the queue's length when there is none. */
  function SelectedIndex(o: Options, c: Sched, now: int): (r: nat)
    ensures r <= |c.queue|
  {
    var aged := FirstFit(o, c, now, AgedOther, 0);
    if aged < |c.queue| then aged
    else
      var aka := FirstFit(o, c, now, Aka, 0);
      if aka < |c.queue| then aka else FirstFit(o, c, now, Any, 0)
  }

  /** Zero stands for "none": ids start at one. */
  function SelectedTransport(o: Options, c: Sched, now: int): nat {
    var k := SelectedIndex(o, c, now);
    if k < |c.queue| then c.queue[k].id else 0
  }

  /** The number of tickets ahead of the oldest pending barrier; the queue's length when none is pending. */
  function FirstBarrier(queue: seq<Ticket>): (r: nat)
    ensures r <= |queue|
    ensures r < |queue| ==> queue[r].kind.Barrier?
    ensures forall i :: 0 <= i < r ==> queue[i].kind.Lease?
  {
    if queue == [] || queue[0].kind.Barrier? then 0 else 1 + FirstBarrier(queue[1..])
  }

  function SelectedBarrier(queue: seq<Ticket>): nat {
    var k := FirstBarrier(queue);
    if k < |queue| then queue[k].id else 0
  }

  predicate IsHead(queue: seq<Ticket>, id: nat) { |queue| > 0 && queue[0].id == id }

  predicate CanAcquireLease(o: Options, c: Sched, t: Ticket, now: int) {
    && t.kind.Lease?
    && !ClassBlocked(c.barriers, t.cls)
    && !PendingBarrierAhead(c.queue, t.id, t.cls)
    && match t.kind.leaseType
       case Session => IsHead(c.queue, t.id) && c.oneshot.None? && c.transports == [] && |c.sessions| < o.maxSessions
       case OneShot => IsHead(c.queue, t.id) && c.NoLease()
       case Transport => c.sessions == [] && c.oneshot.None? && SelectedTransport(o, c, now) == t.id
  }

  predicate CanAcquireBarrier(c: Sched, t: Ticket) {
    t.kind.Barrier? && c.NoLease() && SelectedBarrier(c.queue) == t.id
  }

  predicate CanAcquire(o: Options, c: Sched, t: Ticket, now: int) {
    CanAcquireLease(o, c, t, now) || CanAcquireBarrier(c, t)
  }

  function Ids(ts: seq<Ticket>): set<nat> { set i | 0 <= i < |ts| :: ts[i].id }

  predicate Distinct(ts: seq<Ticket>) {
    forall i, j :: 0 <= i < j < |ts| ==> ts[i].id != ts[j].id
  }

  /** The position of the first ticket with this id; the length when there is none. */
  function Find(ts: seq<Ticket>, id: nat): (r: nat)
    ensures r <= |ts|
    ensures r < |ts| ==> ts[r].id == id
    ensures forall i :: 0 <= i < r ==> ts[i].id != id
    ensures r < |ts| <==> id in Ids(ts)
  {
    if ts == [] then 0
    else if ts[0].id == id then assert ts[0].id in Ids(ts); 0
    else
      assert forall i :: 0 <= i < |ts[1..]| ==> ts[1..][i] == ts[i + 1];
      var r := 1 + Find(ts[1..], id);
      assert r < |ts| ==> ts[r].id in Ids(ts);
      assert r == |ts| ==> forall i :: 0 <= i < |ts| ==> ts[i].id != id;
      r
  }

  function Without(ts: seq<Ticket>, id: nat): seq<Ticket> {
    var k := Find(ts, id);
    if k < |ts| then ts[..k] + ts[k + 1..] else ts
  }
}
