/**
 * One direction of one stream end to end: a sender, a receiver, and a network that
 * may drop, duplicate, reorder and delay.  `net` only grows, and any frame in it may
 * be received any number of times, or never.
 */
module System {
  import opened Bytes
  import opened Geometry
  import opened Receiver
  import opened Exactness
  import opened Peeling
  import opened Wire
  import opened Ledger
  import opened Sender

  type Key = (bool, nat)

  datatype Sys = Sys(
    s: SState,
    r: RState,
    net: set<Frame>,
    got: Bytes,                // bytes returned by Read so far
    seen: set<nat>,            // DATA frames received while the read side was live
    arrived: map<Key, nat>,    // parities received while it was live, with their member counts
    evicted: set<Key>)         // those of them last dropped by the pending cap

  datatype Action =
    | Write(chunk: Bytes, limit: int)
    | Close
    | Abort(code: Bytes)
    | Resend(sn: nat)
    | RecvData(f: Frame, ramp: set<nat>)
    | RecvParity(f: Frame, ramp: set<nat>)
    | RecvFin(f: Frame)
    | RecvReset(f: Frame)
    | RecvStop(f: Frame)
    | Read(n: nat)
    | SendAck
    | Advertise(offset: nat)
    | RecvAck(f: Frame)
    | RecvWindow(f: Frame)
    | CancelReading
    | CloseConnection

  function Start(c: Config): Sys
    requires c.Valid()
  {
    Sys(Begin(c), Fresh(c), {}, [], {}, map[], {})
  }

  /** The connection stops feeding a stream once it has been closed. */
  predicate Fed(y: Sys, f: Frame) {
    f in y.net && !y.r.readErr.StreamClosed?
  }

  predicate Enabled(c: Config, y: Sys, a: Action) {
    match a
    case Write(chunk, limit) =>
      && 0 < |chunk| <= c.DataCap() && !y.s.fin && !y.s.failed
      && limit <= c.MaxBuf() && MayWrite(y.s, |chunk|, limit)
      && (y.s.lanes == [] || |y.s.lanes| == c.group)
    case Resend(sn) => sn in y.s.unacked && sn < |y.s.sent| && !y.s.failed
    case RecvData(f, _) => Fed(y, f) && f.DataFrame?
    case RecvParity(f, _) => Fed(y, f) && f.ParityFrame? && Acceptable(c, y.r, f.row, f.base, f.p)
    case RecvFin(f) => Fed(y, f) && f.FinFrame?
    case RecvReset(f) => Fed(y, f) && f.ResetFrame?
    case RecvStop(f) => f in y.net && f.StopFrame?
    case Read(_) => y.r.ring != []
    case Advertise(offset) => offset <= y.r.peerOffset
    case RecvAck(f) => f in y.net && f.AckFrame?
    case RecvWindow(f) => f in y.net && f.WindowFrame?
    case _ => true
  }

  function Send(y: Sys, o: Out): Sys {
    y.(s := o.s, net := y.net + o.frames)
  }

  /** The group that buffering this parity pushes out. */
  function Evicts(c: Config, ramp: set<nat>, r: RState, row: bool, base: nat, p: Parity): set<Key> {
    if TryReconstruct(c, ramp, r, row, base, p).outcome.FecPending? &&
       base !in r.Pend(row) && |r.Pend(row)| >= FEC_PENDING_CAP
    then {(row, MinKey(r.Pend(row).Keys))}
    else {}
  }

  function AckFrames(cum: nat, seqs: seq<nat>): set<Frame> {
    set i, j | 0 <= i <= |seqs| && 0 <= j <= |seqs| && i <= j :: AckFrame(cum, seqs[i..j])
  }

  function Do(c: Config, y: Sys, a: Action): Sys
    requires Enabled(c, y, a)
  {
    match a
    case Write(chunk, _) => Send(y, WriteChunk(c, y.s, chunk))
    case Close => Send(y, CloseWrite(y.s))
    case Abort(code) => Send(y, AbortWrite(y.s, code))
    case Resend(sn) => y.(net := y.net + {DataFrame(sn, y.s.unacked[sn])})
    case RecvData(f, ramp) =>
      y.(r := Deliver(c, ramp, y.r, f.sn, f.payload, false).r,
         seen := if y.r.Live() then y.seen + {f.sn} else y.seen)
    case RecvParity(f, ramp) =>
      y.(r := ApplyFec(c, ramp, y.r, f.row, f.base, f.p).r,
         arrived := y.arrived[(f.row, f.base) := f.p.count],
         evicted := y.evicted - {(f.row, f.base)} + Evicts(c, ramp, y.r, f.row, f.base, f.p))
    case RecvFin(f) => y.(r := Deliver(c, {}, y.r, f.sn, [], true).r)
    case RecvReset(f) => y.(r := DeliverReset(y.r), net := y.net + {AckFrame(0, [f.sn])})
    case RecvStop(_) => Send(y, AbortWrite(y.s, []))
    case Read(n) => y.(got := y.got + y.r.ring[..Min(n, |y.r.ring|)], r := ReadSome(c, y.r, n))
    case SendAck =>
      var k := AckSnapshot(y.r);
      y.(r := k.r, net := y.net + AckFrames(k.cum, k.seqs) + {WindowFrame(k.granted)})
    case Advertise(offset) => y.(net := y.net + {WindowFrame(offset)})
    case RecvAck(f) => y.(s := HandleAck(y.s, f.cum, f.seqs))
    case RecvWindow(f) => y.(s := SetMaxOffset(y.s, f.offset))
    case CancelReading => y.(r := CancelRead(y.r), net := y.net + {StopFrame})
    case CloseConnection => y.(r := Fail(y.r, StreamClosed))
  }

  function Step(c: Config, y: Sys, a: Action): Sys {
    if Enabled(c, y, a) then Do(c, y, a) else y
  }

  /** A run: any finite schedule of actions, those not possible at their turn skipped. */
  function Run(c: Config, acts: seq<Action>): Sys
    requires c.Valid()
  {
    if acts == [] then Start(c) else Step(c, Run(c, acts[..|acts| - 1]), acts[|acts| - 1])
  }

  // --- the invariant ---

  /** The read side was cancelled or reset: what was buffered is gone. */
  predicate Dropped(r: RState) {
    r.canceled || r.readErr.StreamReset?
  }

  /** Credit granted and not yet consumed is exactly the free ring; less than a quarter of it is withheld. */
  predicate Balanced(r: RState, got: Bytes) {
    r.peerOffset + r.grantPending == r.cap + |got| && 4 * r.grantPending + 4 <= r.cap
  }

  ghost predicate ReaderOk(c: Config, s: SState, r: RState, got: Bytes) {
    if Dropped(r) then r.ring == [] && r.reorder == map[] && got <= Flatten(s.sent)
    else if r.readErr.EOF? then
      && s.fin && !s.failed && r.finRecvd && r.finSeq == |s.sent|
      && got + r.ring == Flatten(s.sent) && r.reorder == map[]
      && |s.sent| <= r.readSeq
    else
      && Core(c, s.sent, got, r)
      && Balanced(r, got)
      && 2 * c.maxPayload <= r.cap
      && (r.readErr.NoErr? ==> FinOk(s.sent, r))
      && (r.finRecvd ==> s.fin && !s.failed && r.finSeq == |s.sent|)
  }

  /** The receiver never passes the position after the last frame, nor the FIN's own. */
  predicate PositionOk(s: SState, r: RState) {
    r.readSeq <= |s.sent| + (if s.fin then 1 else 0)
  }

  ghost predicate WriterOk(c: Config, s: SState) {
    && c.Valid()
    && ChunksOk(c, s.sent)
    && s.sentOffset == |Flatten(s.sent)| <= s.maxOffset
    && (s.failed ==> s.fin)
    && (!s.fin ==> LanesOk(c, s))
    && (!s.failed ==>
          && Records(s.sent, s.unacked)
          && s.ackedBytes + InFlight(s.sent, s.unacked) == s.sentOffset
          && InFlight(s.sent, s.unacked) <= c.MaxBuf()
          && s.ackedThrough <= |s.sent| + 1
          && (!s.fin ==> s.ackedThrough <= |s.sent|)
          && (forall k :: k in s.unacked ==> s.ackedThrough <= k <= |s.sent| && (k == |s.sent| ==> s.fin)))
  }

  /** A sequence number the receiver may acknowledge. */
  predicate Ackable(r: RState, x: nat) {
    Has(r, x) || (r.finRecvd && x == r.finSeq)
  }

  ghost predicate FrameOk(c: Config, s: SState, r: RState, f: Frame) {
    match f
    case DataFrame(sn, payload) => sn < |s.sent| && payload == s.sent[sn]
    case ParityFrame(row, base, p) => OnWire(c, s, row, base, p)
    case FinFrame(sn) => s.fin && !s.failed && sn == |s.sent|
    case ResetFrame(sn) => s.failed
    case AckFrame(cum, seqs) => cum <= r.readSeq && (!Dropped(r) ==> forall x :: x in seqs ==> Ackable(r, x))
    case WindowFrame(offset) => offset <= r.peerOffset
    case StopFrame => true
  }

  ghost predicate NetOk(c: Config, s: SState, r: RState, net: set<Frame>) {
    forall f :: f in net ==> FrameOk(c, s, r, f)
  }

  predicate AcksOk(r: RState) {
    !Dropped(r) ==>
      && (forall x :: x in r.ackPending ==> Ackable(r, x))
      && (forall x :: x in r.ackReplay ==> Ackable(r, x))
  }

  /** Every frame sent is still in the retransmit queue or held by the receiver; the FIN likewise. */
  predicate NoLoss(s: SState, r: RState) {
    !s.failed && !Dropped(r) ==>
      && (forall sn: nat :: sn < |s.sent| ==> sn in s.unacked || Has(r, sn))
      && (s.fin ==> |s.sent| in s.unacked || r.finRecvd)
  }

  ghost predicate ClosureOk(c: Config, y: Sys) {
    y.r.Live() ==>
      && (forall x :: x in y.seen ==> Has(y.r, x))
      && QuietExcept(c, y.r, {})
      && PendArrived(y.r, y.arrived)
      && Served(c, y)
      && (forall C :: y.seen <= C && ArrivedClosed(c, C, y.arrived) ==> Within(y.r, C))
  }

  /** C obeys the recovery rule of every parity that arrived. */
  ghost predicate ArrivedClosed(c: Config, C: set<nat>, arrived: map<Key, nat>) {
    forall k :: k in arrived ==> Closed(c, C, k.0, k.1, arrived[k])
  }

  predicate PendArrived(r: RState, arrived: map<Key, nat>) {
    && (forall b :: b in r.colPend ==> (false, b) in arrived && arrived[(false, b)] == r.colPend[b].count)
    && (forall b :: b in r.rowPend ==> (true, b) in arrived && arrived[(true, b)] == r.rowPend[b].count)
  }

  /** An arrived parity that was not evicted is buffered, or its group is complete. */
  predicate Served(c: Config, y: Sys) {
    forall k :: k in y.arrived && k !in y.evicted ==>
      k.1 in y.r.Pend(k.0) || AllHere(c, y.r, k.0, k.1, y.arrived[k])
  }

  predicate ArrivedOk(c: Config, s: SState, arrived: map<Key, nat>) {
    forall k :: k in arrived ==> Uses(c, k.0) && GroupCount(c, s, k.0, k.1, arrived[k])
  }

  ghost predicate Inv(c: Config, y: Sys) {
    && WriterOk(c, y.s)
    && y.s.maxOffset <= y.r.peerOffset
    && PositionOk(y.s, y.r)
    && ReaderOk(c, y.s, y.r, y.got)
    && NetOk(c, y.s, y.r, y.net)
    && AcksOk(y.r)
    && NoLoss(y.s, y.r)
    && ArrivedOk(c, y.s, y.arrived)
    && ClosureOk(c, y)
  }
}
