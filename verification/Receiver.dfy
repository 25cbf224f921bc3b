/**
 * The read side of a stream as a value, and every locked operation on it as a
 * function of that value.  The functions are total: they say what the receiver
 * does with any frame, genuine or not.  `StreamReader` refines them in place.
 */
module Receiver {
  import opened Bytes
  import opened Geometry

  const FEC_PENDING_CAP := 64
  const MAX_NACK_SEQS_PER_FIRE := 1024

  datatype ReadErr = NoErr | EOF | StreamReset | StreamClosed

  /** Running XOR of the members of one group that were delivered into the ring. */
  datatype Accum = Accum(folded: set<nat>, data: Bytes, lenXor: nat)

  /** The body of a parity frame: how many members, XOR of their lengths, XOR of their data. */
  datatype Parity = Parity(count: nat, lenXor: nat, data: Bytes)

  datatype RState = RState(
    ring: Bytes,                  // buffered bytes, oldest first
    cap: nat,                     // ring capacity
    readSeq: nat,                 // next expected sequence number
    reorder: map<nat, Bytes>,     // out-of-order frames
    reorderBytes: int,
    ackPending: seq<nat>,
    ackReplay: seq<nat>,
    finRecvd: bool,
    finSeq: nat,
    readErr: ReadErr,
    canceled: bool,
    grantPending: nat,
    peerOffset: nat,
    maxSeen: nat,
    colAcc: map<nat, Accum>,
    rowAcc: map<nat, Accum>,
    colPend: map<nat, Parity>,
    rowPend: map<nat, Parity>)
  {
    function Acc(row: bool): map<nat, Accum> {
      if row then rowAcc else colAcc
    }

    function Pend(row: bool): map<nat, Parity> {
      if row then rowPend else colPend
    }

    function WithPend(row: bool, m: map<nat, Parity>): RState {
      if row then this.(rowPend := m) else this.(colPend := m)
    }

    function NumPend(): nat {
      |colPend| + |rowPend|
    }

    predicate Live() {
      readErr.NoErr? && !canceled
    }
  }

  /** The state of a fresh stream. */
  function Fresh(c: Config): RState
    requires c.Valid()
  {
    RState([], c.InitialWindow(), 0, map[], 0, [], [], false, 0, NoErr, false, 0, c.InitialWindow(), 0,
           map[], map[], map[], map[])
  }

  // --- flow-control grants and ring growth ---

  function Grant(r: RState, delta: int): RState {
    if delta <= 0 then r else r.(peerOffset := r.peerOffset + delta)
  }

  /** Doubles cap until it reaches want. */
  function Doubled(cap: nat, want: int): nat
    decreases want - cap
  {
    if cap == 0 || want <= cap then cap else Doubled(2 * cap, want)
  }

  datatype Room = Room(ok: bool, r: RState)

  /** Makes the ring hold n more bytes, growing it when it must and may. */
  function MakeRoom(c: Config, r: RState, n: nat): (m: Room)
    ensures m.r == r.(cap := m.r.cap, peerOffset := m.r.peerOffset)
    ensures !m.ok ==> m.r == r
  {
    if |r.ring| + n <= r.cap then Room(true, r)
    else
      var newCap := Min(Doubled(r.cap, |r.ring| + n), c.MaxBuf());
      if newCap <= r.cap || |r.ring| + n > newCap then Room(false, r)
      else Room(true, Grant(r.(cap := newCap), newCap - r.cap))
  }

  /** The ramp: `ramp` holds the positions at which the clock lets the ring grow early. */
  function MaybeGrow(c: Config, ramp: set<nat>, r: RState): (m: RState)
    ensures m == r.(cap := m.cap, peerOffset := m.peerOffset)
  {
    if r.cap >= c.MaxBuf() then r
    else if |r.ring| * 2 < r.cap && r.readSeq !in ramp then r
    else
      var newCap := Min(r.cap * 2, c.MaxBuf());
      Grant(r.(cap := newCap), newCap - r.cap)
  }

  function MaybeEOF(r: RState): RState {
    if r.finRecvd && r.readSeq >= r.finSeq && r.readErr.NoErr? then r.(readErr := EOF) else r
  }

  // --- running XORs of delivered frames ---

  function FoldAcc(accs: map<nat, Accum>, base: nat, idx: nat, data: Bytes): map<nat, Accum> {
    if base !in accs then accs[base := Accum({idx}, data, |data|)]
    else if idx in accs[base].folded then accs
    else
      var a := accs[base];
      accs[base := Accum(a.folded + {idx}, PadXor(a.data, data), NatXor(a.lenXor, |data|))]
  }

  /** Drops the groups whose last possible member is below readSeq, once there are more than 2G. */
  function SweepAcc(c: Config, row: bool, accs: map<nat, Accum>, readSeq: nat): map<nat, Accum>
    requires c.group > 0
  {
    if |accs| > 2 * c.group
    then map b | b in accs && readSeq <= c.Member(row, b, c.group - 1) :: accs[b]
    else accs
  }

  function FoldRecv(c: Config, r: RState, sn: nat, data: Bytes): (f: RState)
    requires c.group > 0
    ensures f == r.(colAcc := f.colAcc, rowAcc := f.rowAcc)
  {
    if |data| > c.DataCap() then r
    else
      var cols := FoldAcc(r.colAcc, c.BaseOf(false, sn), c.IdxOf(false, sn), data);
      var rows := if c.twoD then FoldAcc(r.rowAcc, c.BaseOf(true, sn), c.IdxOf(true, sn), data) else r.rowAcc;
      r.(colAcc := SweepAcc(c, false, cols, r.readSeq), rowAcc := SweepAcc(c, true, rows, r.readSeq))
  }

  function MaybeFold(c: Config, r: RState, sn: nat, data: Bytes): (f: RState)
    ensures f == r.(colAcc := f.colAcc, rowAcc := f.rowAcc)
  {
    if c.group > 0 then FoldRecv(c, r, sn, data) else r
  }

  /** The frame at readSeq leaves the reorder buffer for the ring and for its groups' running XORs. */
  function TakeBuffered(c: Config, r: RState): (t: RState)
    requires r.readSeq in r.reorder
    ensures t.colPend == r.colPend && t.rowPend == r.rowPend && t.reorder == r.reorder - {r.readSeq}
  {
    var data := r.reorder[r.readSeq];
    MaybeFold(c, r.(ring := r.ring + data, reorder := r.reorder - {r.readSeq},
                    reorderBytes := r.reorderBytes - |data|), r.readSeq, data).(readSeq := r.readSeq + 1)
  }

  /** Moves consecutive buffered frames into the ring for as long as they fit. */
  function Drain(c: Config, r: RState): (d: RState)
    ensures d.colPend == r.colPend && d.rowPend == r.rowPend
    decreases |r.reorder|
  {
    if r.readSeq !in r.reorder then r
    else
      var room := MakeRoom(c, r, |r.reorder[r.readSeq]|);
      if !room.ok then r
      else
        var t := TakeBuffered(c, room.r);
        assert t.reorder.Keys == r.reorder.Keys - {r.readSeq};
        assert |t.reorder| == |r.reorder| - 1;
        Drain(c, t)
  }

  // --- reconstruction ---

  datatype Outcome = FecUseless | FecRecovered | FecPending
  datatype Tried = Tried(outcome: Outcome, r: RState)
  datatype Delivered = Delivered(ack: bool, r: RState)
  datatype ScanResult = ScanUseless | ScanPending | ScanDone(missing: int)
  datatype Rebuilt = Mismatch | Rebuilt(buf: Bytes, len: nat)

  function Folded(r: RState, row: bool, base: nat): set<nat> {
    if base in r.Acc(row) then r.Acc(row)[base].folded else {}
  }

  /** The last member a parity covers; parities of no member are refused before this is asked. */
  function LastOf(c: Config, row: bool, base: nat, count: nat): nat {
    if count == 0 then base else c.Member(row, base, count - 1)
  }

  /** Looks for the one member that is not here (missing is -1 while none was found). */
  function Scan(c: Config, r: RState, row: bool, base: nat, count: nat, i: nat, missing: int): ScanResult
    decreases count - i
  {
    if i >= count then ScanDone(missing)
    else if i in Folded(r, row, base) || c.Member(row, base, i) in r.reorder
    then Scan(c, r, row, base, count, i + 1, missing)
    else if c.Member(row, base, i) < r.readSeq then ScanUseless
    else if missing >= 0 then ScanPending
    else Scan(c, r, row, base, count, i + 1, i)
  }

  /** XORs the buffered members into buf and their lengths into len. */
  function Rebuild(c: Config, r: RState, row: bool, base: nat, count: nat, missing: int,
                   i: nat, buf: Bytes, len: nat): (b: Rebuilt)
    ensures b.Rebuilt? ==> |b.buf| == |buf|
    decreases count - i
  {
    if i >= count then Rebuilt(buf, len)
    else if i in Folded(r, row, base) || i == missing
    then Rebuild(c, r, row, base, count, missing, i + 1, buf, len)
    else
      var m := c.Member(row, base, i);
      var data := if m in r.reorder then r.reorder[m] else [];
      if |data| > |buf| then Mismatch
      else Rebuild(c, r, row, base, count, missing, i + 1, PadXor(buf, data), NatXor(len, |data|))
  }

  /** What XORing a parity with everything here gives for its missing member. */
  function Solve(c: Config, r: RState, row: bool, base: nat, p: Parity, missing: int): (b: Rebuilt)
    requires base in r.Acc(row) ==> |r.Acc(row)[base].data| <= |p.data|
    ensures b.Rebuilt? ==> |b.buf| == |p.data|
  {
    if base in r.Acc(row) then
      var a := r.Acc(row)[base];
      Rebuild(c, r, row, base, p.count, missing, 0, PadXor(p.data, a.data), NatXor(p.lenXor, a.lenXor))
    else
      Rebuild(c, r, row, base, p.count, missing, 0, p.data, p.lenXor)
  }

  function TryReconstruct(c: Config, ramp: set<nat>, r: RState, row: bool, base: nat, p: Parity): (t: Tried)
    ensures t.r.NumPend() <= r.NumPend()
    ensures !t.outcome.FecRecovered? ==> t.r == r
    decreases r.NumPend(), 3
  {
    if r.readSeq > LastOf(c, row, base, p.count) then Tried(FecUseless, r)
    else if base in r.Acc(row) && |r.Acc(row)[base].data| > |p.data| then Tried(FecUseless, r)
    else
      match Scan(c, r, row, base, p.count, 0, -1)
      case ScanUseless => Tried(FecUseless, r)
      case ScanPending => Tried(FecPending, r)
      case ScanDone(missing) =>
        if missing < 0 then Tried(FecUseless, r)
        else
          var b := Solve(c, r, row, base, p, missing);
          if b.Mismatch? || b.len == 0 || b.len > |p.data| then Tried(FecUseless, r)
          else Tried(FecRecovered, Deliver(c, ramp, r, c.Member(row, base, missing), b.buf[..b.len], false).r)
  }

  /** Re-attempts one buffered parity: the entry is claimed first and put back only if it must wait. */
  function RetryBase(c: Config, ramp: set<nat>, r: RState, row: bool, base: nat): (r': RState)
    ensures r'.NumPend() <= r.NumPend()
    decreases r.NumPend(), 0
  {
    if base !in r.Pend(row) then r
    else
      var p := r.Pend(row)[base];
      var r1 := r.WithPend(row, r.Pend(row) - {base});
      assert |r1.Pend(row)| == |r.Pend(row)| - 1 by {
        assert r1.Pend(row).Keys == r.Pend(row).Keys - {base};
      }
      var t := TryReconstruct(c, ramp, r1, row, base, p);
      if t.outcome.FecPending? then t.r.WithPend(row, t.r.Pend(row)[base := p]) else t.r
  }

  /** Re-attempts the parities of every group sn belongs to. */
  function RetrySeq(c: Config, ramp: set<nat>, r: RState, sn: nat): (r': RState)
    ensures r'.NumPend() <= r.NumPend()
    decreases r.NumPend(), 1
  {
    if c.group == 0 then r
    else
      var r1 := RetryBase(c, ramp, r, false, c.BaseOf(false, sn));
      if c.twoD then RetryBase(c, ramp, r1, true, c.BaseOf(true, sn)) else r1
  }

  // --- delivery ---

  /** A frame that arrives ahead of a gap is buffered. */
  function Buffer(r: RState, sn: nat, payload: Bytes): RState {
    r.(reorder := r.reorder[sn := payload], reorderBytes := r.reorderBytes + |payload|)
  }

  /** A frame that arrives in order goes to the ring, and takes its buffered successors along. */
  function Advance(c: Config, ramp: set<nat>, r: RState, payload: Bytes): (a: RState)
    ensures a.colPend == r.colPend && a.rowPend == r.rowPend
  {
    var r1 := MaybeFold(c, r, r.readSeq, payload);
    var r2 := Drain(c, r1.(ring := r1.ring + payload, readSeq := r1.readSeq + 1));
    MaybeEOF(MaybeGrow(c, ramp, r2))
  }

  /** Whether a DATA frame is acknowledged, whether it is new, and the state with it in place. */
  datatype Admitted = Admitted(ack: bool, novel: bool, r: RState)

  function Admit(c: Config, ramp: set<nat>, r0: RState, sn: nat, payload: Bytes): (a: Admitted)
    ensures a.r.colPend == r0.colPend && a.r.rowPend == r0.rowPend
  {
    var r := r0.(maxSeen := Max(r0.maxSeen, sn));
    if sn < r.readSeq || sn in r.reorder then Admitted(true, false, r)
    else if sn > r.readSeq then
      if r.reorderBytes + |payload| > c.MaxBuf() then Admitted(false, false, r)
      else Admitted(true, true, Buffer(r, sn, payload))
    else
      var room := MakeRoom(c, r, |payload|);
      if !room.ok then Admitted(false, false, r)
      else Admitted(true, true, Advance(c, ramp, room.r, payload))
  }

  /** A DATA frame at a live receiver: put it in place, then see what it completes. */
  function DeliverData(c: Config, ramp: set<nat>, r: RState, sn: nat, payload: Bytes): (d: Delivered)
    ensures d.r.NumPend() <= r.NumPend()
    decreases r.NumPend(), 2, 0
  {
    var a := Admit(c, ramp, r, sn, payload);
    Delivered(a.ack, if a.novel then RetrySeq(c, ramp, a.r, sn) else a.r)
  }

  function Deliver(c: Config, ramp: set<nat>, r: RState, sn: nat, payload: Bytes, isFin: bool): (d: Delivered)
    ensures d.r.NumPend() <= r.NumPend()
    decreases r.NumPend(), 2, 1
  {
    if !r.Live() then
      var r1 := Grant(r, |payload|);
      Delivered(true, r1.(readSeq := Max(r.readSeq, sn + 1)))
    else if isFin then
      if sn < r.readSeq then Delivered(true, r)
      else Delivered(true, MaybeEOF(r.(finRecvd := true, finSeq := sn)))
    else
      var d := DeliverData(c, ramp, r, sn, payload);
      if d.ack && sn >= d.r.readSeq then Delivered(true, d.r.(ackPending := d.r.ackPending + [sn])) else d
  }

  // --- parity arrival ---

  lemma {:induction false} MinOf(keys: set<nat>) returns (k: nat)
    requires keys != {}
    ensures k in keys && forall j :: j in keys ==> k <= j
  {
    var x :| x in keys;
    var rest := keys - {x};
    assert keys == rest + {x};
    k := x;
    if rest != {} {
      var m := MinOf(rest);
      if m < x {
        k := m;
      }
    }
  }

  lemma MinExists(keys: set<nat>)
    requires keys != {}
    ensures exists k :: k in keys && forall j :: j in keys ==> k <= j
  {
    var k := MinOf(keys);
  }

  function MinKey(keys: set<nat>): (k: nat)
    requires keys != {}
    ensures k in keys && forall j :: j in keys ==> k <= j
  {
    MinExists(keys);
    var k :| k in keys && forall j :: j in keys ==> k <= j;
    k
  }

  /** Buffers a parity, evicting the oldest group when the buffer is full. */
  function StoreParity(pend: map<nat, Parity>, base: nat, p: Parity): map<nat, Parity> {
    if base !in pend && |pend| >= FEC_PENDING_CAP
    then (pend - {MinKey(pend.Keys)})[base := p]
    else pend[base := p]
  }

  datatype Applied = Applied(recovered: bool, r: RState)

  predicate Acceptable(c: Config, r: RState, row: bool, base: nat, p: Parity) {
    && 0 < p.count <= c.group
    && (row ==> c.twoD)
    && r.Live()
    && c.IsBase(row, base)
  }

  function ApplyFec(c: Config, ramp: set<nat>, r: RState, row: bool, base: nat, p: Parity): Applied {
    if !Acceptable(c, r, row, base, p) then Applied(false, r)
    else
      var t := TryReconstruct(c, ramp, r, row, base, p);
      match t.outcome
      case FecRecovered => Applied(true, t.r)
      case FecUseless => Applied(false, t.r)
      case FecPending => Applied(false, t.r.WithPend(row, StoreParity(t.r.Pend(row), base, p)))
  }

  // --- the application and the acknowledgement path ---

  /** Consumed bytes are withheld until a quarter of the ring has accumulated. */
  function Withheld(consumed: nat, cap: nat): (w: nat)
    ensures w <= consumed
    ensures 4 <= cap ==> 4 * w + 4 <= cap
  {
    if consumed >= cap / 4 then 0 else consumed
  }

  function GrantBack(r: RState, k: nat): RState {
    var w := Withheld(r.grantPending + k, r.cap);
    Grant(r.(grantPending := w), r.grantPending + k - w)
  }

  /** Read of at most n bytes from a ring that is not empty. */
  function ReadSome(c: Config, r: RState, n: nat): RState {
    var k := Min(n, |r.ring|);
    GrantBack(MaybeEOF(Drain(c, r.(ring := r.ring[k..]))), k)
  }

  function Discard(r: RState): RState {
    r.(ring := [], reorder := map[], reorderBytes := 0, ackPending := [], ackReplay := [],
       colAcc := map[], rowAcc := map[], colPend := map[], rowPend := map[])
  }

  function Fail(r: RState, e: ReadErr): RState {
    if r.readErr.NoErr? then r.(readErr := e) else r
  }

  function CancelRead(r: RState): RState {
    if r.canceled then r else Discard(Fail(r, StreamReset).(canceled := true))
  }

  function DeliverReset(r: RState): RState {
    Discard(Fail(r, StreamReset))
  }

  /** The sequence numbers of s that are not below cum. */
  function From(s: seq<nat>, cum: nat): (t: seq<nat>)
    ensures forall x :: x in t <==> x in s && cum <= x
  {
    if s == [] then []
    else
      var t := From(s[..|s| - 1], cum);
      var x := s[|s| - 1];
      assert s == s[..|s| - 1] + [x];
      if cum <= x then t + [x] else t
  }

  datatype Snapshot = Snapshot(cum: nat, seqs: seq<nat>, granted: nat, r: RState)

  function AckSnapshot(r: RState): Snapshot {
    var fin := if r.finRecvd && r.finSeq >= r.readSeq then [r.finSeq] else [];
    Snapshot(r.readSeq, fin + From(r.ackReplay, r.readSeq) + From(r.ackPending, r.readSeq), r.peerOffset,
             r.(ackReplay := r.ackPending, ackPending := []))
  }

  /** Highest sequence number that a NACK may ask for. */
  function NackHorizon(r: RState): int {
    if r.finRecvd && r.finSeq > 0 then Max(r.maxSeen, r.finSeq - 1) else r.maxSeen
  }

  /** The first n sequence numbers from sn to hi that are not buffered. */
  function Gaps(r: RState, sn: nat, hi: int, n: nat): seq<nat>
    decreases hi - sn
  {
    if sn > hi || n == 0 then []
    else if sn in r.reorder then Gaps(r, sn + 1, hi, n)
    else [sn] + Gaps(r, sn + 1, hi, n - 1)
  }

  /** What a NACK asks for. */
  function NackList(r: RState): seq<nat> {
    Gaps(r, r.readSeq, NackHorizon(r), MAX_NACK_SEQS_PER_FIRE)
  }

  /** The receiver has evidence of frames it does not have. */
  predicate Gapped(r: RState) {
    r.reorder != map[] || (r.finRecvd && r.readSeq < r.finSeq)
  }
}
