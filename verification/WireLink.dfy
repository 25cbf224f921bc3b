/** The frames of the protocol model and the wire format: what a run sends can be sent as bytes and read back. */
module WireLink {
  import opened Bytes
  import opened Geometry
  import opened Receiver
  import opened Exactness
  import opened Wire
  import opened Sender
  import opened System
  import opened Runs
  import opened Theorems
  import Framing
  import SeqLists

  function TwoTo(k: nat): nat {
    if k == 0 then 1 else 2 * TwoTo(k - 1)
  }

  /** An exclusive-or needs no more bits than its operands. */
  lemma {:induction false} NatXorFits(a: nat, b: nat, k: nat)
    requires a < TwoTo(k) && b < TwoTo(k)
    ensures NatXor(a, b) < TwoTo(k)
  {
    if a + b != 0 {
      NatXorFits(a / 2, b / 2, k - 1);
    }
  }

  lemma Sixteen()
    ensures TwoTo(16) == 0x1_0000
  {
    assert TwoTo(4) == 16;
    assert TwoTo(8) == 256;
    assert TwoTo(12) == 4096;
  }

  lemma {:induction false} GroupLenFits(c: Config, sent: seq<Bytes>, row: bool, base: nat, k: nat)
    requires c.Valid() && ChunksOk(c, sent)
    ensures GroupLen(c, sent, row, base, k) < TwoTo(16)
  {
    Sixteen();
    if k > 0 {
      GroupLenFits(c, sent, row, base, k - 1);
      NatXorFits(GroupLen(c, sent, row, base, k - 1), |Chunk(sent, c.Member(row, base, k - 1))|, 16);
    }
  }

  /** In every run, each parity frame's count and length XOR are read back exactly from its payload. */
  lemma ParitySurvivesWire(c: Config, acts: seq<Action>, f: Frame)
    requires c.Valid() && f in Run(c, acts).net && f.ParityFrame?
    ensures var p := Framing.Big(SeqLists.MetaWord(f.p.count, f.p.lenXor), 4) + f.p.data;
            Framing.Num(p[..4]) / 0x1_0000 == f.p.count && Framing.Num(p[..4]) % 0x1_0000 == f.p.lenXor && p[4..] == f.p.data
  {
    hide Run, Framing.Num, Framing.Big, GroupLen, GroupData;
    ParityIsExact(c, acts, f);
    RunOk(c, acts);
    GroupLenFits(c, Run(c, acts).s.sent, f.row, f.base, f.p.count);
    Sixteen();
    SeqLists.MetaRoundTrip(f.p.count, f.p.lenXor, f.p.data);
  }

  /** The ACK frames that a long list is split into are among those the protocol model lets the network carry. */
  lemma AckChunksModelled(cum: nat, seqs: seq<nat>, most: nat, chunk: seq<nat>)
    requires most > 0 && chunk in (if seqs == [] then [[]] else SeqLists.Split(seqs, most))
    ensures AckFrame(cum, chunk) in AckFrames(cum, seqs)
  {
    if seqs == [] {
      assert chunk == seqs[0..0];
    } else {
      var i, j := SeqLists.ChunkIsSlice(seqs, most, chunk);
    }
  }
}
