/** Sequence-number lists: the payload of ACK and NACK frames, split over as many frames as needed. */
module SeqLists {
  import opened Bytes
  import opened Framing

  datatype SeqList = SeqList(cum: nat, seqs: seq<nat>)

  predicate Words32(seqs: seq<nat>) {
    forall i :: 0 <= i < |seqs| ==> seqs[i] < LIMIT32
  }

  function Words(seqs: seq<nat>): (b: Bytes)
    ensures |b| == 4 * |seqs|
  {
    if seqs == [] then [] else Words(seqs[..|seqs| - 1]) + Big(seqs[|seqs| - 1], 4)
  }

  function ListPayload(cum: nat, seqs: seq<nat>): Bytes {
    Big(cum, 4) + Big(|seqs|, 4) + Words(seqs)
  }

  function Word(p: Bytes, i: nat): nat
    requires 12 + 4 * i <= |p|
  {
    Num(p[8 + 4 * i..12 + 4 * i])
  }

  /** Trailing bytes after the announced list are ignored. */
  function DecodeList(p: Bytes): Result<SeqList> {
    if |p| < 8 then Err("seq-list payload too small")
    else
      var count := Num(p[4..8]);
      if |p| < 8 + 4 * count then Err("seq-list payload truncated")
      else Ok(SeqList(Num(p[..4]), seq(count, i requires 0 <= i < count => Word(p, i))))
  }

  lemma {:induction false} WordsAt(seqs: seq<nat>, i: nat)
    requires i < |seqs|
    ensures Words(seqs)[4 * i..4 * i + 4] == Big(seqs[i], 4)
  {
    var n := |seqs| - 1;
    var w := Words(seqs[..n]);
    if i == n {
      assert (w + Big(seqs[n], 4))[4 * n..] == Big(seqs[n], 4);
    } else {
      WordsAt(seqs[..n], i);
      assert (w + Big(seqs[n], 4))[4 * i..4 * i + 4] == w[4 * i..4 * i + 4];
    }
  }

  /** A list decodes to itself, whatever trails it. */
  lemma DecodeListPayload(cum: nat, seqs: seq<nat>, rest: Bytes)
    requires cum < LIMIT32 && |seqs| < LIMIT32 && Words32(seqs)
    ensures DecodeList(ListPayload(cum, seqs) + rest) == Ok(SeqList(cum, seqs))
  {
    hide Num, Big, Words;
    var p := ListPayload(cum, seqs) + rest;
    assert p[..4] == Big(cum, 4) && p[4..8] == Big(|seqs|, 4);
    Big32(cum);
    Big32(|seqs|);
    forall i | 0 <= i < |seqs| ensures Word(p, i) == seqs[i] {
      WordsAt(seqs, i);
      assert p[8 + 4 * i..12 + 4 * i] == Words(seqs)[4 * i..4 * i + 4];
      Big32(seqs[i]);
    }
    assert DecodeList(p).value.seqs == seqs;
  }

  /** What decodes is the encoding of what it decodes to. */
  lemma PayloadOfDecoded(p: Bytes)
    requires DecodeList(p).Ok?
    ensures var l := DecodeList(p).value;
            Words32(l.seqs) && l.cum < LIMIT32 && ListPayload(l.cum, l.seqs) <= p
  {
    hide Num, Big;
    var l := DecodeList(p).value;
    Num32(p[..4]);
    Num32(p[4..8]);
    WordsOf(p, l.seqs);
    var e := ListPayload(l.cum, l.seqs);
    assert e == p[..4] + p[4..8] + p[8..8 + 4 * |l.seqs|];
    assert e == p[..|e|];
  }

  lemma {:induction false} WordsOf(p: Bytes, seqs: seq<nat>)
    requires 8 + 4 * |seqs| <= |p| && (forall i :: 0 <= i < |seqs| ==> seqs[i] == Word(p, i))
    ensures Words32(seqs) && Words(seqs) == p[8..8 + 4 * |seqs|]
  {
    hide Num, Big;
    if seqs != [] {
      var n := |seqs| - 1;
      WordsOf(p, seqs[..n]);
      Num32(p[8 + 4 * n..12 + 4 * n]);
      assert p[8..8 + 4 * |seqs|] == p[8..8 + 4 * n] + p[8 + 4 * n..12 + 4 * n];
    }
  }

  method EncodeSeqListFrame(buf: array<byte>, ftype: byte, stream: nat, cum: nat, seqs: seq<nat>) returns (n: nat)
    requires HEADER + 8 + 4 * |seqs| <= buf.Length
    modifies buf
    ensures n <= buf.Length && buf[..n] == Encode(RawFrame(ftype, stream, 0, ListPayload(cum, seqs)))
    ensures buf[n..] == old(buf[n..])
  {
    hide Big, Splice, Header, Words;
    ghost var was := buf[..];
    var plen := 8 + 4 * |seqs|;
    EncodeHeader(buf, 0, ftype, stream, 0, plen);
    Put32(buf, HEADER, cum);
    ghost var head := Header(ftype, stream, 0, plen);
    SpliceTwice(was, 0, head, Big(cum, 4));
    Put32(buf, HEADER + 4, |seqs|);
    head := head + Big(cum, 4);
    SpliceTwice(was, 0, head, Big(|seqs|, 4));
    head := head + Big(|seqs|, 4);
    NoWords();
    assert seqs[..0] == [] && head + [] == head;
    for i := 0 to |seqs|
      invariant buf[..] == Splice(was, 0, head + Words(seqs[..i]))
    {
      Put32(buf, HEADER + 8 + 4 * i, seqs[i]);
      SpliceTwice(was, 0, head + Words(seqs[..i]), Big(seqs[i], 4));
      WordsSnoc(seqs, i);
      assert head + Words(seqs[..i + 1]) == head + Words(seqs[..i]) + Big(seqs[i], 4);
    }
    assert seqs[..|seqs|] == seqs;
    n := HEADER + plen;
    assert head + Words(seqs) == Encode(RawFrame(ftype, stream, 0, ListPayload(cum, seqs)));
    SpliceStart(was, head + Words(seqs));
  }

  lemma NoWords()
    ensures Words([]) == []
  {
  }

  lemma WordsSnoc(seqs: seq<nat>, i: nat)
    requires i < |seqs|
    ensures Words(seqs[..i + 1]) == Words(seqs[..i]) + Big(seqs[i], 4)
  {
    assert seqs[..i + 1][..i] == seqs[..i];
  }

  lemma SpliceStart(was: Bytes, b: Bytes)
    requires |b| <= |was|
    ensures Splice(was, 0, b)[..|b|] == b && Splice(was, 0, b)[|b|..] == was[|b|..]
  {
  }

  method DecodeSeqListFrame(p: Bytes) returns (r: Result<SeqList>)
    ensures r == DecodeList(p)
  {
    if |p| < 8 {
      return Err("seq-list payload too small");
    }
    var cum, count := Num(p[..4]), Num(p[4..8]);
    if |p| < 8 + 4 * count {
      return Err("seq-list payload truncated");
    }
    var seqs := [];
    for i := 0 to count
      invariant seqs == seq(i, j requires 0 <= j < i => Word(p, j))
    {
      seqs := seqs + [Num(p[8 + 4 * i..12 + 4 * i])];
    }
    return Ok(SeqList(cum, seqs));
  }

  // --- splitting a long list ---

  function MaxSeqs(maxPayload: int): int {
    Quotient(maxPayload - 8, 4)
  }

  /** That is as many numbers as a frame's payload can carry, and not one less. */
  lemma MaxSeqsFits(maxPayload: int, cum: nat, seqs: seq<nat>)
    requires 12 <= maxPayload
    ensures |ListPayload(cum, seqs)| <= maxPayload <==> |seqs| <= MaxSeqs(maxPayload)
  {
  }

  function Split(seqs: seq<nat>, most: nat): seq<seq<nat>>
    requires most > 0
    decreases |seqs|
  {
    if seqs == [] then []
    else
      var n := Min(|seqs|, most);
      [seqs[..n]] + Split(seqs[n..], most)
  }

  function Join(cs: seq<seq<nat>>): seq<nat> {
    if cs == [] then [] else cs[0] + Join(cs[1..])
  }

  lemma SplitUnfold(seqs: seq<nat>, most: nat)
    requires most > 0 && seqs != []
    ensures var n := Min(|seqs|, most);
            && 0 < n <= |seqs| && Split(seqs, most) == [seqs[..n]] + Split(seqs[n..], most)
            && (seqs[n..] != [] ==> n == most)
  {
  }

  lemma SplitNone(most: nat)
    requires most > 0
    ensures Split([], most) == []
  {
  }

  /** Joined again, the chunks are the list. */
  lemma {:induction false} SplitJoins(seqs: seq<nat>, most: nat)
    requires most > 0
    ensures Join(Split(seqs, most)) == seqs
    decreases |seqs|
  {
    hide Split;
    if seqs == [] {
      SplitNone(most);
    } else {
      SplitUnfold(seqs, most);
      var n := Min(|seqs|, most);
      SplitJoins(seqs[n..], most);
      var rest := Split(seqs[n..], most);
      assert ([seqs[..n]] + rest)[1..] == rest;
    }
  }

  /** They are not empty and fit a frame, and all but the last are as long as possible. */
  lemma {:induction false} SplitSizes(seqs: seq<nat>, most: nat, i: nat)
    requires most > 0 && i < |Split(seqs, most)|
    ensures 0 < |Split(seqs, most)[i]| <= most
    ensures i < |Split(seqs, most)| - 1 ==> |Split(seqs, most)[i]| == most
    decreases |seqs|
  {
    hide Split;
    if seqs == [] {
      SplitNone(most);
    } else {
      SplitUnfold(seqs, most);
      var n := Min(|seqs|, most);
      var rest := Split(seqs[n..], most);
      if i > 0 {
        SplitSizes(seqs[n..], most, i - 1);
        assert ([seqs[..n]] + rest)[i] == rest[i - 1];
      } else if rest != [] {
        SplitNone(most);
      }
    }
  }

  /** The lists carried by the frames of one volley, read back in order. */
  function ReadBack(payloads: seq<Bytes>): Result<seq<nat>> {
    if payloads == [] then Ok([])
    else
      match DecodeList(payloads[0])
      case Err(e) => Err(e)
      case Ok(l) =>
        match ReadBack(payloads[1..])
        case Err(e) => Err(e)
        case Ok(rest) => Ok(l.seqs + rest)
  }

  function Payloads(cum: nat, cs: seq<seq<nat>>): seq<Bytes> {
    seq(|cs|, i requires 0 <= i < |cs| => ListPayload(cum, cs[i]))
  }

  lemma {:induction false} ReadBackJoins(cum: nat, cs: seq<seq<nat>>)
    requires cum < LIMIT32 && (forall i :: 0 <= i < |cs| ==> Words32(cs[i]) && |cs[i]| < LIMIT32)
    ensures ReadBack(Payloads(cum, cs)) == Ok(Join(cs))
  {
    hide DecodeList, ListPayload, Words32;
    if cs != [] {
      assert Payloads(cum, cs)[1..] == Payloads(cum, cs[1..]);
      ReadBackJoins(cum, cs[1..]);
      DecodeListPayload(cum, cs[0], []);
      assert ListPayload(cum, cs[0]) + [] == ListPayload(cum, cs[0]);
    }
  }

  lemma {:induction false} SplitWords(seqs: seq<nat>, most: nat, i: nat)
    requires most > 0 && Words32(seqs) && i < |Split(seqs, most)|
    ensures Words32(Split(seqs, most)[i])
    decreases |seqs|
  {
    hide Split;
    if seqs == [] {
      SplitNone(most);
    } else {
      SplitUnfold(seqs, most);
      var n := Min(|seqs|, most);
      if i > 0 {
        SplitWords(seqs[n..], most, i - 1);
        assert ([seqs[..n]] + Split(seqs[n..], most))[i] == Split(seqs[n..], most)[i - 1];
      }
    }
  }

  lemma PayloadFits(cum: nat, c: seq<nat>, maxPayload: nat)
    requires 0 < MaxSeqs(maxPayload) && |c| <= MaxSeqs(maxPayload)
    ensures |ListPayload(cum, c)| <= maxPayload
  {
    hide Big, Words;
  }

  lemma {:induction false} ChunksFit(cum: nat, cs: seq<seq<nat>>, maxPayload: nat, p: Bytes)
    requires 0 < MaxSeqs(maxPayload) && (forall i :: 0 <= i < |cs| ==> |cs[i]| <= MaxSeqs(maxPayload))
    requires p in Payloads(cum, cs)
    ensures |p| <= maxPayload
  {
    hide ListPayload, MaxSeqs;
    var i :| 0 <= i < |cs| && p == ListPayload(cum, cs[i]);
    PayloadFits(cum, cs[i], maxPayload);
  }

  lemma MostIsSmall(maxPayload: nat)
    requires maxPayload < LIMIT32
    ensures MaxSeqs(maxPayload) < LIMIT32
  {
  }

  /** A list of any length, sent in frames no larger than maxPayload, is received whole and in order. */
  lemma VolleyRoundTrip(cum: nat, seqs: seq<nat>, maxPayload: nat)
    requires cum < LIMIT32 && Words32(seqs) && MaxSeqs(maxPayload) > 0 && maxPayload < LIMIT32
    ensures var ps := Payloads(cum, Split(seqs, MaxSeqs(maxPayload)));
            ReadBack(ps) == Ok(seqs) && (forall p :: p in ps ==> |p| <= maxPayload)
  {
    hide Split, ReadBack, Join, Words32, MaxSeqs, Payloads;
    MostIsSmall(maxPayload);
    var most := MaxSeqs(maxPayload);
    var cs := Split(seqs, most);
    SplitJoins(seqs, most);
    forall i | 0 <= i < |cs| ensures Words32(cs[i]) && |cs[i]| <= most {
      SplitSizes(seqs, most, i);
      SplitWords(seqs, most, i);
    }
    ReadBackJoins(cum, cs);
    forall p | p in Payloads(cum, cs) ensures |p| <= maxPayload {
      ChunksFit(cum, cs, maxPayload, p);
    }
  }

  /** Every chunk is a contiguous slice of the list. */
  lemma {:induction false} ChunkIsSlice(seqs: seq<nat>, most: nat, c: seq<nat>) returns (i: nat, j: nat)
    requires most > 0 && c in Split(seqs, most)
    ensures i <= j <= |seqs| && c == seqs[i..j]
    decreases |seqs|
  {
    var n := Min(|seqs|, most);
    if c == seqs[..n] {
      i, j := 0, n;
    } else {
      i, j := ChunkIsSlice(seqs[n..], most, c);
      assert seqs[n..][i..j] == seqs[n + i..n + j];
      i, j := n + i, n + j;
    }
  }

  /**
   * Visits the chunks in order until one visit fails: `good` visits succeed.  Refused when a frame
   * has no room for a single number.
   */
  method ForEachChunk(seqs: seq<nat>, maxPayload: int, good: nat) returns (visited: seq<seq<nat>>, ok: bool)
    ensures maxPayload < 12 ==> !ok && visited == []
    ensures maxPayload >= 12 ==>
              && MaxSeqs(maxPayload) > 0
              && var all := Split(seqs, MaxSeqs(maxPayload));
              ok == (|all| <= good) && visited == all[..Min(|all|, good)]
  {
    visited, ok := [], false;
    var most := MaxSeqs(maxPayload);
    if most <= 0 {
      return;
    }
    var rest := seqs;
    ghost var all := Split(seqs, most);
    while |rest| > 0
      invariant |visited| <= good && all == visited + Split(rest, most)
      decreases |rest|
    {
      var n := |rest|;
      if n > most {
        n := most;
      }
      if |visited| == good {
        return;
      }
      visited := visited + [rest[..n]];
      rest := rest[n..];
    }
    ok := true;
  }

  /** The lists of one stream's acknowledgement: like a volley, but a frame goes out even when the list is empty. */
  method AckLists(seqs: seq<nat>, most: nat) returns (lists: seq<seq<nat>>)
    requires most > 0
    ensures lists == if seqs == [] then [[]] else Split(seqs, most)
  {
    lists := [];
    var rest := seqs;
    while true
      invariant rest == [] ==> seqs == [] && lists == []
      invariant Split(seqs, most) == lists + Split(rest, most)
      decreases |rest|
    {
      var n := |rest|;
      if n > most {
        n := most;
      }
      lists := lists + [rest[..n]];
      rest := rest[n..];
      if |rest| == 0 {
        break;
      }
    }
  }

  // --- parity metadata ---

  function MetaWord(count: nat, lenXor: nat): nat {
    count * 0x1_0000 + lenXor
  }

  /** Count and length XOR survive packing into one metadata word, provided each fits its sixteen bits. */
  lemma MetaRoundTrip(count: nat, lenXor: nat, data: Bytes)
    requires count < 0x1_0000 && lenXor < 0x1_0000
    ensures var p := Big(MetaWord(count, lenXor), 4) + data;
            Num(p[..4]) / 0x1_0000 == count && Num(p[..4]) % 0x1_0000 == lenXor && p[4..] == data
  {
    hide Num, Big;
    var p := Big(MetaWord(count, lenXor), 4) + data;
    assert p[..4] == Big(MetaWord(count, lenXor), 4);
    Big32(MetaWord(count, lenXor));
  }
}
