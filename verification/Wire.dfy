/** The frames of one stream, as far as the protocol looks at them. */
module Wire {
  import opened Bytes
  import opened Receiver

  datatype Frame =
    | DataFrame(sn: nat, payload: Bytes)
    | ParityFrame(row: bool, base: nat, p: Parity)
    | FinFrame(sn: nat)
    | ResetFrame(sn: nat)
    | AckFrame(cum: nat, seqs: seq<nat>)
    | WindowFrame(offset: nat)
    | StopFrame
}
