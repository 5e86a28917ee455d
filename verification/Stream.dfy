/** The packets of a read: how they are cut on one side and put together on the other. */
module Stream {
  import opened Words

  /** The most bytes a reply carries: its path field. */
  const REPLY_MAX := 256

  /** An OP_READ reply: `size` is 1 while more follow; cod_return is the number of bytes, or an error. */
  datatype Reply = Data(size: int, bytes: seq<byte>) | Error(size: int, code: int)

  ghost function Joined(replies: seq<Reply>): seq<byte> {
    if |replies| == 0 then []
    else Joined(replies[..|replies| - 1]) + Payload(replies[|replies| - 1])
  }

  ghost function Payload(r: Reply): seq<byte> {
    if r.Data? then r.bytes else []
  }

  /** Data packets that announce another one. */
  ghost predicate AllMore(replies: seq<Reply>) {
    forall k :: 0 <= k < |replies| ==>
      replies[k].Data? && replies[k].size == 1 && 0 < |replies[k].bytes| <= REPLY_MAX
  }

  /** A finished read: exactly one packet, the last, says that nothing follows. */
  ghost predicate Complete(replies: seq<Reply>, bytes: seq<byte>) {
    && |replies| > 0
    && AllMore(replies[..|replies| - 1])
    && replies[|replies| - 1].Data?
    && replies[|replies| - 1].size == 0
    && |replies[|replies| - 1].bytes| <= REPLY_MAX
    && Joined(replies) == bytes
  }

  lemma EmptyStream()
    ensures AllMore([]) && Joined([]) == []
  {
  }

  lemma JoinedSnoc(replies: seq<Reply>, r: Reply)
    ensures Joined(replies + [r]) == Joined(replies) + Payload(r)
  {
    assert (replies + [r])[..|replies|] == replies;
  }

  lemma CompleteSnoc(replies: seq<Reply>, bytes: seq<byte>)
    requires AllMore(replies) && |bytes| <= REPLY_MAX
    ensures Complete(replies + [Data(0, bytes)], Joined(replies) + bytes)
  {
    JoinedSnoc(replies, Data(0, bytes));
    assert (replies + [Data(0, bytes)])[..|replies|] == replies;
  }

  lemma AllMoreSnoc(replies: seq<Reply>, bytes: seq<byte>)
    requires AllMore(replies) && 0 < |bytes| <= REPLY_MAX
    ensures AllMore(replies + [Data(1, bytes)])
    ensures Joined(replies + [Data(1, bytes)]) == Joined(replies) + bytes
  {
    JoinedSnoc(replies, Data(1, bytes));
  }

  /** Nothing follows this packet. */
  predicate Final(r: Reply) {
    r.Error? || r.size != 1
  }

  /** The client's reading loop: packet after packet until one says that nothing follows. */
  method Reassemble(replies: seq<Reply>) returns (r: int, buf: seq<byte>, used: nat)
    requires exists k :: 0 <= k < |replies| && Final(replies[k])
    ensures 0 < used <= |replies| && Final(replies[used - 1])
    ensures forall k :: 0 <= k < used - 1 ==> !Final(replies[k])
    ensures replies[used - 1].Error? ==> r == replies[used - 1].code
    ensures replies[used - 1].Data? ==> buf == Joined(replies[..used]) && r == |buf|
  {
    buf, used, r := [], 0, 0;
    var size := 1;
    assert replies[..0] == [];
    while size == 1
      invariant used <= |replies|
      invariant if size == 1 then forall k :: 0 <= k < used ==> !Final(replies[k])
                else used > 0 && Final(replies[used - 1]) && forall k :: 0 <= k < used - 1 ==> !Final(replies[k])
      invariant used > 0 ==> replies[used - 1].Data?
      invariant buf == Joined(replies[..used]) && r == |buf|
      decreases |replies| - used, size == 1
    {
      var mensaje := replies[used];
      used := used + 1;
      assert replies[..used][..used - 1] == replies[..used - 1];
      if mensaje.Error? {
        return mensaje.code, buf, used;
      }
      buf := buf + mensaje.bytes;
      r := r + |mensaje.bytes|;
      size := mensaje.size;
    }
  }

  /** A complete stream is taken in whole: no packet is left behind for the next request. */
  lemma CompleteIsTakenWhole(replies: seq<Reply>, bytes: seq<byte>, used: nat)
    requires Complete(replies, bytes) && 0 < used <= |replies| && Final(replies[used - 1])
    requires forall k :: 0 <= k < used - 1 ==> !Final(replies[k])
    ensures used == |replies| && Joined(replies[..used]) == bytes && replies[used - 1].Data?
  {
    assert replies[..|replies|] == replies;
    forall k | 0 <= k < |replies| - 1
      ensures !Final(replies[k])
    {
      assert replies[..|replies| - 1][k] == replies[k];
    }
  }

  lemma CompleteHasFinal(replies: seq<Reply>, bytes: seq<byte>)
    requires Complete(replies, bytes)
    ensures exists k :: 0 <= k < |replies| && Final(replies[k])
  {
    assert Final(replies[|replies| - 1]);
  }
}
