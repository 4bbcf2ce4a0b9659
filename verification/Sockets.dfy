/** The operating system's side of a connection: the chunks a blocking `recv` hands out, and writes
    that succeed or raise. */
module Sockets {
  import opened FrameCodec
  import opened ConnectionSpec

  /** What one `sock.recv` brings. An empty `Data` is how a socket reports the end of the stream. */
  datatype Delivery = Data(chunk: Bytes) | TimedOut | SocketError

  function ItemsOfDelivery(d: Delivery): Stream
  {
    match d
    case Data(chunk) => if chunk == [] then [Ended] else Items(chunk)
    case TimedOut => [Silence]
    case SocketError => [Broken]
  }

  function ItemsOf(ds: seq<Delivery>): Stream
  {
    if ds == [] then [] else ItemsOfDelivery(ds[0]) + ItemsOf(ds[1..])
  }

  /** Chunks that arrive one after the other. */
  function DataOf(chunks: seq<Bytes>): (r: seq<Delivery>)
    ensures |r| == |chunks|
  {
    seq(|chunks|, i requires 0 <= i < |chunks| => Data(chunks[i]))
  }

  ghost predicate NonEmpty(chunks: seq<Bytes>)
  {
    forall i :: 0 <= i < |chunks| ==> chunks[i] != []
  }

  /** The machine cannot see how the bytes were cut. */
  lemma {:induction false} ChunksAreInvisible(chunks: seq<Bytes>, later: seq<Delivery>)
    requires NonEmpty(chunks)
    ensures ItemsOf(DataOf(chunks) + later) == Items(Flatten(chunks)) + ItemsOf(later)
  {
    var ds := DataOf(chunks) + later;
    if chunks == [] {
      assert ds == later;
    } else {
      assert ds[0] == Data(chunks[0]) && ds[1..] == DataOf(chunks[1..]) + later;
      ChunksAreInvisible(chunks[1..], later);
    }
  }

  /** The operating system's socket: deliveries still to come and the fate of the next writes. Once
      the deliveries are used up every wait runs out; once the fates are, every write succeeds. */
  class Socket {
    var incoming: seq<Delivery>
    var writes: seq<bool>
    var wire: Bytes

    method Recv() returns (d: Delivery)
      modifies this`incoming
      ensures old(incoming) == [] ==> d == TimedOut && incoming == []
      ensures old(incoming) != [] ==> d == old(incoming)[0] && incoming == old(incoming)[1..]
    {
      if incoming == [] {
        return TimedOut;
      }
      d := incoming[0];
      incoming := incoming[1..];
    }

    method SendAll(data: Bytes) returns (ok: bool)
      modifies this`writes, this`wire
      ensures ok == (old(writes) == [] || old(writes)[0])
      ensures writes == if old(writes) == [] then [] else old(writes)[1..]
      ensures wire == if ok then old(wire) + data else old(wire)
    {
      ok := true;
      if writes != [] {
        ok := writes[0];
        writes := writes[1..];
      }
      if ok {
        wire := wire + data;
      }
    }
  }
}
