/** A connection from the first byte of its socket: the answer to the upgrade, then the messages. */
module WholeStream {
  import opened Wrappers
  import opened FrameCodec
  import opened ConnectionSpec
  import opened Sockets
  import opened Upgrade
  import opened Reassembly
  import opened Messages

  /** Where the header loop stops: the head is what stands before the first blank line of all the bytes, and
      what it kept and what it left unread are the bytes behind. */
  lemma {:induction false} UpgradeStopsAt(response: Bytes, chunks: seq<Bytes>, later: seq<Delivery>, p: nat)
    returns (k: nat)
    requires Find(response + Flatten(chunks)) == Some(p)
    requires ReadHead(response, DataOf(chunks) + later).0.Head?
    ensures k <= |chunks|
    ensures var (o, left) := ReadHead(response, DataOf(chunks) + later);
            && left == DataOf(chunks[k..]) + later
            && o.head == (response + Flatten(chunks))[..p]
            && o.rest + Flatten(chunks[k..]) == (response + Flatten(chunks))[p + 4..]
    decreases |chunks|
  {
    hide Find;
    var s := response + Flatten(chunks);
    FindInPrefix(s, |response|, p);
    assert s[..|response|] == response;
    if p + 4 <= |response| {
      k := 0;
      assert chunks[0..] == chunks;
      assert response[..p] == s[..p] && response[p + 4..] + Flatten(chunks) == s[p + 4..];
    } else {
      assert chunks != [];
      var incoming := DataOf(chunks) + later;
      assert incoming[0] == Data(chunks[0]) && incoming[1..] == DataOf(chunks[1..]) + later;
      assert s == (response + chunks[0]) + Flatten(chunks[1..]);
      var less := UpgradeStopsAt(response + chunks[0], chunks[1..], later, p);
      k := less + 1;
      assert chunks[1..][less..] == chunks[k..];
    }
  }

  /** The stream behind an accepted answer is that of the frames alone. */
  lemma FramesFollowTheHead(head: Bytes, chunks: seq<Bytes>, later: seq<Delivery>, ps: seq<Packet>)
    requires CanEncodeAll(ps)
    requires NonEmpty(chunks) && Flatten(chunks) == head + TERMINATOR + EncodeAll(ps)
    requires Find(Flatten(chunks)) == Some(|head|)
    requires ReadHead([], DataOf(chunks) + later).0.Head?
    ensures var (o, left) := ReadHead([], DataOf(chunks) + later);
            o.head == head && Items(o.rest) + ItemsOf(left) == WireStream(ps, ItemsOf(later))
  {
    hide Find, EndsAt, Flatten, ReadHead, WireStream, Items, ItemsOf, EncodeAll, DataOf;
    var s := Flatten(chunks);
    assert [] + s == s;
    var k := UpgradeStopsAt([], chunks, later, |head|);
    var (o, left) := ReadHead([], DataOf(chunks) + later);
    Behind(head, EncodeAll(ps));
    ChunksAreInvisible(chunks[k..], later);
    ItemsSplit(o.rest, Flatten(chunks[k..]), ItemsOf(later));
    WireStreamIsEncodeAll(ps, ItemsOf(later));
  }

  lemma Behind(head: Bytes, body: Bytes)
    ensures (head + TERMINATOR + body)[..|head|] == head && (head + TERMINATOR + body)[|head| + 4..] == body
  {
  }

  /** However TCP cuts the bytes of an upgrade answer and the frames behind it: if the answer is accepted, the
      connection that begins with what the upgrade kept and left unread returns exactly the texts. */
  lemma UpgradedConnectionReturnsTheTexts(
    head: Bytes, chunks: seq<Bytes>, later: seq<Delivery>, writes: seq<bool>, ps: seq<Packet>, us: seq<Unit>, max: nat)
    requires Carries(ps, us, max)
    requires NonEmpty(chunks) && Flatten(chunks) == head + TERMINATOR + EncodeAll(ps)
    requires Find(Flatten(chunks)) == Some(|head|)
    requires ReadHead([], DataOf(chunks) + later).0.Head?
    ensures var (o, left) := ReadHead([], DataOf(chunks) + later);
            && o.head == head
            && Yields(Conn(Items(o.rest) + ItemsOf(left), writes, [], true, false), Texts(us),
                      Answered(Conn(ItemsOf(later), writes, [], true, false), Answers(us)), max)
  {
    hide Find, EndsAt, Flatten, Yields, ReadHead, Answered, WireStream, ItemsOf, DataOf, EncodeAll;
    FramesFollowTheHead(head, chunks, later, ps);
    var c := Conn(ItemsOf(later), writes, [], true, false);
    RecvReturnsTheTexts(c, ps, us, ItemsOf(later), max);
    AnsweredStream(c, Answers(us), ItemsOf(later));
  }
}
