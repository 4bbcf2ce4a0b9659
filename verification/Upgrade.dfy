/** The header split at the end of `WebSocketConnection.connect`, and its size guard. */
module Upgrade {
  import opened Wrappers
  import opened FrameCodec
  import opened ConnectionSpec
  import opened Sockets

  const TERMINATOR: Bytes := [13, 10, 13, 10]
  const MAX_RESPONSE: nat := 65536
  const MAX_CHUNK: nat := 4096

  predicate EndsAt(s: Bytes, i: nat)
  {
    i + 4 <= |s| && s[i] == 13 && s[i + 1] == 10 && s[i + 2] == 13 && s[i + 3] == 10
  }

  function FindFrom(s: Bytes, i: nat): (r: Option<nat>)
    requires i <= |s|
    ensures r.Some? ==> i <= r.value && EndsAt(s, r.value) && forall j :: i <= j < r.value ==> !EndsAt(s, j)
    ensures r.None? ==> forall j :: i <= j ==> !EndsAt(s, j)
    decreases |s| - i
  {
    if i + 4 > |s| then None
    else if EndsAt(s, i) then Some(i)
    else FindFrom(s, i + 1)
  }

  /** The first blank line (`b"\r\n\r\n" in response`, and where `partition` cuts). */
  function Find(s: Bytes): (r: Option<nat>)
    ensures r.Some? ==> EndsAt(s, r.value) && forall j :: 0 <= j < r.value ==> !EndsAt(s, j)
    ensures r.None? ==> forall j: nat :: !EndsAt(s, j)
  {
    FindFrom(s, 0)
  }

  datatype Outcome = Head(head: Bytes, rest: Bytes) | Refused | ServerClosed | Oversized | Interrupted

  function ReadHead(response: Bytes, incoming: seq<Delivery>): (Outcome, seq<Delivery>)
    decreases incoming
  {
    var at := Find(response);
    if at.Some? then (Head(response[..at.value], response[at.value + 4..]), incoming)
    else if incoming == [] then (Interrupted, incoming)
    else if !incoming[0].Data? then (Interrupted, incoming[1..])
    else if incoming[0].chunk == [] then (ServerClosed, incoming[1..])
    else if |response + incoming[0].chunk| > MAX_RESPONSE then (Oversized, incoming[1..])
    else ReadHead(response + incoming[0].chunk, incoming[1..])
  }

  /** Nothing is lost between the upgrade and the frames: head, blank line, kept bytes and unread
      stream are the socket's stream, and the cut is at the first blank line. */
  lemma {:induction false} UpgradeConserves(response: Bytes, incoming: seq<Delivery>)
    ensures var (o, later) := ReadHead(response, incoming);
            o.Head? ==>
              && Items(response) + ItemsOf(incoming) == Items(o.head + TERMINATOR + o.rest) + ItemsOf(later)
              && Find(o.head + TERMINATOR + o.rest) == Some(|o.head|)
              && (Find(response).None? ==> |o.head + TERMINATOR + o.rest| <= MAX_RESPONSE)
    decreases incoming
  {
    var at := Find(response);
    if at.Some? {
      SplitAgain(response, at.value);
    } else if incoming != [] && incoming[0].Data? && incoming[0].chunk != [] {
      var chunk := incoming[0].chunk;
      ItemsMove(response, chunk, incoming[1..]);
      if |response + chunk| <= MAX_RESPONSE {
        UpgradeConserves(response + chunk, incoming[1..]);
      }
    }
  }

  lemma SplitAgain(response: Bytes, at: nat)
    requires at + 4 <= |response| && EndsAt(response, at)
    ensures response == response[..at] + TERMINATOR + response[at + 4..]
  {
  }

  lemma ItemsMove(response: Bytes, chunk: Bytes, later: seq<Delivery>)
    requires chunk != []
    ensures Items(response) + ItemsOf([Data(chunk)] + later) == Items(response + chunk) + ItemsOf(later)
  {
    assert Items(response + chunk) == Items(response) + Items(chunk);
    assert ([Data(chunk)] + later)[1..] == later;
  }

  ghost predicate Chunking(chunks: seq<Bytes>)
  {
    forall i :: 0 <= i < |chunks| ==> 0 < |chunks[i]| <= MAX_CHUNK
  }

  lemma FindInPrefix(s: Bytes, n: nat, p: nat)
    requires n <= |s| && Find(s) == Some(p)
    ensures Find(s[..n]) == if p + 4 <= n then Some(p) else None
  {
    var t := s[..n];
    assert forall j: nat :: EndsAt(t, j) ==> EndsAt(s, j);
    if p + 4 <= n {
      assert EndsAt(t, p);
    }
  }

  /** Whatever the chunks, the split succeeds if the blank line ends early enough, or the answer is short
      enough as a whole. */
  lemma {:induction false} EarlyHeadIsRead(response: Bytes, chunks: seq<Bytes>, later: seq<Delivery>, p: nat)
    requires Chunking(chunks) && Find(response + Flatten(chunks)) == Some(p)
    requires p + 3 + MAX_CHUNK <= MAX_RESPONSE || |response + Flatten(chunks)| <= MAX_RESPONSE
    ensures ReadHead(response, DataOf(chunks) + later).0.Head?
    ensures ReadHead(response, DataOf(chunks) + later).0.head == (response + Flatten(chunks))[..p]
    decreases chunks
  {
    var s := response + Flatten(chunks);
    FindInPrefix(s, |response|, p);
    assert s[..|response|] == response;
    if p + 4 <= |response| {
      assert response[..p] == s[..p];
    } else {
      assert chunks != [];
      var incoming := DataOf(chunks) + later;
      assert incoming[0] == Data(chunks[0]) && incoming[1..] == DataOf(chunks[1..]) + later;
      assert s == (response + chunks[0]) + Flatten(chunks[1..]);
      EarlyHeadIsRead(response + chunks[0], chunks[1..], later, p);
    }
  }

  /** One way TCP can deliver `s`, and what becomes of the upgrade under it. */
  ghost predicate CutOf(chunks: seq<Bytes>, s: Bytes)
  {
    Chunking(chunks) && Flatten(chunks) == s
  }

  ghost function Verdict(chunks: seq<Bytes>): Outcome
  {
    ReadHead([], DataOf(chunks)).0
  }

  /** Cuts `s` into full chunks and a remainder. */
  ghost function Cut(s: Bytes): (r: seq<Bytes>)
    ensures Chunking(r) && Flatten(r) == s
  {
    if s == [] then []
    else if |s| <= MAX_CHUNK then
      FlattenOne(s);
      [s]
    else [s[..MAX_CHUNK]] + Cut(s[MAX_CHUNK..])
  }

  lemma {:induction false} ReadUpTo(response: Bytes, chunks: seq<Bytes>, later: seq<Delivery>)
    requires Chunking(chunks) && Find(response + Flatten(chunks)).None?
    requires |response + Flatten(chunks)| <= MAX_RESPONSE
    ensures ReadHead(response, DataOf(chunks) + later) == ReadHead(response + Flatten(chunks), later)
    decreases chunks
  {
    var s := response + Flatten(chunks);
    assert forall j: nat :: EndsAt(response, j) ==> EndsAt(s, j);
    if chunks == [] {
      assert s == response && DataOf(chunks) + later == later;
    } else {
      var incoming := DataOf(chunks) + later;
      assert incoming[0] == Data(chunks[0]) && incoming[1..] == DataOf(chunks[1..]) + later;
      assert s == (response + chunks[0]) + Flatten(chunks[1..]);
      ReadUpTo(response + chunks[0], chunks[1..], later);
    }
  }

  lemma OneChunkTooMany(before: Bytes, last: Bytes, rest: seq<Bytes>)
    requires Find(before).None? && |before| <= MAX_RESPONSE < |before| + |last|
    requires last != []
    ensures Verdict(Cut(before) + ([last] + rest)) == Oversized
  {
    hide Find, EndsAt, Flatten;
    var tail := [last] + rest;
    assert [] + Flatten(Cut(before)) == before;
    assert DataOf(Cut(before) + tail) == DataOf(Cut(before)) + DataOf(tail);
    assert DataOf(tail)[0] == Data(last);
    ReadUpTo([], Cut(before), DataOf(tail));
  }

  lemma ThreeParts(before: Bytes, last: Bytes, rest: Bytes)
    requires 0 < |last| <= MAX_CHUNK
    ensures var chunks := Cut(before) + ([last] + Cut(rest));
            Chunking(chunks) && Flatten(chunks) == before + last + rest
  {
    hide Flatten;
    FlattenCons(last, Cut(rest));
    FlattenConcat(Cut(before), [last] + Cut(rest));
    Associative(before, last, rest);
  }

  /** The guard counts the bytes behind the head too, so past that bound it depends on how TCP cut
      the answer: one chunk that brings the end of the blank line may also bring too much. */
  lemma LateHeadMayBeRefused(s: Bytes, p: nat) returns (chunks: seq<Bytes>)
    requires Find(s) == Some(p) && MAX_RESPONSE < |s| && MAX_RESPONSE < p + 3 + MAX_CHUNK
    ensures CutOf(chunks, s) && Verdict(chunks) == Oversized
  {
    var b := if p + 3 < MAX_RESPONSE then p + 3 else MAX_RESPONSE;
    var e := if b + MAX_CHUNK < |s| then b + MAX_CHUNK else |s|;
    FindInPrefix(s, b, p);
    assert s == s[..b] + s[b..e] + s[e..];
    ThreeParts(s[..b], s[b..e], s[e..]);
    OneChunkTooMany(s[..b], s[b..e], Cut(s[e..]));
    chunks := Cut(s[..b]) + ([s[b..e]] + Cut(s[e..]));
  }

  /** Exactly when the upgrade does not depend on the chunks: a head is accepted under every chunking if and
      only if its blank line starts by byte 61437 or the whole answer is no longer than the guard allows. */
  lemma HeadAcceptedUnderEveryChunking(s: Bytes, p: nat)
    requires Find(s) == Some(p)
    ensures (forall chunks :: CutOf(chunks, s) ==> Verdict(chunks).Head?)
       <==> p <= 61437 || |s| <= MAX_RESPONSE
  {
    if p <= 61437 || |s| <= MAX_RESPONSE {
      forall chunks | CutOf(chunks, s)
        ensures Verdict(chunks).Head?
      {
        assert [] + Flatten(chunks) == s && DataOf(chunks) + [] == DataOf(chunks);
        EarlyHeadIsRead([], chunks, [], p);
      }
    } else {
      var chunks := LateHeadMayBeRefused(s, p);
      assert CutOf(chunks, s) && !Verdict(chunks).Head?;
    }
  }
}
