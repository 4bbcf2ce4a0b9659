/** The byte layout of one WebSocket frame: what `_send_frame` writes and `_recv_frame` reads
    (plugin/net/trid3nt_client.py), after section 5.2 of RFC 6455. A frame can be dressed in more than one
    way, with any length form that is wide enough and masked or not; a client has no choice but for the
    masking key, a server may write what it likes and is understood all the same. */
module FrameCodec {
  import opened Wrappers
  import opened Bits

  type Bytes = seq<bv8>

  /** The four masking bytes a client draws for every frame it sends. */
  type Key = k: Bytes | |k| == 4 witness [0, 0, 0, 0]

  datatype Frame = Frame(fin: bool, opcode: bv4, payload: Bytes)

  /** The three ways section 5.2 lets a sender write a payload length. */
  datatype LengthForm = Short | Medium | Long

  /** Everything about a frame on the wire that is not the frame itself. */
  datatype Dress = Dress(form: LengthForm, key: Option<Key>)

  const CONT: bv4 := 0x0
  const TEXT: bv4 := 0x1
  const BINARY: bv4 := 0x2
  const CLOSE: bv4 := 0x8
  const PING: bv4 := 0x9
  const PONG: bv4 := 0xA

  const MAX_LENGTH: nat := 0x1_0000_0000_0000_0000

  // ---------------------------------------------------------------------------------------
  // Masking
  // ---------------------------------------------------------------------------------------

  function ApplyKey(key: Key, data: Bytes): (r: Bytes)
    ensures |r| == |data|
  {
    seq(|data|, i requires 0 <= i < |data| => data[i] ^ key[i % 4])
  }

  lemma XorTwice(x: bv8, k: bv8)
    ensures (x ^ k) ^ k == x
  {
  }

  /** Section 5.3: masking and unmasking are one operation. */
  lemma ApplyKeyInvolution(key: Key, data: Bytes)
    ensures ApplyKey(key, ApplyKey(key, data)) == data
  {
    forall i | 0 <= i < |data|
      ensures ApplyKey(key, ApplyKey(key, data))[i] == data[i]
    {
      XorTwice(data[i], key[i % 4]);
    }
  }

  // ---------------------------------------------------------------------------------------
  // Big-endian lengths (struct "!H" and "!Q")
  // ---------------------------------------------------------------------------------------

  function BigEndian(n: nat, width: nat): (r: Bytes)
    ensures |r| == width
  {
    if width == 0 then [] else BigEndian(n / 256, width - 1) + [(n % 256) as bv8]
  }

  function FromBigEndian(b: Bytes): nat
  {
    if b == [] then 0 else 256 * FromBigEndian(b[..|b| - 1]) + b[|b| - 1] as nat
  }

  ghost function Pow256(width: nat): nat
  {
    if width == 0 then 1 else 256 * Pow256(width - 1)
  }

  lemma Pow256Values()
    ensures Pow256(2) == 65536 && Pow256(8) == MAX_LENGTH
  {
    assert Pow256(3) == 256 * Pow256(2);
    assert Pow256(4) == 256 * Pow256(3);
    assert Pow256(5) == 256 * Pow256(4);
    assert Pow256(6) == 256 * Pow256(5);
    assert Pow256(7) == 256 * Pow256(6);
  }

  lemma {:induction false} BigEndianRoundTrip(n: nat, width: nat)
    requires n < Pow256(width)
    ensures FromBigEndian(BigEndian(n, width)) == n
  {
    if width > 0 {
      var b := BigEndian(n, width);
      assert b[..|b| - 1] == BigEndian(n / 256, width - 1);
      BigEndianRoundTrip(n / 256, width - 1);
      ByteRoundTrip(n % 256);
    }
  }

  // ---------------------------------------------------------------------------------------
  // The frame header
  // ---------------------------------------------------------------------------------------

  function FirstByte(fin: bool, opcode: bv4): bv8
  {
    (if fin then 0x80 else 0x00) | (opcode as bv8)
  }

  function SecondByte(masked: bool, length7: bv8): bv8
  {
    (if masked then 0x80 else 0x00) | length7
  }

  lemma FirstByteRoundTrip(fin: bool, opcode: bv4)
    ensures (FirstByte(fin, opcode) & 0x80 != 0) == fin
    ensures (FirstByte(fin, opcode) & 0x0F) as bv4 == opcode
  {
  }

  lemma SecondByteRoundTrip(masked: bool, length7: bv8)
    requires length7 < 0x80
    ensures (SecondByte(masked, length7) & 0x80 != 0) == masked
    ensures SecondByte(masked, length7) & 0x7F == length7
  {
  }

  lemma SmallAsByte(n: nat)
    requires n < 128
    ensures (n as bv8) < 0x80
  {
  }

  predicate Fits(n: nat, form: LengthForm)
  {
    match form
    case Short => n < 126
    case Medium => n < 65536
    case Long => n < MAX_LENGTH
  }

  function Length7(n: nat, form: LengthForm): bv8
    requires Fits(n, form)
  {
    match form
    case Short => n as bv8
    case Medium => 126
    case Long => 127
  }

  function Extension(n: nat, form: LengthForm): Bytes
    requires Fits(n, form)
  {
    match form
    case Short => []
    case Medium => BigEndian(n, 2)
    case Long => BigEndian(n, 8)
  }

  /** The form `_send_frame` picks. */
  function MinimalForm(n: nat): LengthForm
  {
    if n < 126 then Short else if n < 65536 then Medium else Long
  }

  predicate CanEncode(f: Frame, d: Dress)
  {
    Fits(|f.payload|, d.form)
  }

  function KeyBytes(key: Option<Key>): Bytes
  {
    if key.Some? then key.value else []
  }

  function Body(key: Option<Key>, payload: Bytes): (r: Bytes)
    ensures |r| == |payload|
  {
    if key.Some? then ApplyKey(key.value, payload) else payload
  }

  function Header(fin: bool, opcode: bv4, masked: bool, n: nat, form: LengthForm): Bytes
    requires Fits(n, form)
  {
    [FirstByte(fin, opcode), SecondByte(masked, Length7(n, form))] + Extension(n, form)
  }

  /** One frame on the wire, in any legal dress. */
  function Encode(f: Frame, d: Dress): Bytes
    requires CanEncode(f, d)
  {
    Header(f.fin, f.opcode, d.key.Some?, |f.payload|, d.form) + KeyBytes(d.key) + Body(d.key, f.payload)
  }

  /** The dress the client itself always uses. */
  function ClientDress(n: nat, key: Key): Dress
  {
    Dress(MinimalForm(n), Some(key))
  }

  /** A frame together with the dress one sender put it in. */
  datatype Packet = Packet(frame: Frame, dress: Dress)

  ghost predicate CanEncodeAll(ps: seq<Packet>)
  {
    forall i :: 0 <= i < |ps| ==> CanEncode(ps[i].frame, ps[i].dress)
  }

  ghost function Frames(ps: seq<Packet>): (r: seq<Frame>)
    ensures |r| == |ps|
  {
    seq(|ps|, i requires 0 <= i < |ps| => ps[i].frame)
  }

  ghost function Encodings(ps: seq<Packet>): (r: seq<Bytes>)
    requires CanEncodeAll(ps)
    ensures |r| == |ps|
  {
    seq(|ps|, i requires 0 <= i < |ps| => Encode(ps[i].frame, ps[i].dress))
  }

  ghost function EncodeAll(ps: seq<Packet>): Bytes
    requires CanEncodeAll(ps)
  {
    Flatten(Encodings(ps))
  }

  function Flatten<T>(parts: seq<seq<T>>): seq<T>
  {
    if parts == [] then [] else parts[0] + Flatten(parts[1..])
  }

  lemma {:induction false} FlattenConcat<T>(a: seq<seq<T>>, b: seq<seq<T>>)
    ensures Flatten(a + b) == Flatten(a) + Flatten(b)
  {
    if a == [] {
      assert a + b == b;
    } else {
      var x, rest := a[0], a[1..];
      FlattenConcat(rest, b);
      assert a == [x] + rest && a + b == [x] + (rest + b);
      FlattenCons(x, rest + b);
      FlattenCons(x, rest);
      Associative(x, Flatten(rest), Flatten(b));
    }
  }

  lemma Associative<T>(a: seq<T>, b: seq<T>, c: seq<T>)
    ensures a + (b + c) == a + b + c
  {
  }

  lemma FlattenCons<T>(x: seq<T>, rest: seq<seq<T>>)
    ensures Flatten([x] + rest) == x + Flatten(rest)
  {
    assert ([x] + rest)[1..] == rest;
  }

  lemma FlattenOne<T>(x: seq<T>)
    ensures Flatten([x]) == x
  {
    assert [x][1..] == [];
  }

  lemma EncodeAllConcat(ps: seq<Packet>, qs: seq<Packet>)
    requires CanEncodeAll(ps) && CanEncodeAll(qs)
    ensures CanEncodeAll(ps + qs)
    ensures EncodeAll(ps + qs) == EncodeAll(ps) + EncodeAll(qs)
  {
    assert Encodings(ps + qs) == Encodings(ps) + Encodings(qs);
    FlattenConcat(Encodings(ps), Encodings(qs));
  }

  lemma EncodeAllOne(p: Packet)
    requires CanEncode(p.frame, p.dress)
    ensures CanEncodeAll([p]) && EncodeAll([p]) == Encode(p.frame, p.dress)
  {
    assert Encodings([p]) == [Encode(p.frame, p.dress)];
    FlattenOne(Encode(p.frame, p.dress));
  }

  /** Section 5.2 asks for the minimal number of length bytes: every other form that can carry the
      same payload is strictly longer than the one `_send_frame` picks. */
  lemma MinimalFormIsShortest(f: Frame, form: LengthForm, key: Option<Key>)
    requires Fits(|f.payload|, form)
    ensures Fits(|f.payload|, MinimalForm(|f.payload|))
    ensures var best := Encode(f, Dress(MinimalForm(|f.payload|), key));
            var other := Encode(f, Dress(form, key));
            |best| <= |other| && (|best| == |other| <==> form == MinimalForm(|f.payload|))
  {
    var n := |f.payload|;
    assert MinimalForm(n).Short? ==> |Extension(n, MinimalForm(n))| == 0;
    assert MinimalForm(n).Medium? ==> |Extension(n, MinimalForm(n))| == 2;
    assert MinimalForm(n).Long? ==> |Extension(n, MinimalForm(n))| == 8;
    assert |Extension(n, form)| == (match form case Short => 0 case Medium => 2 case Long => 8);
  }
}
