/** `ToolIoPayload.json_field` (contracts/trid3nt_contracts/ws.py): a text cut at a byte cap. */
module JsonField {
  import opened Wrappers

  // The text is what `json.dumps`, or `str` after it, made of the value; the encoding is that of section 3
  // of RFC 3629.

  type Byte = b: nat | b < 256

  /** One character of a Python text; lone surrogates are among them. */
  type CodePoint = c: nat | c <= 0x10_FFFF

  type Text = seq<CodePoint>

  const MAX_FIELD_BYTES: nat := 32_768

  predicate Surrogate(c: CodePoint)
  {
    0xD800 <= c <= 0xDFFF
  }

  predicate Encodable(text: Text)
  {
    forall i :: 0 <= i < |text| ==> !Surrogate(text[i])
  }

  // ---------------------------------------------------------------------------------------
  // Encoding
  // ---------------------------------------------------------------------------------------

  function Tail(x: nat): Byte
  {
    0x80 + x % 64
  }

  function EncodeOne(c: CodePoint): (bytes: seq<Byte>)
    ensures 1 <= |bytes| <= 4
  {
    if c < 0x80 then [c]
    else if c < 0x800 then [0xC0 + c / 64, Tail(c)]
    else if c < 0x1_0000 then [0xE0 + c / 4096, Tail(c / 64), Tail(c)]
    else [0xF0 + c / 262_144, Tail(c / 4096), Tail(c / 64), Tail(c)]
  }

  function Encode(text: Text): seq<Byte>
  {
    if text == [] then [] else EncodeOne(text[0]) + Encode(text[1..])
  }

  // ---------------------------------------------------------------------------------------
  // Decoding
  // ---------------------------------------------------------------------------------------

  /** How many bytes a character takes, by its first; nothing starts with a byte that maps to 0. */
  function Width(lead: Byte): nat
  {
    if lead < 0x80 then 1
    else if lead < 0xC0 then 0
    else if lead < 0xE0 then 2
    else if lead < 0xF0 then 3
    else if lead < 0xF8 then 4
    else 0
  }

  predicate Continues(b: Byte)
  {
    0x80 <= b < 0xC0
  }

  function Value(bytes: seq<Byte>): nat
    requires bytes != [] && |bytes| == Width(bytes[0])
    requires forall i :: 1 <= i < |bytes| ==> Continues(bytes[i])
  {
    if |bytes| == 1 then bytes[0]
    else if |bytes| == 2 then Above(bytes[0], 0xC0) * 64 + Low(bytes[1])
    else if |bytes| == 3 then Above(bytes[0], 0xE0) * 4096 + Low(bytes[1]) * 64 + Low(bytes[2])
    else Above(bytes[0], 0xF0) * 262_144 + Low(bytes[1]) * 4096 + Low(bytes[2]) * 64 + Low(bytes[3])
  }

  function Above(b: Byte, mark: nat): nat
    requires b >= mark
  {
    b - mark
  }

  function Low(b: Byte): nat
    requires Continues(b)
  {
    b - 0x80
  }

  /** The character that the bytes begin with, if they begin with one: complete, in its shortest form and
      no surrogate. */
  function DecodeOne(bytes: seq<Byte>): (r: Option<CodePoint>)
    requires bytes != []
    ensures r.Some? ==> 1 <= Width(bytes[0]) <= |bytes|
  {
    var n := Width(bytes[0]);
    if n == 0 || |bytes| < n || !(forall i :: 1 <= i < n ==> Continues(bytes[i])) then None
    else
      var c := Value(bytes[..n]);
      if c > 0x10_FFFF || Surrogate(c) || |EncodeOne(c)| != n then None else Some(c)
  }

  /** `decode("utf-8", errors="ignore")`. Of a broken character only the first byte is skipped here: the
      bytes that continue one start none, so they are skipped in their turn. */
  function DecodeIgnore(bytes: seq<Byte>): Text
  {
    if bytes == [] then []
    else
      match DecodeOne(bytes)
      case Some(c) => [c] + DecodeIgnore(bytes[Width(bytes[0])..])
      case None => DecodeIgnore(bytes[1..])
  }

  // ---------------------------------------------------------------------------------------
  // The field
  // ---------------------------------------------------------------------------------------

  datatype Outcome = Raises | Field(text: Text, truncated: bool, origBytes: nat)

  function Cut(text: Text, cap: nat): Outcome
  {
    if !Encodable(text) then Raises
    else
      var bytes := Encode(text);
      if |bytes| <= cap then Field(text, false, |bytes|)
      else Field(DecodeIgnore(bytes[..cap]), true, |bytes|)
  }

  /** `json_field`. */
  function Reported(text: Text): Outcome
  {
    Cut(text, MAX_FIELD_BYTES)
  }

  // ---------------------------------------------------------------------------------------
  // Characters
  // ---------------------------------------------------------------------------------------

  /** Every character that may be encoded is read back, whatever follows it. */
  lemma OneRoundTrip(c: CodePoint, rest: seq<Byte>)
    requires !Surrogate(c)
    ensures DecodeOne(EncodeOne(c) + rest) == Some(c) && Width(EncodeOne(c)[0]) == |EncodeOne(c)|
  {
    var code := EncodeOne(c);
    OneShape(c);
    ValueOfOne(c);
    assert (code + rest)[..|code|] == code;
  }

  /** The shape of an encoded character: as short as its number allows, the first byte tells its length, and the
      others start nothing. */
  lemma OneShape(c: CodePoint)
    ensures |EncodeOne(c)| == if c < 0x80 then 1 else if c < 0x800 then 2 else if c < 0x1_0000 then 3 else 4
    ensures Width(EncodeOne(c)[0]) == |EncodeOne(c)|
    ensures forall i :: 1 <= i < |EncodeOne(c)| ==> Continues(EncodeOne(c)[i])
  {
  }

  lemma ValueOfOne(c: CodePoint)
    requires Width(EncodeOne(c)[0]) == |EncodeOne(c)|
    requires forall i :: 1 <= i < |EncodeOne(c)| ==> Continues(EncodeOne(c)[i])
    ensures Value(EncodeOne(c)) == c
  {
    Digits(c);
  }

  lemma Digits(c: nat)
    ensures c == c / 64 * 64 + c % 64
    ensures c / 64 == c / 4096 * 64 + c / 64 % 64
    ensures c / 4096 == c / 262_144 * 64 + c / 4096 % 64
  {
  }

  lemma {:induction false} ContinuationsVanish(bytes: seq<Byte>)
    requires forall i :: 0 <= i < |bytes| ==> Continues(bytes[i])
    ensures DecodeIgnore(bytes) == []
  {
    if bytes != [] {
      ContinuationsVanish(bytes[1..]);
    }
  }

  /** A character cut short leaves no trace. */
  lemma PartVanishes(c: CodePoint, n: nat)
    requires n < |EncodeOne(c)|
    ensures DecodeIgnore(EncodeOne(c)[..n]) == []
  {
    var part := EncodeOne(c)[..n];
    OneShape(c);
    if n > 0 {
      assert DecodeOne(part) == None;
      ContinuationsVanish(part[1..]);
    }
  }

  // ---------------------------------------------------------------------------------------
  // Texts
  // ---------------------------------------------------------------------------------------

  /** The encoding is lossless on every text without surrogates. */
  lemma {:induction false} TextRoundTrip(text: Text)
    requires Encodable(text)
    ensures DecodeIgnore(Encode(text)) == text
  {
    if text != [] {
      hide EncodeOne, DecodeOne;
      var code, rest := EncodeOne(text[0]), Encode(text[1..]);
      OneRoundTrip(text[0], rest);
      assert (code + rest)[|code|..] == rest && (code + rest)[0] == code[0];
      TextRoundTrip(text[1..]);
    }
  }

  /** `k` characters are all that fit the cap. */
  ghost predicate LongestFit(text: Text, cap: nat, k: nat)
  {
    && k <= |text|
    && |Encode(text[..k])| <= cap
    && (forall j :: k < j <= |text| ==> |Encode(text[..j])| > cap)
  }

  lemma EncodeFirst(text: Text, k: nat)
    requires 0 < k <= |text|
    ensures Encode(text[..k]) == EncodeOne(text[0]) + Encode(text[1..][..k - 1])
  {
    assert text[..k][1..] == text[1..][..k - 1];
  }

  /** Cutting the bytes anywhere leaves the longest prefix that fits, and at most 3 bytes go with it. */
  lemma {:induction false} CutKeepsLongestPrefix(text: Text, cap: nat) returns (k: nat)
    requires Encodable(text) && cap < |Encode(text)|
    ensures LongestFit(text, cap, k)
    ensures DecodeIgnore(Encode(text)[..cap]) == text[..k]
    ensures |Encode(text[..k])| >= cap - 3
  {
    hide EncodeOne, DecodeOne;
    var code, rest := EncodeOne(text[0]), Encode(text[1..]);
    if cap < |code| {
      k := 0;
      PartVanishes(text[0], cap);
      assert (code + rest)[..cap] == code[..cap];
      forall j | 0 < j <= |text|
        ensures |Encode(text[..j])| > cap
      {
        EncodeFirst(text, j);
      }
    } else {
      var less := CutKeepsLongestPrefix(text[1..], cap - |code|);
      k := less + 1;
      var kept := rest[..cap - |code|];
      assert (code + rest)[..cap] == code + kept;
      OneRoundTrip(text[0], kept);
      assert (code + kept)[|code|..] == kept && (code + kept)[0] == code[0];
      EncodeFirst(text, k);
      assert text[..k] == [text[0]] + text[1..][..less];
      forall j | k < j <= |text|
        ensures |Encode(text[..j])| > cap
      {
        EncodeFirst(text, j);
      }
    }
  }

  // ---------------------------------------------------------------------------------------
  // What the field reports
  // ---------------------------------------------------------------------------------------

  /** The cut flag and the length are those of the whole text; the text itself is its longest prefix
      within the cap, less than a character short of it when it was cut. */
  lemma ReportIsLongestPrefix(text: Text) returns (k: nat)
    requires Encodable(text)
    ensures LongestFit(text, MAX_FIELD_BYTES, k)
    ensures Reported(text) == Field(text[..k], |Encode(text)| > MAX_FIELD_BYTES, |Encode(text)|)
    ensures |Encode(text)| > MAX_FIELD_BYTES ==> MAX_FIELD_BYTES - 3 <= |Encode(text[..k])| <= MAX_FIELD_BYTES
  {
    if |Encode(text)| <= MAX_FIELD_BYTES {
      k := |text|;
      assert text[..k] == text;
    } else {
      k := CutKeepsLongestPrefix(text, MAX_FIELD_BYTES);
    }
  }
}
