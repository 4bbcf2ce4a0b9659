/** `_breakable_display_text` (plugin/ui/cards.py): zero-width spaces that let a long token wrap. */
module BreakSeeding {
  /** The zero-width space. It is no white space to a regular expression. */
  const ZWSP: char := '\U{200b}'

  const CHUNK: nat := 24

  /** What `\s` matches. */
  predicate Space(c: char)
  {
    || '\t' <= c <= '\r' || '\U{001c}' <= c <= ' ' || c == '\U{0085}' || c == '\U{00a0}' || c == '\U{1680}'
    || '\U{2000}' <= c <= '\U{200a}' || c == '\U{2028}' || c == '\U{2029}'
    || c == '\U{202f}' || c == '\U{205f}' || c == '\U{3000}'
  }

  /** The length of the unbroken run that the text begins with. */
  function Run(text: string): (n: nat)
    ensures n <= |text|
    ensures forall i :: 0 <= i < n ==> !Space(text[i])
    ensures n < |text| ==> Space(text[n])
  {
    if text == [] || Space(text[0]) then 0 else 1 + Run(text[1..])
  }

  /** `_chunk`. */
  function Chunk(token: string): string
  {
    if |token| <= CHUNK then token else token[..CHUNK] + [ZWSP] + Chunk(token[CHUNK..])
  }

  /** `_breakable_display_text`: `sub` over the maximal runs of more than `CHUNK` characters. */
  function Seed(text: string): string
  {
    if text == [] then []
    else if Space(text[0]) then [text[0]] + Seed(text[1..])
    else Chunk(text[..Run(text)]) + Seed(text[Run(text)..])
  }

  // ---------------------------------------------------------------------------------------
  // Where the breaks are
  // ---------------------------------------------------------------------------------------

  /** A token is broken behind every 24th character but the last, and nowhere else: its character `r` in the
      `q`-th stretch of 24 has `q` breaks before it. */
  lemma {:induction false} ChunkBreaks(token: string, q: nat, r: nat)
    requires r < 24 && 24 * q + r < |token|
    ensures 25 * q + r < |Chunk(token)| && Chunk(token)[25 * q + r] == token[24 * q + r]
    ensures 24 * q + r == |token| - 1 ==> |Chunk(token)| == 25 * q + r + 1
    ensures r == 23 && 24 * q + r < |token| - 1 ==>
              25 * q + 24 < |Chunk(token)| && Chunk(token)[25 * q + 24] == ZWSP
    decreases q
  {
    if |token| > CHUNK {
      var tail := token[CHUNK..];
      Unchunk(token);
      hide Chunk;
      if q > 0 {
        ChunkBreaks(tail, q - 1, r);
      }
    }
  }

  lemma Unchunk(token: string)
    requires |token| > CHUNK
    ensures Chunk(token) == token[..CHUNK] + [ZWSP] + Chunk(token[CHUNK..])
  {
  }

  predicate Token(s: string)
  {
    forall i :: 0 <= i < |s| ==> !Space(s[i])
  }

  lemma {:induction false} RunOfToken(a: string, b: string)
    requires Token(a) && (b == "" || Space(b[0]))
    ensures Run(a + b) == |a|
  {
    if a == "" {
      assert a + b == b;
    } else {
      assert (a + b)[1..] == a[1..] + b;
      RunOfToken(a[1..], b);
    }
  }

  /** Each token is broken by itself, and white space stays as it is. */
  lemma {:induction false} SeedTokenByToken(a: string, b: string)
    requires Token(a)
    ensures Seed(a) == (if a == "" then "" else Chunk(a))
    ensures b != "" && Space(b[0]) ==> Seed(a + b) == Seed(a) + [b[0]] + Seed(b[1..])
  {
    if a != "" {
      RunOfToken(a, "");
      assert a + "" == a && a[..|a|] == a && a[|a|..] == "";
    }
    if b != "" && Space(b[0]) {
      if a == "" {
        assert a + b == b;
      } else {
        RunOfToken(a, b);
        assert (a + b)[..|a|] == a && (a + b)[|a|..] == b;
      }
    }
  }

  /** The text without its zero-width spaces. */
  function Strip(text: string): string
  {
    if text == [] then [] else (if text[0] == ZWSP then [] else [text[0]]) + Strip(text[1..])
  }

  // ---------------------------------------------------------------------------------------
  // Nothing is lost
  // ---------------------------------------------------------------------------------------

  lemma StripFirst(text: string)
    ensures Strip("") == ""
    ensures text != "" ==> Strip(text) == (if text[0] == ZWSP then [] else [text[0]]) + Strip(text[1..])
  {
  }

  lemma {:induction false} StripConcat(a: string, b: string)
    ensures Strip(a + b) == Strip(a) + Strip(b)
  {
    hide Strip;
    StripFirst(a);
    StripFirst(a + b);
    if a == [] {
      assert a + b == b && [] + Strip(b) == Strip(b);
    } else {
      assert (a + b)[1..] == a[1..] + b;
      StripConcat(a[1..], b);
      Regroup(if a[0] == ZWSP then [] else [a[0]], Strip(a[1..]), Strip(b));
    }
  }

  lemma Regroup(a: string, b: string, c: string)
    ensures a + (b + c) == a + b + c
  {
  }

  lemma {:induction false} ChunkIsLossless(token: string)
    ensures Strip(Chunk(token)) == Strip(token)
  {
    if |token| > CHUNK {
      var head, tail := token[..CHUNK], token[CHUNK..];
      ChunkIsLossless(tail);
      StripConcat(head, [ZWSP] + Chunk(tail));
      assert head + ([ZWSP] + Chunk(tail)) == Chunk(token);
      assert ([ZWSP] + Chunk(tail))[1..] == Chunk(tail);
      StripConcat(head, tail);
      assert head + tail == token;
    }
  }

  /** Without its zero-width spaces the output is the input without its own. */
  lemma {:induction false} SeedIsLossless(text: string)
    ensures Strip(Seed(text)) == Strip(text)
    decreases |text|
  {
    if text != [] {
      if Space(text[0]) {
        SeedIsLossless(text[1..]);
        StripConcat([text[0]], Seed(text[1..]));
        StripConcat([text[0]], text[1..]);
        assert [text[0]] + text[1..] == text;
      } else {
        var token, rest := text[..Run(text)], text[Run(text)..];
        ChunkIsLossless(token);
        SeedIsLossless(rest);
        StripConcat(Chunk(token), Seed(rest));
        StripConcat(token, rest);
        assert token + rest == text;
      }
    }
  }

  lemma {:induction false} StripUntouched(text: string)
    ensures |Strip(text)| <= |text|
    ensures Strip(text) == text <==> ZWSP !in text
  {
    if text != [] {
      StripUntouched(text[1..]);
      assert text == [text[0]] + text[1..];
    }
  }

  /** Deleting the zero-width spaces gives the text back exactly when it had none of its own. */
  lemma TextComesBack(text: string)
    ensures Strip(Seed(text)) == text <==> ZWSP !in text
  {
    SeedIsLossless(text);
    StripUntouched(text);
  }

  // ---------------------------------------------------------------------------------------
  // Every stretch is short
  // ---------------------------------------------------------------------------------------

  /** Nowhere in the stretch may a line break. */
  predicate Unbreakable(s: string)
  {
    forall i :: 0 <= i < |s| ==> !Space(s[i]) && s[i] != ZWSP
  }

  /** How far the text goes before the first place to break. */
  function Lead(s: string): nat
  {
    if s == [] || Space(s[0]) || s[0] == ZWSP then 0 else 1 + Lead(s[1..])
  }

  predicate Bounded(s: string)
  {
    s == [] || (Lead(s) <= CHUNK && Bounded(s[1..]))
  }

  lemma {:induction false} BoundedPrepend(piece: string, rest: string)
    requires Lead(rest) == 0 && Bounded(rest) && |piece| <= CHUNK
    ensures Lead(piece + rest) <= |piece| && Bounded(piece + rest)
  {
    if piece == [] {
      assert piece + rest == rest;
    } else {
      BoundedPrepend(piece[1..], rest);
      assert (piece + rest)[1..] == piece[1..] + rest;
    }
  }

  lemma {:induction false} ChunkIsBounded(token: string, rest: string)
    requires Lead(rest) == 0 && Bounded(rest)
    ensures Bounded(Chunk(token) + rest)
  {
    if |token| <= CHUNK {
      BoundedPrepend(token, rest);
    } else {
      var tail := Chunk(token[CHUNK..]) + rest;
      ChunkIsBounded(token[CHUNK..], rest);
      assert ([ZWSP] + tail)[1..] == tail;
      BoundedPrepend(token[..CHUNK], [ZWSP] + tail);
      assert Chunk(token) + rest == token[..CHUNK] + ([ZWSP] + tail);
    }
  }

  lemma {:induction false} SeedIsBounded(text: string)
    ensures Bounded(Seed(text))
    ensures text != [] && Space(text[0]) ==> Lead(Seed(text)) == 0
    decreases |text|
  {
    if text != [] {
      if Space(text[0]) {
        SeedIsBounded(text[1..]);
        assert Seed(text)[1..] == Seed(text[1..]);
      } else {
        var rest := text[Run(text)..];
        SeedIsBounded(rest);
        assert Lead(Seed(rest)) == 0;
        ChunkIsBounded(text[..Run(text)], Seed(rest));
      }
    }
  }

  lemma {:induction false} StretchIsShort(s: string, i: nat, j: nat)
    requires Bounded(s) && i <= j <= |s| && Unbreakable(s[i..j])
    ensures j - i <= CHUNK
  {
    if i > 0 {
      assert s[1..][i - 1..j - 1] == s[i..j];
      StretchIsShort(s[1..], i - 1, j - 1);
    } else if s != [] {
      LeadIsLongest(s, j);
    }
  }

  lemma {:induction false} LeadIsLongest(s: string, j: nat)
    requires j <= |s| && Unbreakable(s[..j])
    ensures j <= Lead(s)
  {
    if j > 0 {
      assert s[..j][0] == s[0];
      assert s[1..][..j - 1] == s[..j][1..];
      LeadIsLongest(s[1..], j - 1);
    }
  }

  /** No more than `CHUNK` characters of the output stand together without a place to break. */
  lemma StretchesAreShort(text: string, i: nat, j: nat)
    requires i <= j <= |Seed(text)| && Unbreakable(Seed(text)[i..j])
    ensures j - i <= 24
  {
    SeedIsBounded(text);
    StretchIsShort(Seed(text), i, j);
  }

  // ---------------------------------------------------------------------------------------
  // Nothing more is changed than has to be
  // ---------------------------------------------------------------------------------------

  /** Some run of the text is longer than `CHUNK`. */
  ghost predicate HasLongRun(text: string)
  {
    exists i, j :: 0 <= i <= j <= |text| && j - i > CHUNK && Solid(text, i, j)
  }

  predicate Solid(text: string, i: nat, j: nat)
    requires i <= j <= |text|
  {
    forall k :: i <= k < j ==> !Space(text[k])
  }

  predicate ShortRuns(text: string)
    decreases |text|
  {
    if text == [] then true
    else if Space(text[0]) then ShortRuns(text[1..])
    else Run(text) <= CHUNK && ShortRuns(text[Run(text)..])
  }

  /** A run of the text lies in its first run, or beyond that. */
  lemma LongRunAt(text: string, n: nat)
    requires 0 < n <= |text| && (n == Run(text) || (Run(text) == 0 && n == 1))
    ensures HasLongRun(text) <==> Run(text) > CHUNK || HasLongRun(text[n..])
  {
    hide Space;
    var rest := text[n..];
    if Run(text) > CHUNK {
      assert Solid(text, 0, Run(text));
    } else if HasLongRun(text) {
      var i, j :| 0 <= i <= j <= |text| && j - i > CHUNK && Solid(text, i, j);
      if i >= n {
        assert Solid(rest, i - n, j - n);
      }
    }
    if HasLongRun(rest) {
      LongRunBehind(text, n);
    }
  }

  lemma LongRunBehind(text: string, n: nat)
    requires n <= |text| && HasLongRun(text[n..])
    ensures HasLongRun(text)
  {
    hide Space;
    var rest := text[n..];
    var i, j :| 0 <= i <= j <= |rest| && j - i > CHUNK && Solid(rest, i, j);
    forall k | i + n <= k < j + n
      ensures !Space(text[k])
    {
      assert text[k] == rest[k - n];
    }
    assert Solid(text, i + n, j + n);
  }

  lemma {:induction false} ShortRunsMeans(text: string)
    ensures ShortRuns(text) <==> !HasLongRun(text)
    decreases |text|
  {
    hide Space;
    if text != [] {
      var n := if Space(text[0]) then 1 else Run(text);
      LongRunAt(text, n);
      ShortRunsMeans(text[n..]);
    }
  }

  lemma {:induction false} ChunkGrows(token: string)
    ensures |Chunk(token)| >= |token|
    ensures |Chunk(token)| == |token| ==> |token| <= CHUNK && Chunk(token) == token
  {
    if |token| > CHUNK {
      ChunkGrows(token[CHUNK..]);
    }
  }

  lemma {:induction false} SeedGrows(text: string)
    ensures |Seed(text)| >= |text|
    ensures |Seed(text)| == |text| <==> ShortRuns(text)
    ensures ShortRuns(text) ==> Seed(text) == text
    decreases |text|
  {
    if text != [] {
      if Space(text[0]) {
        SeedGrows(text[1..]);
      } else {
        ChunkGrows(text[..Run(text)]);
        SeedGrows(text[Run(text)..]);
      }
    }
  }

  /** A text is left alone exactly when no run of it is too long. */
  lemma UntouchedExactlyWhenShort(text: string)
    ensures Seed(text) == text <==> !HasLongRun(text)
  {
    SeedGrows(text);
    ShortRunsMeans(text);
  }
}
