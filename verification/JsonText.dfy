/** The text that `json_field` cuts: `json.dumps` of the value, or `str` of it where that fails. */
module JsonText {
  import opened Wrappers
  import opened JsonField

  type Ascii = t: Text | forall i :: 0 <= i < |t| ==> t[i] < 0x80

  // What is neither a JSON value nor a list, tuple or dictionary is `Foreign`: all that is known of it is
  // what its own `str` and `repr` answer, where they answer at all. A number comes with its text. `Again`
  // stands where a list or dictionary is found inside itself. The entries of a dictionary are written in
  // the order they come in; the lines are not sorted here.

  datatype Value =
    | Null
    | Bool(b: bool)
    | Num(digits: Ascii)
    | Str(text: Text)
    | List(items: seq<Value>, isTuple: bool)
    | Dict(entries: seq<Entry>)
    | Again(isDict: bool)
    | Foreign(str: Option<Text>, repr: Option<Text>)

  datatype Entry = Entry(key: Value, value: Value)

  /** What the interpreter adds: which characters print, how many digits an integer may be written with
      (4300, unless set otherwise), and for which values the stack is deep enough, so many levels down, when
      `json.dumps` or `repr` gets to them. */
  datatype Python = Python(
    printable: CodePoint -> bool,
    maxDigits: nat,
    roomToDump: (nat, Value) -> bool,
    roomToShow: (nat, Value) -> bool)

  function Codes(s: string): Text
  {
    seq(|s|, i requires 0 <= i < |s| => s[i] as int)
  }

  function Joined(parts: seq<Text>, sep: Text): Text
  {
    if parts == [] then []
    else if |parts| == 1 then parts[0]
    else parts[0] + sep + Joined(parts[1..], sep)
  }

  function Digit(n: nat): CodePoint
  {
    if n % 16 < 10 then '0' as int + n % 16 else 'a' as int + (n % 16 - 10)
  }

  function Hex(n: nat, width: nat): (t: Text)
    ensures |t| == width
    ensures forall i :: 0 <= i < |t| ==> t[i] < 0x80
  {
    if width == 0 then [] else Hex(n / 16, width - 1) + [Digit(n)]
  }

  // ---------------------------------------------------------------------------------------
  // json.dumps
  // ---------------------------------------------------------------------------------------

  /** How a character stands in a JSON string: everything outside printable ASCII is escaped, beyond the
      first plane as two halves. */
  function Escaped(c: CodePoint): Text
  {
    if c == '"' as int || c == '\\' as int then ['\\' as int, c]
    else if c == '\n' as int then Codes("\\n")
    else if c == '\r' as int then Codes("\\r")
    else if c == '\t' as int then Codes("\\t")
    else if c == 0x0C then Codes("\\f")
    else if c == 0x08 then Codes("\\b")
    else if 0x20 <= c < 0x7F then [c]
    else if c < 0x1_0000 then Codes("\\u") + Hex(c, 4)
    else Codes("\\u") + Hex(0xD800 + (c - 0x1_0000) / 0x400, 4) + Codes("\\u") + Hex(0xDC00 + c % 0x400, 4)
  }

  function EscapedAll(text: Text): Text
  {
    if text == [] then [] else Escaped(text[0]) + EscapedAll(text[1..])
  }

  function Quoted(text: Text): Text
  {
    ['"' as int] + EscapedAll(text) + ['"' as int]
  }

  predicate IsNumeric(v: Value)
  {
    v.Num? || v.Bool?
  }

  /** The keys can be written and `sort_keys` can compare them: all texts, all numbers, or a single None. */
  predicate Sortable(entries: seq<Entry>)
  {
    || (forall i :: 0 <= i < |entries| ==> entries[i].key.Str?)
    || (forall i :: 0 <= i < |entries| ==> IsNumeric(entries[i].key))
    || (|entries| == 1 && entries[0].key.Null?)
  }

  /** The number has more digits than the interpreter writes; a sign is none of them. */
  predicate TooLong(v: Value, py: Python)
  {
    v.Num? && |v.digits| - (if v.digits != [] && v.digits[0] == '-' as int then 1 else 0) > py.maxDigits
  }

  /** What neither `json.dumps` nor `repr` takes apart; `None` is an exception. */
  function Atom(v: Value, py: Python): Option<Text>
    requires !v.List? && !v.Dict?
  {
    match v
    case Null => Some(Codes("null"))
    case Bool(b) => Some(Codes(if b then "true" else "false"))
    case Num(digits) => if TooLong(v, py) then None else Some(digits)
    case Str(text) => Some(Quoted(text))
    case Again(_) => None
    case Foreign(str, _) => if str.None? then None else Some(Quoted(str.value))
  }

  /** Keys other than texts are quoted as they would be written. */
  function KeyText(v: Value, py: Python): Option<Text>
    requires v.Str? || IsNumeric(v) || v.Null?
  {
    match Atom(v, py)
    case Some(text) => Some(if v.Str? then text else ['"' as int] + text + ['"' as int])
    case None => None
  }

  function Break(level: nat): Text
  {
    ['\n' as int] + seq(2 * level, i => ' ' as int)
  }

  /** The texts of all parts, or the exception that one of them raised. */
  function All(parts: seq<Option<Text>>): (r: Option<seq<Text>>)
    ensures r.Some? <==> forall i :: 0 <= i < |parts| ==> parts[i].Some?
    ensures r.Some? ==> |r.value| == |parts| && forall i :: 0 <= i < |parts| ==> r.value[i] == parts[i].value
  {
    if exists i :: 0 <= i < |parts| && parts[i].None? then None
    else Some(seq(|parts|, i requires 0 <= i < |parts| => parts[i].value))
  }

  function Line(key: Option<Text>, value: Option<Text>): Option<Text>
  {
    if key.None? || value.None? then None else Some(key.value + Codes(": ") + value.value)
  }

  /** Brackets around lines one level further in; nothing between them where there are none. */
  function Wrapped(open: char, close: char, parts: seq<Text>, level: nat): Text
  {
    if parts == [] then [open as int, close as int]
    else
      [open as int] + Break(level + 1) + Joined(parts, [',' as int] + Break(level + 1)) + Break(level) + [close as int]
  }

  /** `json.dumps(value, indent=2, sort_keys=True, default=str)`, `level` lists or dictionaries down. */
  function Dumps(v: Value, level: nat, py: Python): Option<Text>
  {
    if !py.roomToDump(level, v) then None
    else
      match v
      case List(items, _) =>
        (match All(DumpedItems(items, level, py))
         case Some(parts) => Some(Wrapped('[', ']', parts, level))
         case None => None)
      case Dict(entries) =>
        if !Sortable(entries) then None
        else
          (match All(DumpedEntries(entries, level, py))
           case Some(parts) => Some(Wrapped('{', '}', parts, level))
           case None => None)
      case _ => Atom(v, py)
  }

  function DumpedItems(items: seq<Value>, level: nat, py: Python): (parts: seq<Option<Text>>)
    ensures |parts| == |items|
  {
    seq(|items|, i requires 0 <= i < |items| => Dumps(items[i], level + 1, py))
  }

  function DumpedEntries(entries: seq<Entry>, level: nat, py: Python): (parts: seq<Option<Text>>)
    requires Sortable(entries)
    ensures |parts| == |entries|
  {
    seq(|entries|, i requires 0 <= i < |entries| => DumpedEntry(entries[i], level + 1, py))
  }

  function DumpedEntry(e: Entry, level: nat, py: Python): Option<Text>
    requires e.key.Str? || IsNumeric(e.key) || e.key.Null?
  {
    Line(KeyText(e.key, py), Dumps(e.value, level, py))
  }

  // ---------------------------------------------------------------------------------------
  // str
  // ---------------------------------------------------------------------------------------

  /** A quote of the kind that the text does not contain, where it contains only one kind. */
  function QuoteOf(text: Text): CodePoint
  {
    if '\'' as int in text && '"' as int !in text then '"' as int else '\'' as int
  }

  /** How a character stands in the `repr` of a text: what is not printable is escaped, and no half of a
      pair is printable. */
  function Shown(c: CodePoint, quote: CodePoint, printable: CodePoint -> bool): Text
  {
    if c == quote || c == '\\' as int then ['\\' as int, c]
    else if c == '\n' as int then Codes("\\n")
    else if c == '\r' as int then Codes("\\r")
    else if c == '\t' as int then Codes("\\t")
    else if 0x20 <= c < 0x7F || (c >= 0x80 && !Surrogate(c) && printable(c)) then [c]
    else if c < 0x100 then Codes("\\x") + Hex(c, 2)
    else if c < 0x1_0000 then Codes("\\u") + Hex(c, 4)
    else Codes("\\U") + Hex(c, 8)
  }

  function ShownAll(text: Text, quote: CodePoint, printable: CodePoint -> bool): Text
  {
    if text == [] then [] else Shown(text[0], quote, printable) + ShownAll(text[1..], quote, printable)
  }

  function OpenText(isTuple: bool): Text
  {
    [if isTuple then '(' as int else '[' as int]
  }

  /** A tuple of one element ends in a comma. */
  function CloseText(isTuple: bool, size: nat): Text
  {
    if !isTuple then [']' as int] else if size == 1 then Codes(",)") else [')' as int]
  }

  /** `repr`, `level` calls of itself down. */
  function Repr(v: Value, level: nat, py: Python): Option<Text>
  {
    if !py.roomToShow(level, v) then None
    else
      match v
      case Null => Some(Codes("None"))
      case Bool(b) => Some(Codes(if b then "True" else "False"))
      case Num(digits) => if TooLong(v, py) then None else Some(digits)
      case Str(text) => var q := QuoteOf(text); Some([q] + ShownAll(text, q, py.printable) + [q])
      case List(items, isTuple) =>
        (match All(ShownItems(items, level, py))
         case Some(parts) => Some(OpenText(isTuple) + Joined(parts, Codes(", ")) + CloseText(isTuple, |items|))
         case None => None)
      case Dict(entries) =>
        (match All(ShownEntries(entries, level, py))
         case Some(parts) => Some(Codes("{") + Joined(parts, Codes(", ")) + Codes("}"))
         case None => None)
      case Again(isDict) => Some(Codes(if isDict then "{...}" else "[...]"))
      case Foreign(_, repr) => repr
  }

  function ShownItems(items: seq<Value>, level: nat, py: Python): (parts: seq<Option<Text>>)
    ensures |parts| == |items|
  {
    seq(|items|, i requires 0 <= i < |items| => Repr(items[i], level + 1, py))
  }

  function ShownEntries(entries: seq<Entry>, level: nat, py: Python): (parts: seq<Option<Text>>)
    ensures |parts| == |entries|
  {
    seq(|entries|, i requires 0 <= i < |entries| => ShownEntry(entries[i], level + 1, py))
  }

  function ShownEntry(e: Entry, level: nat, py: Python): Option<Text>
  {
    Line(Repr(e.key, level, py), Repr(e.value, level, py))
  }

  /** `str`: that of an object of the program's own, and otherwise the `repr`, since a text is always
      serializable. */
  function Shows(v: Value, py: Python): Option<Text>
  {
    if v.Foreign? then v.str else Repr(v, 0, py)
  }

  /** `json_field`, up to the text and on from there. */
  function FieldOf(v: Value, py: Python): Outcome
  {
    match Dumps(v, 0, py)
    case Some(text) => Reported(text)
    case None =>
      match Shows(v, py)
      case Some(text) => Reported(text)
      case None => Raises
  }

  // ---------------------------------------------------------------------------------------
  // What raises
  // ---------------------------------------------------------------------------------------

  /** Somewhere inside sits something that `json.dumps` cannot write: keys it cannot sort or spell, a number
      of too many digits, a container inside itself, an object whose `str` raises, or nesting too deep. */
  predicate Unwritable(v: Value, level: nat, py: Python)
  {
    || !py.roomToDump(level, v)
    || match v
       case List(items, _) => exists i :: 0 <= i < |items| && Unwritable(items[i], level + 1, py)
       case Dict(entries) =>
         || !Sortable(entries)
         || (exists i :: 0 <= i < |entries| && TooLong(entries[i].key, py))
         || (exists i :: 0 <= i < |entries| && Unwritable(entries[i].value, level + 1, py))
       case Num(_) => TooLong(v, py)
       case Again(_) => true
       case Foreign(str, _) => str.None?
       case _ => false
  }

  /** Somewhere inside, keys included, sits something whose `repr` raises. */
  predicate Mute(v: Value, level: nat, py: Python)
  {
    || !py.roomToShow(level, v)
    || match v
       case List(items, _) => exists i :: 0 <= i < |items| && Mute(items[i], level + 1, py)
       case Dict(entries) =>
         || (exists i :: 0 <= i < |entries| && Mute(entries[i].key, level + 1, py))
         || (exists i :: 0 <= i < |entries| && Mute(entries[i].value, level + 1, py))
       case Num(_) => TooLong(v, py)
       case Foreign(_, repr) => repr.None?
       case _ => false
  }

  /** Somewhere inside sits an object whose own `repr` has a lone surrogate. */
  predicate Loud(v: Value)
  {
    match v
    case List(items, _) => exists i :: 0 <= i < |items| && Loud(items[i])
    case Dict(entries) => exists i :: 0 <= i < |entries| && (Loud(entries[i].key) || Loud(entries[i].value))
    case Foreign(_, repr) => repr.Some? && !Encodable(repr.value)
    case _ => false
  }

  /** `str` raises on the value or brings a lone surrogate: its own `str` where it is an object of the
      program, and otherwise the `repr` of something inside. */
  predicate Unshowable(v: Value, py: Python)
  {
    if v.Foreign? then v.str.None? || !Encodable(v.str.value) else Mute(v, 0, py) || Loud(v)
  }

  lemma EncodableConcat(a: Text, b: Text)
    ensures Encodable(a + b) <==> Encodable(a) && Encodable(b)
  {
    assert forall i :: 0 <= i < |a| ==> (a + b)[i] == a[i];
    assert forall i :: 0 <= i < |b| ==> (a + b)[|a| + i] == b[i];
  }

  ghost predicate AllEncodable(parts: seq<Text>)
  {
    forall i :: 0 <= i < |parts| ==> Encodable(parts[i])
  }

  lemma {:induction false} JoinedEncodable(parts: seq<Text>, sep: Text)
    requires Encodable(sep)
    ensures Encodable(Joined(parts, sep)) <==> AllEncodable(parts)
  {
    if |parts| > 1 {
      JoinedEncodable(parts[1..], sep);
      EncodableConcat(parts[0] + sep, Joined(parts[1..], sep));
      EncodableConcat(parts[0], sep);
      assert forall i :: 0 <= i < |parts[1..]| ==> parts[1..][i] == parts[i + 1];
      assert AllEncodable(parts) <==> Encodable(parts[0]) && AllEncodable(parts[1..]);
    }
  }

  lemma {:induction false} EscapedEncodable(text: Text)
    ensures Encodable(EscapedAll(text))
  {
    if text != [] {
      EscapedEncodable(text[1..]);
      EncodableConcat(Escaped(text[0]), EscapedAll(text[1..]));
    }
  }

  lemma {:induction false} ShownEncodable(text: Text, quote: CodePoint, printable: CodePoint -> bool)
    requires quote < 0x80
    ensures Encodable(ShownAll(text, quote, printable))
  {
    if text != [] {
      ShownEncodable(text[1..], quote, printable);
      EncodableConcat(Shown(text[0], quote, printable), ShownAll(text[1..], quote, printable));
    }
  }

  lemma QuotedEncodable(text: Text)
    ensures Encodable(Quoted(text))
  {
    EscapedEncodable(text);
  }

  lemma WrappedEncodable(open: char, close: char, parts: seq<Text>, level: nat)
    requires AllEncodable(parts) && open < '\U{80}' && close < '\U{80}'
    ensures Encodable(Wrapped(open, close, parts, level))
  {
    var sep := [',' as int] + Break(level + 1);
    JoinedEncodable(parts, sep);
  }

  /** Whatever is in the value, `json.dumps` writes nothing but ASCII, and so nothing that cannot be encoded. */
  lemma {:induction false} DumpsEncodable(v: Value, level: nat, py: Python)
    requires Dumps(v, level, py).Some?
    ensures Encodable(Dumps(v, level, py).value)
  {
    match v
    case List(items, _) =>
      var parts := DumpedItems(items, level, py);
      forall i | 0 <= i < |items|
        ensures parts[i].Some? && Encodable(parts[i].value)
      {
        assert parts[i] == Dumps(items[i], level + 1, py);
        DumpsEncodable(items[i], level + 1, py);
      }
      WrappedEncodable('[', ']', All(parts).value, level);
    case Dict(entries) =>
      var parts := DumpedEntries(entries, level, py);
      forall i | 0 <= i < |entries|
        ensures parts[i].Some? && Encodable(parts[i].value)
      {
        assert parts[i] == DumpedEntry(entries[i], level + 1, py);
        AtomEncodable(entries[i].key, py);
        DumpsEncodable(entries[i].value, level + 1, py);
      }
      WrappedEncodable('{', '}', All(parts).value, level);
    case _ => AtomEncodable(v, py);
  }

  lemma AtomEncodable(v: Value, py: Python)
    requires !v.List? && !v.Dict? && Atom(v, py).Some?
    ensures Encodable(Atom(v, py).value)
  {
    match v
    case Str(text) => QuotedEncodable(text);
    case Foreign(str, _) => QuotedEncodable(str.value);
    case _ =>
  }

  /** `json.dumps` raises on exactly the values with something unwritable in them. */
  lemma {:induction false} DumpsRaises(v: Value, level: nat, py: Python)
    ensures Dumps(v, level, py).None? <==> Unwritable(v, level, py)
  {
    match v
    case List(items, _) =>
      forall i | 0 <= i < |items|
        ensures DumpedItems(items, level, py)[i].None? <==> Unwritable(items[i], level + 1, py)
      {
        DumpsRaises(items[i], level + 1, py);
      }
    case Dict(entries) =>
      if Sortable(entries) {
        forall i | 0 <= i < |entries|
          ensures DumpedEntries(entries, level, py)[i].None?
             <==> TooLong(entries[i].key, py) || Unwritable(entries[i].value, level + 1, py)
        {
          DumpsRaises(entries[i].value, level + 1, py);
        }
      }
    case _ =>
  }

  /** `repr` raises on exactly the values with something mute in them. */
  lemma {:induction false} ReprRaises(v: Value, level: nat, py: Python)
    ensures Repr(v, level, py).None? <==> Mute(v, level, py)
  {
    match v
    case List(items, _) =>
      forall i | 0 <= i < |items|
        ensures ShownItems(items, level, py)[i].None? <==> Mute(items[i], level + 1, py)
      {
        ReprRaises(items[i], level + 1, py);
      }
    case Dict(entries) =>
      forall i | 0 <= i < |entries|
        ensures ShownEntries(entries, level, py)[i].None?
           <==> Mute(entries[i].key, level + 1, py) || Mute(entries[i].value, level + 1, py)
      {
        ReprRaises(entries[i].key, level + 1, py);
        ReprRaises(entries[i].value, level + 1, py);
      }
    case _ =>
  }

  /** `repr` escapes the surrogates of every text; those in the `repr` of a foreign object stay. */
  lemma {:induction false} ReprEncodable(v: Value, level: nat, py: Python)
    requires Repr(v, level, py).Some?
    ensures Encodable(Repr(v, level, py).value) <==> !Loud(v)
  {
    match v
    case Str(text) => ShownEncodable(text, QuoteOf(text), py.printable);
    case List(items, isTuple) =>
      var parts := ShownItems(items, level, py);
      forall i | 0 <= i < |items|
        ensures parts[i].Some? && (Encodable(parts[i].value) <==> !Loud(items[i]))
      {
        assert parts[i] == Repr(items[i], level + 1, py);
        ReprEncodable(items[i], level + 1, py);
      }
      BracketsEncodable(OpenText(isTuple), CloseText(isTuple, |items|), All(parts).value);
      assert AllEncodable(All(parts).value) <==> forall i :: 0 <= i < |items| ==> Encodable(parts[i].value);
    case Dict(entries) =>
      var parts := ShownEntries(entries, level, py);
      forall i | 0 <= i < |entries|
        ensures parts[i].Some? && (Encodable(parts[i].value) <==> !Loud(entries[i].key) && !Loud(entries[i].value))
      {
        assert parts[i] == ShownEntry(entries[i], level + 1, py);
        EntryEncodable(entries[i], level + 1, py);
      }
      BracketsEncodable(Codes("{"), Codes("}"), All(parts).value);
    case _ =>
  }

  lemma {:induction false} EntryEncodable(e: Entry, level: nat, py: Python)
    requires Repr(e.key, level, py).Some? && Repr(e.value, level, py).Some?
    ensures Encodable(ShownEntry(e, level, py).value) <==> !Loud(e.key) && !Loud(e.value)
  {
    var key, value := Repr(e.key, level, py).value, Repr(e.value, level, py).value;
    ReprEncodable(e.key, level, py);
    ReprEncodable(e.value, level, py);
    EncodableConcat(key + Codes(": "), value);
    EncodableConcat(key, Codes(": "));
  }

  lemma BracketsEncodable(open: Text, close: Text, parts: seq<Text>)
    requires Encodable(open) && Encodable(close)
    ensures Encodable(open + Joined(parts, Codes(", ")) + close) <==> AllEncodable(parts)
  {
    JoinedEncodable(parts, Codes(", "));
    EncodableConcat(open + Joined(parts, Codes(", ")), close);
    EncodableConcat(open, Joined(parts, Codes(", ")));
  }

  /** "Never raises" fails on exactly these values: `json.dumps` cannot write something in them, and their
      `str` raises in its turn or shows a lone surrogate. */
  lemma FieldRaisesExactlyOn(v: Value, py: Python)
    ensures FieldOf(v, py).Raises? <==> Unwritable(v, 0, py) && Unshowable(v, py)
  {
    DumpsRaises(v, 0, py);
    ReprRaises(v, 0, py);
    if Dumps(v, 0, py).Some? {
      DumpsEncodable(v, 0, py);
    }
    if Repr(v, 0, py).Some? {
      ReprEncodable(v, 0, py);
    }
  }

  /** Values that raise under every interpreter: a number of too many digits; an object without a `str`; and
      a dictionary with a number and a text for keys, in which an object shows itself as the byte 0x80 read
      with `surrogateescape`. */
  lemma FieldRaises(v: Value, py: Python)
    requires || TooLong(v, py)
             || (v.Foreign? && v.str.None?)
             || v == Dict([Entry(Num(Codes("1")), Null), Entry(Str(Codes("path")), Foreign(None, Some([0xDC80])))])
    ensures FieldOf(v, py).Raises?
  {
    if v.Dict? {
      assert v.entries[0].key.Num? && v.entries[1].key.Str?;
      assert Surrogate(v.entries[1].value.repr.value[0]);
      assert Loud(v.entries[1].value);
    }
    FieldRaisesExactlyOn(v, py);
  }
}
