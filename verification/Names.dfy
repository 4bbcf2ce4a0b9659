/** Names and paths as text, as scripts/model_check.py takes them apart and puts them together: cutting
    at a separator and joining again, the part before the first separator, search and suffixes, and the
    order that Python sorts texts by. The sorting methods are loops that pick the least of what is left;
    where the order of a set does not matter to a caller, its members come as they come. */
module Names {
  /** `s.split(sep)`: never empty, and the empty text has one empty part. */
  function Split(s: string, sep: char): (parts: seq<string>)
    ensures parts != []
  {
    if s == [] then [""]
    else if s[0] == sep then [""] + Split(s[1..], sep)
    else Push(s[0], Split(s[1..], sep))
  }

  function Push(c: char, parts: seq<string>): (r: seq<string>)
    requires parts != []
    ensures r != []
  {
    [[c] + parts[0]] + parts[1..]
  }

  lemma PushConcat(c: char, a: seq<string>, b: seq<string>)
    requires a != []
    ensures Push(c, a + b) == Push(c, a) + b
  {
    assert (a + b)[1..] == a[1..] + b;
  }

  lemma PushJoin(c: char, parts: seq<string>, sep: char)
    requires parts != []
    ensures Join(Push(c, parts), sep) == [c] + Join(parts, sep)
  {
    assert Push(c, parts)[1..] == parts[1..];
  }

  /** `sep.join(parts)`. */
  function Join(parts: seq<string>, sep: char): string
  {
    if parts == [] then ""
    else if |parts| == 1 then parts[0]
    else parts[0] + [sep] + Join(parts[1..], sep)
  }

  lemma {:induction false} JoinSplit(s: string, sep: char)
    ensures Join(Split(s, sep), sep) == s
  {
    if s != [] {
      JoinSplit(s[1..], sep);
      if s[0] == sep {
        assert Split(s, sep)[1..] == Split(s[1..], sep);
      } else {
        PushJoin(s[0], Split(s[1..], sep), sep);
      }
    }
  }

  lemma {:induction false} SplitConcat(a: string, b: string, sep: char)
    ensures Split(a + [sep] + b, sep) == Split(a, sep) + Split(b, sep)
  {
    hide Push;
    if a == [] {
      SplitHead(sep, b, sep);
      assert [] + [sep] + b == [sep] + b;
    } else {
      SplitConcat(a[1..], b, sep);
      assert a == [a[0]] + a[1..];
      assert a + [sep] + b == [a[0]] + (a[1..] + [sep] + b);
      SplitHead(a[0], a[1..], sep);
      SplitHead(a[0], a[1..] + [sep] + b, sep);
      PushConcat(a[0], Split(a[1..], sep), Split(b, sep));
    }
  }

  lemma SplitHead(c: char, s: string, sep: char)
    ensures Split([c] + s, sep) == if c == sep then [""] + Split(s, sep) else Push(c, Split(s, sep))
  {
    assert ([c] + s)[1..] == s;
  }

  lemma {:induction false} SplitWhole(s: string, sep: char)
    requires sep !in s
    ensures Split(s, sep) == [s]
  {
    if s != [] {
      SplitWhole(s[1..], sep);
      assert [s[0]] + s[1..] == s;
    }
  }

  /** A list of names free of the separator. */
  predicate Plain(parts: seq<string>, sep: char)
  {
    forall i :: 0 <= i < |parts| ==> sep !in parts[i]
  }

  lemma {:induction false} SplitJoin(parts: seq<string>, sep: char)
    requires parts != [] && Plain(parts, sep)
    ensures Split(Join(parts, sep), sep) == parts
  {
    SplitWhole(parts[0], sep);
    if |parts| > 1 {
      SplitJoin(parts[1..], sep);
      SplitConcat(parts[0], Join(parts[1..], sep), sep);
    }
  }

  lemma {:induction false} JoinConcat(a: seq<string>, b: seq<string>, sep: char)
    requires a != [] && b != []
    ensures Join(a + b, sep) == Join(a, sep) + [sep] + Join(b, sep)
  {
    if |a| == 1 {
      assert (a + b)[1..] == b;
    } else {
      JoinConcat(a[1..], b, sep);
      assert (a + b)[1..] == a[1..] + b;
    }
  }

  /** The text up to the first `sep`, and what follows it: `s.partition(sep)`. */
  function Partition(s: string, sep: string): (string, string)
    requires sep != ""
  {
    if s == [] then ("", "")
    else if sep <= s then ("", s[|sep|..])
    else
      var (head, tail) := Partition(s[1..], sep);
      ([s[0]] + head, tail)
  }

  /** A text is cut at the first place where the separator starts in it, which is lost; */
  lemma {:induction false} PartitionCuts(a: string, b: string, sep: string)
    requires sep != "" && forall i :: 0 <= i < |a| ==> !(sep <= (a + sep + b)[i..])
    ensures Partition(a + sep + b, sep) == (a, b)
  {
    var s := a + sep + b;
    if a == "" {
      assert s[|sep|..] == b;
    } else {
      assert s[0..] == s;
      assert s[1..] == a[1..] + sep + b;
      forall i | 0 <= i < |a[1..]|
        ensures !(sep <= (a[1..] + sep + b)[i..])
      {
        assert s[1..][i..] == s[i + 1..];
      }
      PartitionCuts(a[1..], b, sep);
      assert [a[0]] + a[1..] == a;
    }
  }

  /** and stays whole where it starts nowhere. */
  lemma {:induction false} PartitionWhole(s: string, sep: string)
    requires sep != "" && !Contains(s, sep)
    ensures Partition(s, sep) == (s, "")
  {
    if s != "" {
      assert s[0..] == s;
      forall i | 0 <= i <= |s[1..]|
        ensures !(sep <= s[1..][i..])
      {
        assert s[1..][i..] == s[i + 1..];
      }
      PartitionWhole(s[1..], sep);
      assert [s[0]] + s[1..] == s;
    }
  }

  /** The part before the first separator. */
  lemma SplitFirst(a: string, b: string, sep: char)
    requires sep !in a && (b == "" || b[0] == sep)
    ensures Split(a + b, sep)[0] == a
  {
    SplitWhole(a, sep);
    if b == "" {
      assert a + b == a;
    } else {
      assert a + b == a + [sep] + b[1..];
      SplitConcat(a, b[1..], sep);
    }
  }

  /** `sub in s`. */
  ghost predicate Contains(s: string, sub: string)
  {
    exists i :: 0 <= i <= |s| && sub <= s[i..]
  }

  method FindText(s: string, sub: string) returns (found: bool)
    ensures found <==> Contains(s, sub)
  {
    for i := 0 to |s| + 1
      invariant forall j :: 0 <= j < i ==> !(sub <= s[j..])
    {
      if sub <= s[i..] {
        return true;
      }
    }
    return false;
  }

  predicate EndsWith(s: string, tail: string)
  {
    |s| >= |tail| && s[|s| - |tail|..] == tail
  }

  // ---------------------------------------------------------------------------------------
  // Order
  // ---------------------------------------------------------------------------------------

  /** `a < b` on texts. */
  predicate Less(a: string, b: string)
  {
    if b == [] then false
    else if a == [] then true
    else if a[0] != b[0] then a[0] < b[0]
    else Less(a[1..], b[1..])
  }

  lemma {:induction false} LessIsTotal(a: string, b: string)
    ensures Less(a, b) || a == b || Less(b, a)
    ensures !(Less(a, b) && Less(b, a))
    ensures !Less(a, a)
  {
    if a != [] {
      LessIsTotal(a[1..], if b == [] then [] else b[1..]);
      if b != [] && a[1..] == b[1..] && a[0] == b[0] {
        assert a == [a[0]] + a[1..] == b;
      }
    }
  }

  lemma {:induction false} LessIsTransitive(a: string, b: string, c: string)
    requires Less(a, b) && Less(b, c)
    ensures Less(a, c)
  {
    if a != [] && a[0] == b[0] == c[0] {
      LessIsTransitive(a[1..], b[1..], c[1..]);
    }
  }

  method Least(names: set<string>) returns (least: string)
    requires names != {}
    ensures least in names
    ensures forall x :: x in names && x != least ==> Less(least, x)
  {
    least :| least in names;
    var rest := names - {least};
    while rest != {}
      invariant least in names && rest <= names
      invariant forall x :: x in names - rest && x != least ==> Less(least, x)
      decreases |rest|
    {
      var x :| x in rest;
      rest := rest - {x};
      LessIsTotal(least, x);
      if Less(x, least) {
        forall y | y in names - rest && y != x
          ensures Less(x, y)
        {
          if y != least {
            LessIsTransitive(x, least, y);
          }
        }
        least := x;
      }
    }
  }

  /** `sorted(names)`. */
  method Sorted(names: set<string>) returns (r: seq<string>)
    ensures forall x :: x in r <==> x in names
    ensures forall i, j :: 0 <= i < j < |r| ==> Less(r[i], r[j])
  {
    r := [];
    var rest := names;
    while rest != {}
      invariant rest <= names
      invariant forall x :: x in r <==> x in names - rest
      invariant forall i, j :: 0 <= i < j < |r| ==> Less(r[i], r[j])
      invariant forall i, x :: 0 <= i < |r| && x in rest ==> Less(r[i], x)
      decreases |rest|
    {
      var least := Least(rest);
      rest := rest - {least};
      r := r + [least];
    }
  }

  /** The members of a set, where their order does not matter. */
  method Elements<T(==, !new)>(s: set<T>) returns (r: seq<T>)
    ensures forall x :: x in r <==> x in s
  {
    r := [];
    var rest := s;
    while rest != {}
      invariant rest <= s
      invariant forall x :: x in r <==> x in s - rest
      decreases |rest|
    {
      var x :| x in rest;
      rest := rest - {x};
      r := r + [x];
    }
  }
}
