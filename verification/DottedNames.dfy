/** What the dotted names of scripts/model_check.py have to do with the files they name. */
module DottedNames {
  import opened Names
  import opened Paths

  lemma CleanWord(s: string)
    requires '/' !in s && s != "" && s != "."
    ensures Resolve(s) == [s]
  {
    SplitWhole(s, '/');
    assert Clean([s][1..]) == [];
  }

  /** A prefix matches whole names only: `_under` is ancestry between dotted names. */
  lemma UnderIsAncestry(name: string, prefix: string)
    ensures Under(name, prefix) <==> Split(prefix, '.') <= Split(name, '.')
  {
    hide Split, Join;
    JoinSplit(name, '.');
    JoinSplit(prefix, '.');
    var whole, head := Split(name, '.'), Split(prefix, '.');
    if prefix + "." <= name {
      var tail := name[|prefix| + 1..];
      assert name == prefix + ['.'] + tail;
      SplitConcat(prefix, tail, '.');
    }
    if head <= whole && head != whole {
      assert whole == head + whole[|head|..];
      JoinConcat(head, whole[|head|..], '.');
    }
  }

  /** However an import of the name `leaf` of a module is spelled, the edge to it is recorded: plainly,
      from the module, or relative to a package that shares `up` with it. */
  lemma SpellingsAgree(package: string, up: seq<string>, rest: seq<string>, base: string, leaf: string)
    requires up != [] && Plain(up + rest, '.') && Join(up, '.') != ""
    requires package == Join(up + rest, '.') && base != "" && leaf != "*"
    ensures var from := Join(up, '.') + "." + base;
            && from + "." + leaf in Imported(package, Import([from + "." + leaf]))
            && from + "." + leaf in Imported(package, ImportFrom(0, from, [leaf]))
            && from + "." + leaf in Imported(package, ImportFrom(|rest| + 1, base, [leaf]))
            && Join(up, '.') + "." + leaf in Imported(package, ImportFrom(|rest| + 1, "", [leaf]))
  {
    SplitJoin(up + rest, '.');
    var parts := Split(package, '.');
    assert Upto(parts, |parts| - |rest|) == up;
    JoinConcat(up, [base], '.');
    assert up + [] == up;
    assert leaf in [leaf];
  }

  /** And no others: an import from a module records the module and each name imported from it, a star none. */
  lemma NothingElseIsImported(package: string, up: seq<string>, rest: seq<string>, base: string, names: seq<string>,
                              name: string)
    requires up != [] && Plain(up + rest, '.') && package == Join(up + rest, '.') && base != "" && Join(up, '.') != ""
    ensures name in Imported(package, Import(names)) <==> name in names
    ensures name in Imported(package, ImportFrom(0, base, names))
       <==> name == base || exists leaf :: leaf in names && leaf != "*" && name == base + "." + leaf
    ensures var from := Join(up, '.') + "." + base;
            name in Imported(package, ImportFrom(|rest| + 1, base, names))
            <==> name == from || exists leaf :: leaf in names && leaf != "*" && name == from + "." + leaf
    ensures var from := Join(up, '.');
            name in Imported(package, ImportFrom(|rest| + 1, "", names))
            <==> name == from || exists leaf :: leaf in names && leaf != "*" && name == from + "." + leaf
  {
    SplitJoin(up + rest, '.');
    var parts := Split(package, '.');
    assert Upto(parts, |parts| - |rest|) == up;
    JoinConcat(up, [base], '.');
    assert up + [] == up;
  }

  /** A part of a dotted name that is the name of a directory or file just as it stands. */
  predicate Word(s: string)
  {
    s != "" && '.' !in s && '/' !in s
  }

  predicate Words(parts: seq<string>)
  {
    forall i :: 0 <= i < |parts| ==> Word(parts[i])
  }

  /** A file that Python can import: words all the way down to its suffix. */
  predicate Importable(path: Path)
  {
    path != [] && Words(path[..|path| - 1]) && IsPy(path) && Word(Stem(path[|path| - 1]))
  }

  /** A rule's prefix that names a module or a package. */
  predicate Prefix(prefix: string)
  {
    Words(Split(prefix, '.')) && "__init__" !in Split(prefix, '.')
  }

  /** The dotted parts of a file's module name. */
  function Modules(path: Path): seq<string>
    requires Importable(path)
  {
    var parts := path[..|path| - 1] + [Stem(path[|path| - 1])];
    if |parts| > 1 && parts[|parts| - 1] == "__init__" then parts[..|parts| - 1] else parts
  }

  lemma DottedParts(path: Path)
    requires Importable(path)
    ensures Split(Dotted(path), '.') == Modules(path)
  {
    hide Unsuffixed, IsPy;
    var parts := path[..|path| - 1] + [Stem(path[|path| - 1])];
    PackageSuffix(parts);
    assert Plain(Modules(path), '.');
    SplitJoin(Modules(path), '.');
  }

  /** Relative imports start from the directory of the file. */
  lemma PackageIsDirectory(path: Path)
    requires Importable(path) && |path| > 1
    ensures Split(PackageOf(path), '.') == path[..|path| - 1]
  {
    var dirs, last := path[..|path| - 1], path[|path| - 1];
    DottedParts(path);
    hide Dotted, Importable, Unsuffixed;
    PlainDirs(path);
    SplitJoin(dirs, '.');
    if last == "__init__.py" {
      StemOfInit();
      assert Modules(path) == dirs;
    } else {
      StemIsInit(last);
      assert Modules(path) == dirs + [Stem(last)];
      assert Modules(path)[..|path| - 1] == dirs;
    }
  }

  lemma PlainDirs(path: Path)
    requires Importable(path)
    ensures Plain(path[..|path| - 1], '.') && EndsWith(path[|path| - 1], ".py") && |path[|path| - 1]| > 3
  {
  }

  lemma StemOfInit()
    ensures Stem("__init__.py") == "__init__"
  {
  }

  lemma StemIsInit(last: string)
    requires EndsWith(last, ".py") && |last| > 3
    ensures Stem(last) == "__init__" <==> last == "__init__.py"
  {
    assert last == last[..|last| - 3] + ".py";
  }

  /** Cutting the suffix of the text drops the last part, where that is the package's own file. */
  lemma PackageSuffix(parts: seq<string>)
    requires parts != [] && Plain(parts, '.')
    ensures Unsuffixed(Join(parts, '.'), ".__init__")
            == Join(if |parts| > 1 && parts[|parts| - 1] == "__init__" then parts[..|parts| - 1] else parts, '.')
  {
    var joined := Join(parts, '.');
    var init := parts[..|parts| - 1];
    assert parts == init + [parts[|parts| - 1]];
    if |parts| > 1 && parts[|parts| - 1] == "__init__" {
      JoinConcat(init, ["__init__"], '.');
      assert joined == Join(init, '.') + ".__init__";
    } else if EndsWith(joined, ".__init__") {
      SplitJoin(parts, '.');
      LastPart(joined);
      assert false;
    }
  }

  lemma LastPart(joined: string)
    requires EndsWith(joined, ".__init__")
    ensures var parts := Split(joined, '.'); |parts| > 1 && parts[|parts| - 1] == "__init__"
  {
    var head := joined[..|joined| - 9];
    assert joined == head + ['.'] + "__init__";
    SplitConcat(head, "__init__", '.');
    SplitWhole("__init__", '.');
  }

  lemma {:induction false} CleanWords(parts: seq<string>)
    requires Words(parts)
    ensures CleanAll(parts) == parts
  {
    if parts != [] {
      CleanWord(parts[0]);
      CleanWords(parts[1..]);
    }
  }

  /** A file is under a prefix exactly when it is the prefix's module file or lies below its directory. */
  lemma UnderIsBelow(path: Path, prefix: string)
    requires Importable(path) && Prefix(prefix)
    ensures Base(prefix) != []
    ensures Under(Dotted(path), prefix) <==> path == WithPy(Base(prefix)) || Above(Base(prefix), path)
  {
    hide Dotted, Under, Base;
    var base := Split(prefix, '.');
    assert Base(prefix) == base by {
      BaseIsSplit(prefix);
    }
    DottedParts(path);
    UnderIsAncestry(Dotted(path), prefix);
    AncestorsOfAFile(path, base);
  }

  lemma BaseIsSplit(prefix: string)
    requires Prefix(prefix)
    ensures Base(prefix) == Split(prefix, '.')
  {
    CleanWords(Split(prefix, '.'));
  }

  lemma AncestorsOfAFile(path: Path, base: seq<string>)
    requires Importable(path) && base != [] && "__init__" !in base
    ensures base <= Modules(path) <==> path == WithPy(base) || Above(base, path)
  {
    if base <= Modules(path) {
      AncestorAbove(path, base);
    }
    if Above(base, path) {
      assert base == path[..|path| - 1][..|base|];
    }
  }

  lemma AncestorAbove(path: Path, base: seq<string>)
    requires Importable(path) && base != [] && base <= Modules(path)
    ensures path == WithPy(base) || Above(base, path)
  {
    var dir, last := path[..|path| - 1], path[|path| - 1];
    assert path == dir + [last] && last == Stem(last) + ".py";
    if |base| == |path| {
      assert base == Modules(path) == dir + [Stem(last)];
      assert WithPy(base) == dir + [last];
    } else {
      assert base == dir[..|base|];
    }
  }
}
