/** What a verify line and a code line lead to, by the letter of their texts. */
module TestLines {
  import opened Names
  import opened Paths
  import opened SeamModel

  // ---------------------------------------------------------------------------------------
  // Paths as text
  // ---------------------------------------------------------------------------------------

  lemma {:induction false} CleanConcat(a: seq<string>, b: seq<string>)
    ensures Clean(a + b) == Clean(a) + Clean(b)
  {
    if a == [] {
      assert a + b == b;
    } else {
      assert (a + b)[1..] == a[1..] + b;
      CleanConcat(a[1..], b);
    }
  }

  /** A path is read name by name between its slashes; */
  lemma ResolveConcat(a: string, b: string)
    ensures Resolve(a + "/" + b) == Resolve(a) + Resolve(b)
  {
    SplitConcat(a, b, '/');
    CleanConcat(Split(a, '/'), Split(b, '/'));
  }

  /** of the texts between two slashes each is a name, but for the empty one and the dot. */
  lemma ResolveName(s: string)
    requires '/' !in s
    ensures Resolve(s) == if s == "" || s == "." then [] else [s]
  {
    SplitWhole(s, '/');
    assert Clean([s][1..]) == [];
  }

  predicate Named(path: Path)
  {
    forall i :: 0 <= i < |path| ==> path[i] != "" && path[i] != "." && '/' !in path[i]
  }

  lemma {:induction false} CleanNamed(path: Path)
    requires Named(path)
    ensures Clean(path) == path
  {
    if path != [] {
      CleanNamed(path[1..]);
      assert [path[0]] + path[1..] == path;
    }
  }

  /** Written down and read again a path is the same. */
  lemma ResolvePosix(path: Path)
    requires Named(path)
    ensures Resolve(Posix(path)) == path
  {
    if path == [] {
      ResolveName("");
    } else {
      assert Plain(path, '/');
      SplitJoin(path, '/');
      CleanNamed(path);
    }
  }

  /** The top directory of a code line is what stands before its first slash. */
  lemma TopIsFirst(top: string, rest: string)
    requires '/' !in top && (rest == "" || rest[0] == '/')
    ensures TopOf(top + rest) == if top == "" || top == "." then [] else [top]
  {
    SplitFirst(top, rest, '/');
    ResolveName(top);
  }

  // ---------------------------------------------------------------------------------------
  // Rule (b)
  // ---------------------------------------------------------------------------------------

  /** Nothing is wrong with the test that the line names. */
  predicate CleanLine(m: Model, t: Tree, line: VerifyLine)
  {
    !TestFault(m, t, TestFileMissing(line)) && !TestFault(m, t, TestMissing(line))
  }

  /** A verify line of the form `file::name` or `file::name[params]` is clean exactly when the file exists and
      declares the test. */
  lemma LineIsClean(m: Model, t: Tree, line: VerifyLine, file: string, name: string, params: string)
    requires line in m.verifies && line.node == file + "::" + name + params
    requires !Contains(file + ":", "::")
    requires '[' !in name && (params == "" || params[0] == '[')
    ensures CleanLine(m, t, line) <==> Resolve(file) in t && name in t[Resolve(file)].tests
  {
    var node, rest := line.node, name + params;
    assert node == file + "::" + rest;
    forall i | 0 <= i < |file|
      ensures !("::" <= node[i..])
    {
      assert (file + ":")[i..][..2] == node[i..][..2];
    }
    PartitionCuts(file, rest, "::");
    SplitFirst(name, params, '[');
  }

  /** A line without a double colon names a file and the empty test. */
  lemma BareLineIsClean(m: Model, t: Tree, line: VerifyLine)
    requires line in m.verifies && !Contains(line.node, "::")
    ensures CleanLine(m, t, line) <==> Resolve(line.node) in t && "" in t[Resolve(line.node)].tests
  {
    PartitionWhole(line.node, "::");
    SplitWhole("", '[');
  }
}
