/** Paths below the root of a tree, and the dotted names of modules, after scripts/model_check.py. */
module Paths {
  import opened Names

  type Path = seq<string>

  /** `root / s`: the path of a text, empty names and single dots skipped. */
  function Resolve(s: string): Path
  {
    Clean(Split(s, '/'))
  }

  function Clean(parts: seq<string>): Path
  {
    if parts == [] then []
    else (if parts[0] == "" || parts[0] == "." then [] else [parts[0]]) + Clean(parts[1..])
  }

  /** `rel.as_posix()`. */
  function Posix(path: Path): string
  {
    Join(path, '/')
  }

  predicate Above(base: Path, path: Path)
  {
    |base| < |path| && base <= path
  }

  /** What `rglob("*.py")` matches. */
  predicate IsPy(path: Path)
    requires path != []
  {
    EndsWith(path[|path| - 1], ".py")
  }

  /** Neither a test nor under a directory of tests. */
  predicate Product(path: Path)
    requires path != []
  {
    && (forall i :: 0 <= i < |path| ==> path[i] != "tests" && path[i] != "__pycache__")
    && !("test_" <= path[|path| - 1])
  }

  // ---------------------------------------------------------------------------------------
  // Modules and imports
  // ---------------------------------------------------------------------------------------

  /** The directory a dotted prefix leads to. */
  function Base(prefix: string): Path
  {
    CleanAll(Split(prefix, '.'))
  }

  function CleanAll(parts: seq<string>): Path
  {
    if parts == [] then [] else Resolve(parts[0]) + CleanAll(parts[1..])
  }

  /** `base.with_suffix(".py")`. */
  function WithPy(base: Path): Path
    requires base != []
  {
    base[..|base| - 1] + [base[|base| - 1] + ".py"]
  }

  /** The name of a file without its suffix; a bare ".py" has none. */
  function Stem(name: string): string
  {
    if EndsWith(name, ".py") && |name| > 3 then name[..|name| - 3] else name
  }

  function Unsuffixed(s: string, tail: string): string
  {
    if EndsWith(s, tail) then s[..|s| - |tail|] else s
  }

  /** The dotted name of a file; a package goes by the name of its directory. */
  function Dotted(path: Path): string
    requires path != []
  {
    Unsuffixed(Join(path[..|path| - 1] + [Stem(path[|path| - 1])], '.'), ".__init__")
  }

  /** `s.rpartition(".")[0]`. */
  function Parent(s: string): string
  {
    var parts := Split(s, '.');
    Join(parts[..|parts| - 1], '.')
  }

  /** The package that the relative imports of a file start from. */
  function PackageOf(path: Path): string
    requires path != []
  {
    if path[|path| - 1] == "__init__.py" then Dotted(path) else Parent(Dotted(path))
  }

  /** `_under`. */
  predicate Under(name: string, prefix: string)
  {
    name == prefix || prefix + "." <= name
  }

  /** `import a, b` or `from ..module import x, y`, `module` being empty where it is left out. */
  datatype Import = Import(names: seq<string>) | ImportFrom(level: nat, base: string, names: seq<string>)

  /** `parts[:stop]`: a negative stop counts from the end. */
  function Upto(parts: seq<string>, stop: int): seq<string>
  {
    if stop > |parts| then parts
    else if stop >= 0 then parts[..stop]
    else if |parts| + stop >= 0 then parts[..|parts| + stop]
    else []
  }

  /** The module that `from` names, dots resolved against the package. */
  function ImportBase(package: string, level: nat, base: string): string
  {
    if level == 0 then base
    else
      var parts := Split(package, '.');
      Join(Upto(parts, |parts| - (level - 1)) + (if base == "" then [] else [base]), '.')
  }

  function Member(base: string, name: string): string
  {
    if base == "" then name else base + "." + name
  }

  /** `_imported_modules`, a plain `import` included. */
  function Imported(package: string, node: Import): set<string>
  {
    match node
    case Import(names) => set name | name in names
    case ImportFrom(level, base, names) =>
      var from := ImportBase(package, level, base);
      {from} + set name | name in names && name != "*" :: Member(from, name)
  }
}
