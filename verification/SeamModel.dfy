/** A parsed seam model, the tree it describes, and what a finding of scripts/model_check.py says.
    The notation is parsed already, and of each source file the model keeps what reading its syntax
    tree yields: the names it names, the functions it calls, the tests it declares, its imports. */
module SeamModel {
  import opened Wrappers
  import opened Names
  import opened Paths

  // ---------------------------------------------------------------------------------------
  // The model
  // ---------------------------------------------------------------------------------------

  datatype Item = Item(name: string, optional: bool)

  datatype InterfaceDef = InterfaceDef(items: seq<Item>, constructors: seq<string>)

  datatype PartUsage = PartUsage(typeName: string, code: Option<string>, ports: map<string, string>)

  datatype InterfaceUsage = InterfaceUsage(
    name: string, defName: string,
    srcPart: string, srcPort: string, dstPart: string, dstPort: string,
    passThrough: set<string>)

  /** `importer -> imported`. */
  datatype Forbid = Forbid(importer: string, imported: string)

  datatype SatisfyLine = SatisfyLine(req: string, part: string)

  datatype VerifyLine = VerifyLine(req: string, node: string)

  datatype Model = Model(
    partDefs: set<string>,
    portDefs: set<string>,
    interfaceDefs: map<string, InterfaceDef>,
    requirementDefs: map<string, seq<Forbid>>,
    parts: map<string, PartUsage>,
    interfaces: seq<InterfaceUsage>,
    satisfies: seq<SatisfyLine>,
    verifies: seq<VerifyLine>)

  // ---------------------------------------------------------------------------------------
  // The tree
  // ---------------------------------------------------------------------------------------

  /** A file that does not parse calls, tests and imports nothing. */
  datatype Source = Source(
    text: string, names: set<string>, calls: set<string>, tests: set<string>, imports: seq<Import>)
  {
    /** Whatever a file calls stands somewhere in its text. */
    ghost predicate Valid()
    {
      forall name :: name in calls ==> Contains(text, name)
    }
  }

  /** The files under the root, by the names that lead to them. */
  type Tree = map<Path, Source>

  ghost predicate ValidTree(t: Tree)
  {
    forall path :: path in t ==> path != [] && t[path].Valid()
  }

  // ---------------------------------------------------------------------------------------
  // Modules and imports
  // ---------------------------------------------------------------------------------------

  predicate HasModuleFile(t: Tree, base: Path)
  {
    base != [] && WithPy(base) in t
  }

  /** `_swept_modules`: the one file of the prefix where there is one, else everything below it. */
  predicate Swept(t: Tree, prefix: string, path: Path)
  {
    && path in t
    && path != []
    && Product(path)
    && (if HasModuleFile(t, Base(prefix)) then path == WithPy(Base(prefix))
        else IsPy(path) && Above(Base(prefix), path))
  }

  datatype Edge = Edge(importer: string, imported: string)

  /** The model has a rule with this importer prefix. */
  ghost predicate IsPrefix(m: Model, prefix: string)
  {
    exists req, rule :: req in m.requirementDefs && rule in m.requirementDefs[req] && rule.importer == prefix
  }

  ghost predicate Imports(t: Tree, path: Path, imported: string)
    requires path in t && path != []
  {
    exists node :: node in t[path].imports && imported in Imported(PackageOf(path), node)
  }

  ghost predicate SweptBySome(m: Model, t: Tree, path: Path)
  {
    exists prefix :: IsPrefix(m, prefix) && Swept(t, prefix, path)
  }

  /** An import of the file. */
  ghost predicate IsEdgeOf(t: Tree, path: Path, e: Edge)
  {
    path in t && path != [] && e.importer == Dotted(path) && Imports(t, path, e.imported)
  }

  /** What `forbid_import_edges` collects. */
  ghost predicate IsEdge(m: Model, t: Tree, e: Edge)
  {
    exists path :: SweptBySome(m, t, path) && IsEdgeOf(t, path, e)
  }

  // ---------------------------------------------------------------------------------------
  // Findings
  // ---------------------------------------------------------------------------------------

  /** One constructor for each message of the report, with what its text is filled from. */
  datatype Finding =
    | PartTypeUndeclared(part: string)
    | PartUnbound(part: string)
    | PortTypeUndeclared(part: string, port: string)
    | DefUndeclared(use: InterfaceUsage)
    | EndUndeclared(use: InterfaceUsage, end: string)
    | EndPortMissing(use: InterfaceUsage, end: string, endPort: string)
    | MarksNeitherEnd(use: InterfaceUsage, marked: string)
    | SatisfyUndeclared(satisfy: SatisfyLine)
    | SatisfyUnknownBlock(satisfy: SatisfyLine)
    | VerifyUndeclared(verify: VerifyLine)
    | RequirementUnallocated(req: string)
    | RequirementUnverified(req: string)
    | InterfaceUnconnected(def: string)
    | ItemNoWriter(use: InterfaceUsage, item: Item)
    | ItemNoConsumer(use: InterfaceUsage, item: Item)
    | BlockCodeMissing(part: string)
    | UnmodeledAuthor(def: string, path: Path, constructor_: string)
    | TestFileMissing(verify: VerifyLine)
    | TestMissing(verify: VerifyLine)
    | ForbidSweepsNothing(req: string, rule: Forbid)
    | DependencyViolation(req: string, rule: Forbid, edge: Edge)

  // ----- structure -----

  predicate PartFault(m: Model, f: Finding)
  {
    match f
    case PartTypeUndeclared(p) => p in m.parts && m.parts[p].typeName !in m.partDefs
    case PartUnbound(p) => p in m.parts && m.parts[p].code.None?
    case PortTypeUndeclared(p, port) =>
      p in m.parts && port in m.parts[p].ports && m.parts[p].ports[port] !in m.portDefs
    case _ => false
  }

  /** `part.port` is one of the two ends of the usage. */
  predicate IsEnd(use: InterfaceUsage, part: string, port: string)
  {
    (part == use.srcPart && port == use.srcPort) || (part == use.dstPart && port == use.dstPort)
  }

  predicate UseFault(m: Model, f: Finding)
  {
    match f
    case DefUndeclared(use) => use in m.interfaces && use.defName !in m.interfaceDefs
    case EndUndeclared(use, end) =>
      use in m.interfaces && (end == use.srcPart || end == use.dstPart) && end !in m.parts
    case EndPortMissing(use, end, port) =>
      use in m.interfaces && IsEnd(use, end, port) && end in m.parts && port !in m.parts[end].ports
    case MarksNeitherEnd(use, marked) =>
      use in m.interfaces && marked in use.passThrough && marked != use.srcPart && marked != use.dstPart
    case _ => false
  }

  predicate LineFault(m: Model, f: Finding)
  {
    match f
    case SatisfyUndeclared(line) => line in m.satisfies && line.req !in m.requirementDefs
    case SatisfyUnknownBlock(line) => line in m.satisfies && line.part !in m.parts
    case VerifyUndeclared(line) => line in m.verifies && line.req !in m.requirementDefs
    case _ => false
  }

  predicate Satisfied(m: Model, req: string)
  {
    exists line :: line in m.satisfies && line.req == req
  }

  predicate Verified(m: Model, req: string)
  {
    exists line :: line in m.verifies && line.req == req
  }

  predicate RequirementFault(m: Model, f: Finding)
  {
    match f
    case RequirementUnallocated(req) => req in m.requirementDefs && !Satisfied(m, req)
    case RequirementUnverified(req) => req in m.requirementDefs && !Verified(m, req)
    case _ => false
  }

  // ----- interfaces -----

  predicate Connected(m: Model, def: string)
  {
    exists use :: use in m.interfaces && use.defName == def
  }

  /** All three names of the usage lead somewhere. */
  predicate Resolved(m: Model, use: InterfaceUsage)
  {
    use.defName in m.interfaceDefs && use.srcPart in m.parts && use.dstPart in m.parts
  }

  /** The names the module at a path names; none where there is no module. */
  function NamedAt(t: Tree, code: string): set<string>
  {
    var path := Resolve(code);
    if path in t then t[path].names else {}
  }

  function CodeOf(m: Model, part: string): string
    requires part in m.parts
  {
    if m.parts[part].code.Some? then m.parts[part].code.value else ""
  }

  /** This end of the hop owes the name of the item and does not name it. */
  predicate Silent(m: Model, t: Tree, use: InterfaceUsage, end: string, item: Item)
    requires Resolved(m, use) && end in m.parts
  {
    && end !in use.passThrough
    && item in m.interfaceDefs[use.defName].items
    && !item.optional
    && item.name !in NamedAt(t, CodeOf(m, end))
  }

  predicate UnconnectedFault(m: Model, f: Finding)
  {
    f.InterfaceUnconnected? && f.def in m.interfaceDefs && !Connected(m, f.def)
  }

  predicate ItemFault(m: Model, t: Tree, f: Finding)
  {
    match f
    case ItemNoWriter(use, item) =>
      use in m.interfaces && Resolved(m, use) && Silent(m, t, use, use.srcPart, item)
    case ItemNoConsumer(use, item) =>
      && use in m.interfaces && Resolved(m, use)
      && m.parts[use.srcPart].code != m.parts[use.dstPart].code
      && Silent(m, t, use, use.dstPart, item)
    case _ => false
  }

  predicate CodeFault(m: Model, t: Tree, f: Finding)
  {
    && f.BlockCodeMissing?
    && f.part in m.parts
    && m.parts[f.part].code.Some?
    && Resolve(m.parts[f.part].code.value) !in t
  }

  // ----- authors -----

  /** The definition lists the constructor. */
  predicate Builds(m: Model, def: string, name: string)
  {
    def in m.interfaceDefs && name in m.interfaceDefs[def].constructors
  }

  /** The definition a constructor is charged to: of all that list it, the last by name. */
  predicate Owner(m: Model, def: string, name: string)
  {
    && Builds(m, def, name)
    && forall other :: other in m.interfaceDefs && Builds(m, other, name) ==> other == def || Less(other, def)
  }

  predicate BoundEnd(m: Model, part: string, rel: string)
  {
    rel != "" && part in m.parts && m.parts[part].code == Some(rel)
  }

  /** Some usage of the definition ends at a part whose code is this very text. */
  predicate BoundTo(m: Model, rel: string, def: string)
  {
    exists use :: use in m.interfaces && use.defName == def
                  && (BoundEnd(m, use.srcPart, rel) || BoundEnd(m, use.dstPart, rel))
  }

  /** The file is below the top directory of some part's code. */
  predicate InScope(m: Model, path: Path)
  {
    exists part :: part in m.parts && CodeOf(m, part) != "" && Above(TopOf(CodeOf(m, part)), path)
  }

  /** `code.split("/")[0]`, as a path. */
  function TopOf(code: string): Path
  {
    Resolve(Split(code, '/')[0])
  }

  /** What `_product_modules` finds. */
  predicate ProductModule(m: Model, t: Tree, path: Path)
  {
    path in t && path != [] && Product(path) && IsPy(path) && InScope(m, path)
  }

  predicate AuthorFault(m: Model, t: Tree, f: Finding)
  {
    && f.UnmodeledAuthor?
    && ProductModule(m, t, f.path)
    && f.constructor_ in t[f.path].calls
    && Owner(m, f.def, f.constructor_)
    && !BoundTo(m, Posix(f.path), f.def)
  }

  // ----- tests -----

  function TestFile(node: string): Path
  {
    Resolve(Partition(node, "::").0)
  }

  /** The function a test id names, its parameters cut off. */
  function TestName(node: string): string
  {
    Split(Partition(node, "::").1, '[')[0]
  }

  predicate TestFault(m: Model, t: Tree, f: Finding)
  {
    match f
    case TestFileMissing(line) => line in m.verifies && TestFile(line.node) !in t
    case TestMissing(line) =>
      line in m.verifies && TestFile(line.node) in t && TestName(line.node) !in t[TestFile(line.node)].tests
    case _ => false
  }

  // ----- imports -----

  ghost predicate SweepsSome(t: Tree, prefix: string)
  {
    exists path :: Swept(t, prefix, path)
  }

  ghost predicate EdgeFault(m: Model, t: Tree, f: Finding)
  {
    match f
    case ForbidSweepsNothing(req, rule) =>
      req in m.requirementDefs && rule in m.requirementDefs[req] && !SweepsSome(t, rule.importer)
    case DependencyViolation(req, rule, edge) =>
      && req in m.requirementDefs && rule in m.requirementDefs[req]
      && IsEdge(m, t, edge)
      && Under(edge.importer, rule.importer) && Under(edge.imported, rule.imported)
    case _ => false
  }

  /** What the rules hold against a model and a tree. */
  ghost predicate Fault(m: Model, t: Tree, f: Finding)
  {
    || PartFault(m, f) || UseFault(m, f) || LineFault(m, f) || RequirementFault(m, f)
    || UnconnectedFault(m, f) || ItemFault(m, t, f) || CodeFault(m, t, f)
    || AuthorFault(m, t, f) || TestFault(m, t, f) || EdgeFault(m, t, f)
  }
}
