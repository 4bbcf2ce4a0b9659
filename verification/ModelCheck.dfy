/** The loops of scripts/model_check.py. Each returns exactly the faults of its own rule. */
module ModelCheck {
  import opened Names
  import opened Paths
  import opened SeamModel

  type Findings = seq<Finding>

  // ---------------------------------------------------------------------------------------
  // The model referring to itself
  // ---------------------------------------------------------------------------------------

  method PartFindings(m: Model) returns (out: Findings)
    ensures forall f :: f in out <==> PartFault(m, f)
  {
    out := [];
    var names := Elements(m.parts.Keys);
    for i := 0 to |names|
      invariant forall f :: f in out <==> PartFault(m, f) && f.part in names[..i]
    {
      var name := names[i];
      var part := m.parts[name];
      ghost var before := out;
      if part.typeName !in m.partDefs {
        out := out + [PartTypeUndeclared(name)];
      }
      if part.code.None? {
        out := out + [PartUnbound(name)];
      }
      var ports := PortFindings(m, name);
      out := out + ports;
      assert forall f :: PartFault(m, f) && f.part == name ==> f in out;
    }
  }

  method PortFindings(m: Model, part: string) returns (out: Findings)
    requires part in m.parts
    ensures forall f :: f in out <==> PartFault(m, f) && f.PortTypeUndeclared? && f.part == part
  {
    out := [];
    var typed := m.parts[part].ports;
    var ports := Elements(typed.Keys);
    for i := 0 to |ports|
      invariant forall f ::
          f in out <==> PartFault(m, f) && f.PortTypeUndeclared? && f.part == part && f.port in ports[..i]
    {
      if typed[ports[i]] !in m.portDefs {
        out := out + [PortTypeUndeclared(part, ports[i])];
      }
    }
  }

  method UseFindings(m: Model) returns (out: Findings)
    ensures forall f :: f in out <==> UseFault(m, f)
  {
    out := [];
    for i := 0 to |m.interfaces|
      invariant forall f :: f in out <==> UseFault(m, f) && f.use in m.interfaces[..i]
    {
      var use := m.interfaces[i];
      var found := OneUse(m, use);
      out := out + found;
    }
  }

  method OneUse(m: Model, use: InterfaceUsage) returns (out: Findings)
    requires use in m.interfaces
    ensures forall f :: f in out <==> UseFault(m, f) && f.use == use
  {
    out := [];
    if use.defName !in m.interfaceDefs {
      out := out + [DefUndeclared(use)];
    }
    var src := EndFindings(m, use, use.srcPart, use.srcPort);
    var dst := EndFindings(m, use, use.dstPart, use.dstPort);
    out := out + src + dst;
    var marks := Elements(use.passThrough);
    ghost var before := out;
    for i := 0 to |marks|
      invariant forall f ::
          f in out <==> f in before || (UseFault(m, f) && f.MarksNeitherEnd? && f.use == use && f.marked in marks[..i])
    {
      if marks[i] != use.srcPart && marks[i] != use.dstPart {
        out := out + [MarksNeitherEnd(use, marks[i])];
      }
    }
  }

  method EndFindings(m: Model, use: InterfaceUsage, part: string, port: string) returns (out: Findings)
    requires use in m.interfaces && IsEnd(use, part, port)
    ensures forall f :: f in out <==>
        UseFault(m, f) && (f == EndUndeclared(use, part) || f == EndPortMissing(use, part, port))
  {
    if part !in m.parts {
      out := [EndUndeclared(use, part)];
    } else if port !in m.parts[part].ports {
      out := [EndPortMissing(use, part, port)];
    } else {
      out := [];
    }
  }

  method LineFindings(m: Model) returns (out: Findings)
    ensures forall f :: f in out <==> LineFault(m, f)
  {
    out := [];
    for i := 0 to |m.satisfies|
      invariant forall f :: f in out <==> LineFault(m, f) && !f.VerifyUndeclared? && f.satisfy in m.satisfies[..i]
    {
      var line := m.satisfies[i];
      if line.req !in m.requirementDefs {
        out := out + [SatisfyUndeclared(line)];
      }
      if line.part !in m.parts {
        out := out + [SatisfyUnknownBlock(line)];
      }
    }
    ghost var before := out;
    for i := 0 to |m.verifies|
      invariant forall f ::
          f in out <==> f in before || (LineFault(m, f) && f.VerifyUndeclared? && f.verify in m.verifies[..i])
    {
      if m.verifies[i].req !in m.requirementDefs {
        out := out + [VerifyUndeclared(m.verifies[i])];
      }
    }
  }

  method RequirementFindings(m: Model) returns (out: Findings)
    ensures forall f :: f in out <==> RequirementFault(m, f)
  {
    out := [];
    var names := Elements(m.requirementDefs.Keys);
    for i := 0 to |names|
      invariant forall f :: f in out <==> RequirementFault(m, f) && f.req in names[..i]
    {
      var name := names[i];
      if !Satisfied(m, name) {
        out := out + [RequirementUnallocated(name)];
      }
      if !Verified(m, name) {
        out := out + [RequirementUnverified(name)];
      }
      assert forall f :: RequirementFault(m, f) && f.req == name ==> f in out;
    }
  }

  /** `_structure_findings`. */
  method StructureFindings(m: Model) returns (out: Findings)
    ensures forall f :: f in out <==> PartFault(m, f) || UseFault(m, f) || LineFault(m, f) || RequirementFault(m, f)
  {
    hide PartFault, UseFault, LineFault, RequirementFault;
    var parts := PartFindings(m);
    var uses := UseFindings(m);
    var lines := LineFindings(m);
    var reqs := RequirementFindings(m);
    out := parts + uses + lines + reqs;
  }

  // ---------------------------------------------------------------------------------------
  // Rule (a)
  // ---------------------------------------------------------------------------------------

  type Cache = map<string, set<string>>

  /** Every entry is what the file at that path names. */
  ghost predicate Sound(cache: Cache, t: Tree)
  {
    forall code :: code in cache ==> cache[code] == NamedAt(t, code)
  }

  /** `named_by`: each file is read once. */
  method NamedBy(m: Model, t: Tree, part: string, cache: Cache) returns (names: set<string>, after: Cache)
    requires part in m.parts && Sound(cache, t)
    ensures Sound(after, t) && names == NamedAt(t, CodeOf(m, part))
  {
    var code := CodeOf(m, part);
    after := if code in cache then cache else cache[code := NamedAt(t, code)];
    names := after[code];
  }

  /** What one end of a hop is found to lack. */
  method EndItems(m: Model, t: Tree, use: InterfaceUsage, writer: bool, cache: Cache)
    returns (out: Findings, after: Cache)
    requires Resolved(m, use) && Sound(cache, t)
    ensures Sound(after, t)
    ensures forall f :: f in out <==> Lacks(m, t, use, writer, f)
  {
    hide Sound, NamedAt;
    out, after := [], cache;
    var end := if writer then use.srcPart else use.dstPart;
    if end in use.passThrough {
      return;
    }
    var names;
    names, after := NamedBy(m, t, end, cache);
    var items := m.interfaceDefs[use.defName].items;
    for i := 0 to |items|
      invariant forall f :: f in out <==> Lacks(m, t, use, writer, f) && f.item in items[..i]
    {
      if !items[i].optional && items[i].name !in names {
        out := out + [if writer then ItemNoWriter(use, items[i]) else ItemNoConsumer(use, items[i])];
      }
    }
  }

  ghost predicate Lacks(m: Model, t: Tree, use: InterfaceUsage, writer: bool, f: Finding)
    requires Resolved(m, use)
  {
    && (if writer then f.ItemNoWriter? else f.ItemNoConsumer?)
    && f.use == use
    && Silent(m, t, use, if writer then use.srcPart else use.dstPart, f.item)
  }

  method UnconnectedFindings(m: Model) returns (out: Findings)
    ensures forall f :: f in out <==> UnconnectedFault(m, f)
  {
    out := [];
    var defs := Elements(m.interfaceDefs.Keys);
    for i := 0 to |defs|
      invariant forall f :: f in out <==> UnconnectedFault(m, f) && f.def in defs[..i]
    {
      if !Connected(m, defs[i]) {
        out := out + [InterfaceUnconnected(defs[i])];
      }
    }
  }

  ghost predicate ItemFaultOf(m: Model, t: Tree, f: Finding, use: InterfaceUsage)
  {
    ItemFault(m, t, f) && f.use == use
  }

  method HopFindings(m: Model, t: Tree, use: InterfaceUsage, cache: Cache) returns (out: Findings, after: Cache)
    requires use in m.interfaces && Sound(cache, t)
    ensures Sound(after, t)
    ensures forall f :: f in out <==> ItemFaultOf(m, t, f, use)
  {
    out, after := [], cache;
    if !Resolved(m, use) {
      return;
    }
    hide Silent, Sound;
    out, after := EndItems(m, t, use, true, after);
    if m.parts[use.srcPart].code != m.parts[use.dstPart].code {
      var rest;
      rest, after := EndItems(m, t, use, false, after);
      out := out + rest;
    }
  }

  method ItemFindings(m: Model, t: Tree) returns (out: Findings)
    ensures forall f :: f in out <==> ItemFault(m, t, f)
  {
    hide Resolved, Silent, CodeOf;
    out := [];
    var cache: Cache := map[];
    for i := 0 to |m.interfaces|
      invariant Sound(cache, t)
      invariant forall f :: f in out <==> ItemFault(m, t, f) && f.use in m.interfaces[..i]
    {
      var found;
      found, cache := HopFindings(m, t, m.interfaces[i], cache);
      out := out + found;
    }
  }

  method CodeFindings(m: Model, t: Tree) returns (out: Findings)
    ensures forall f :: f in out <==> CodeFault(m, t, f)
  {
    out := [];
    var names := Elements(m.parts.Keys);
    for i := 0 to |names|
      invariant forall f :: f in out <==> CodeFault(m, t, f) && f.part in names[..i]
    {
      var code := m.parts[names[i]].code;
      if code.Some? && Resolve(code.value) !in t {
        out := out + [BlockCodeMissing(names[i])];
      }
    }
  }

  /** `_interface_findings`. */
  method InterfaceFindings(m: Model, t: Tree) returns (out: Findings)
    ensures forall f :: f in out <==> UnconnectedFault(m, f) || ItemFault(m, t, f) || CodeFault(m, t, f)
  {
    hide UnconnectedFault, ItemFault, CodeFault;
    var defs := UnconnectedFindings(m);
    var hops := ItemFindings(m, t);
    var code := CodeFindings(m, t);
    out := defs + hops + code;
  }

  // ---------------------------------------------------------------------------------------
  // Rule (d)
  // ---------------------------------------------------------------------------------------

  /** `constructors`: filled in the order of the names, so that the last definition stays. */
  method Constructors(m: Model) returns (owner: map<string, string>)
    ensures forall name, def :: name in owner && owner[name] == def <==> Owner(m, def, name)
  {
    owner := map[];
    var defs := Sorted(m.interfaceDefs.Keys);
    for i := 0 to |defs|
      invariant forall name :: name in owner ==> Builds(m, owner[name], name) && owner[name] in defs[..i]
      invariant forall j, name :: 0 <= j < i && Builds(m, defs[j], name) ==>
          name in owner && (owner[name] == defs[j] || Less(defs[j], owner[name]))
    {
      owner := Charge(owner, m.interfaceDefs[defs[i]].constructors, defs[i]);
    }
    forall name, def
      ensures name in owner && owner[name] == def <==> Owner(m, def, name)
    {
      if Owner(m, def, name) && owner[name] != def {
        LessIsTotal(owner[name], def);
      }
    }
  }

  /** One turn of that loop. */
  method Charge(owner: map<string, string>, names: seq<string>, def: string) returns (r: map<string, string>)
    ensures forall name :: name in r <==> name in owner || name in names
    ensures forall name :: name in r ==> r[name] == if name in names then def else owner[name]
  {
    r := owner;
    for k := 0 to |names|
      invariant forall name :: name in r <==> name in owner || name in names[..k]
      invariant forall name :: name in r ==> r[name] == if name in names[..k] then def else owner[name]
    {
      r := r[names[k] := def];
    }
  }

  /** `bound`: the definitions that each code line is tied to. */
  method Bindings(m: Model) returns (bound: map<string, set<string>>)
    ensures forall rel :: At(bound, rel) == DefsOf(m, m.interfaces, rel)
  {
    bound := map[];
    for i := 0 to |m.interfaces|
      invariant forall rel :: At(bound, rel) == DefsOf(m, m.interfaces[..i], rel)
    {
      var use := m.interfaces[i];
      bound := Bind(m, bound, use.srcPart, use.defName);
      bound := Bind(m, bound, use.dstPart, use.defName);
      assert m.interfaces[..i + 1] == m.interfaces[..i] + [use];
    }
    assert m.interfaces[..|m.interfaces|] == m.interfaces;
  }

  /** `bound.get(rel, set())`. */
  function At(bound: map<string, set<string>>, rel: string): set<string>
  {
    if rel in bound then bound[rel] else {}
  }

  ghost function DefsOf(m: Model, uses: seq<InterfaceUsage>, rel: string): set<string>
  {
    set use | use in uses && (BoundEnd(m, use.srcPart, rel) || BoundEnd(m, use.dstPart, rel)) :: use.defName
  }

  lemma DefsAreBound(m: Model, rel: string, def: string)
    ensures def in DefsOf(m, m.interfaces, rel) <==> BoundTo(m, rel, def)
  {
  }

  function Bind(m: Model, bound: map<string, set<string>>, part: string, def: string): (r: map<string, set<string>>)
    ensures forall rel :: At(r, rel) == At(bound, rel) + if BoundEnd(m, part, rel) then {def} else {}
  {
    if part in m.parts && CodeOf(m, part) != "" then
      var code := CodeOf(m, part);
      bound[code := At(bound, code) + {def}]
    else bound
  }

  /** `any(name in text for name in constructors)`. */
  method MentionsSome(text: string, names: set<string>) returns (found: bool)
    ensures found <==> exists name :: name in names && Contains(text, name)
  {
    var order := Elements(names);
    for i := 0 to |order|
      invariant forall j :: 0 <= j < i ==> !Contains(text, order[j])
    {
      var here := FindText(text, order[i]);
      if here {
        return true;
      }
    }
    return false;
  }

  method ProductModules(m: Model, t: Tree) returns (found: seq<Path>)
    ensures forall path :: path in found <==> ProductModule(m, t, path)
  {
    found := [];
    var paths := Elements(t.Keys);
    for i := 0 to |paths|
      invariant forall path :: path in found <==> ProductModule(m, t, path) && path in paths[..i]
    {
      var path := paths[i];
      if path != [] && Product(path) && IsPy(path) && InScope(m, path) {
        found := found + [path];
      }
    }
  }

  ghost predicate AuthorFaultAt(m: Model, t: Tree, f: Finding, path: Path)
  {
    AuthorFault(m, t, f) && f.path == path
  }

  method AuthorsOf(m: Model, t: Tree, path: Path, owner: map<string, string>, bound: map<string, set<string>>)
    returns (out: Findings)
    requires path in t && ProductModule(m, t, path)
    requires forall name, def :: name in owner && owner[name] == def <==> Owner(m, def, name)
    requires forall rel :: At(bound, rel) == DefsOf(m, m.interfaces, rel)
    ensures forall f :: f in out <==> AuthorFaultAt(m, t, f, path)
  {
    hide ProductModule, BoundTo, Owner, Posix, DefsOf;
    out := [];
    var rel := Posix(path);
    var called := Elements(t[path].calls * owner.Keys);
    for i := 0 to |called|
      invariant forall f :: f in out <==> AuthorFaultAt(m, t, f, path) && f.constructor_ in called[..i]
    {
      var name := called[i];
      assert name in called;
      var def := owner[name];
      assert Owner(m, def, name);
      DefsAreBound(m, rel, def);
      if def !in At(bound, rel) {
        out := out + [UnmodeledAuthor(def, path, name)];
      }
    }
    forall f | AuthorFaultAt(m, t, f, path)
      ensures f.constructor_ in called
    {
      assert f.constructor_ in t[path].calls * owner.Keys;
    }
  }

  /** `_author_findings`. The text is searched first, and no author is lost by that. */
  method AuthorFindings(m: Model, t: Tree) returns (out: Findings)
    requires ValidTree(t)
    ensures forall f :: f in out <==> AuthorFault(m, t, f)
  {
    hide BoundTo, Owner, Posix, Contains, Product, IsPy, InScope;
    out := [];
    var owner := Constructors(m);
    if owner == map[] {
      return;
    }
    var bound := Bindings(m);
    var paths := ProductModules(m, t);
    for i := 0 to |paths|
      invariant forall f :: f in out <==> AuthorFault(m, t, f) && f.path in paths[..i]
    {
      var path := paths[i];
      assert path in paths;
      var mentioned := MentionsSome(t[path].text, owner.Keys);
      if mentioned {
        var found := AuthorsOf(m, t, path, owner, bound);
        out := out + found;
      } else {
        assert forall name :: name in t[path].calls ==> name !in owner.Keys;
      }
    }
  }

  // ---------------------------------------------------------------------------------------
  // Rule (b)
  // ---------------------------------------------------------------------------------------

  /** `_verify_findings`. */
  method VerifyFindings(m: Model, t: Tree) returns (out: Findings)
    ensures forall f :: f in out <==> TestFault(m, t, f)
  {
    out := [];
    var distinct := set line | line in m.verifies;
    var lines := Elements(distinct);
    for i := 0 to |lines|
      invariant forall f :: f in out <==> TestFault(m, t, f) && f.verify in lines[..i]
    {
      assert lines[i] in lines;
      var path := TestFile(lines[i].node);
      if path !in t {
        out := out + [TestFileMissing(lines[i])];
      } else if TestName(lines[i].node) !in t[path].tests {
        out := out + [TestMissing(lines[i])];
      }
      assert forall f :: TestFault(m, t, f) && f.verify == lines[i] ==> f in out;
    }
    assert forall line :: line in m.verifies ==> line in distinct && line in lines;
  }

  // ---------------------------------------------------------------------------------------
  // Rule (c)
  // ---------------------------------------------------------------------------------------

  method Below(t: Tree, base: Path) returns (paths: seq<Path>)
    requires ValidTree(t)
    ensures forall path :: path in paths <==> path in t && path != [] && IsPy(path) && Above(base, path)
  {
    hide IsPy;
    paths := [];
    var all := Elements(t.Keys);
    for i := 0 to |all|
      invariant forall path :: path in paths <==> path in all[..i] && path != [] && IsPy(path) && Above(base, path)
    {
      if all[i] != [] && IsPy(all[i]) && Above(base, all[i]) {
        paths := paths + [all[i]];
      }
    }
  }

  /** `_swept_modules`. */
  method SweptModules(t: Tree, prefix: string) returns (found: seq<Path>)
    requires ValidTree(t)
    ensures forall path :: path in found <==> Swept(t, prefix, path)
  {
    hide Product, IsPy, Base;
    var base := Base(prefix);
    var paths;
    if HasModuleFile(t, base) {
      paths := [WithPy(base)];
    } else {
      paths := Below(t, base);
    }
    found := [];
    for i := 0 to |paths|
      invariant forall path :: path in found <==> path in paths[..i] && path != [] && Product(path)
    {
      if paths[i] != [] && Product(paths[i]) {
        found := found + [paths[i]];
      }
    }
    assert forall path :: path in found <==> path in paths && path != [] && Product(path);
  }

  /** The edges that the imports of one file add. */
  method EdgesFrom(t: Tree, path: Path) returns (edges: set<Edge>)
    requires path in t && path != []
    ensures forall e :: e in edges <==> e.importer == Dotted(path) && Imports(t, path, e.imported)
  {
    hide Dotted, PackageOf, Imported;
    edges := {};
    var importer := Dotted(path);
    var package := PackageOf(path);
    var nodes := t[path].imports;
    for i := 0 to |nodes|
      invariant forall e :: e in edges <==>
          e.importer == importer && exists node :: node in nodes[..i] && e.imported in Imported(package, node)
    {
      var named := Imported(package, nodes[i]);
      ghost var before := edges;
      edges := edges + set name | name in named :: Edge(importer, name);
      assert nodes[..i + 1] == nodes[..i] + [nodes[i]];
    }
    assert nodes[..|nodes|] == nodes;
  }

  method Prefixes(m: Model) returns (prefixes: set<string>)
    ensures forall p :: p in prefixes <==> IsPrefix(m, p)
  {
    prefixes := set req, rule | req in m.requirementDefs && rule in m.requirementDefs[req] :: rule.importer;
  }

  ghost predicate SweptByOneOf(t: Tree, prefixes: seq<string>, path: Path)
  {
    exists i :: 0 <= i < |prefixes| && Swept(t, prefixes[i], path)
  }

  ghost predicate EdgeOfOne(t: Tree, paths: set<Path>, e: Edge)
  {
    exists path :: path in paths && IsEdgeOf(t, path, e)
  }

  /** `forbid_import_edges`. */
  method ForbidImportEdges(m: Model, t: Tree) returns (edges: set<Edge>)
    requires ValidTree(t)
    ensures forall e :: e in edges <==> IsEdge(m, t, e)
  {
    hide Dotted, Imports, IsPrefix, Product, IsPy, Base;
    var prefixes := Prefixes(m);
    var order := Elements(prefixes);
    ghost var swept: set<Path> := {};
    edges := {};
    for i := 0 to |order|
      invariant forall path :: path in swept <==> SweptByOneOf(t, order[..i], path)
      invariant forall e :: e in edges <==> EdgeOfOne(t, swept, e)
    {
      var paths := SweptModules(t, order[i]);
      var more := EdgesOfAll(t, paths);
      ghost var here := Among(paths);
      SweepsAddUp(t, order[..i], order[i]);
      assert order[..i + 1] == order[..i] + [order[i]];
      edges := edges + more;
      swept := swept + here;
    }
    assert order[..|order|] == order;
    assert forall path :: path in swept <==> SweptBySome(m, t, path);
  }

  function Among(paths: seq<Path>): set<Path>
  {
    set path | path in paths
  }

  lemma SweepsAddUp(t: Tree, prefixes: seq<string>, prefix: string)
    ensures forall path :: SweptByOneOf(t, prefixes + [prefix], path) <==>
        SweptByOneOf(t, prefixes, path) || Swept(t, prefix, path)
  {
    hide Swept;
    forall path
      ensures SweptByOneOf(t, prefixes, path) || Swept(t, prefix, path) ==> SweptByOneOf(t, prefixes + [prefix], path)
    {
      if SweptByOneOf(t, prefixes, path) {
        var i :| 0 <= i < |prefixes| && Swept(t, prefixes[i], path);
        assert (prefixes + [prefix])[i] == prefixes[i];
      } else if Swept(t, prefix, path) {
        assert (prefixes + [prefix])[|prefixes|] == prefix;
      }
    }
  }

  method EdgesOfAll(t: Tree, paths: seq<Path>) returns (edges: set<Edge>)
    requires forall path :: path in paths ==> path in t && path != []
    ensures forall e :: e in edges <==> EdgeOfOne(t, Among(paths), e)
  {
    hide Dotted, Imports;
    edges := {};
    for k := 0 to |paths|
      invariant forall e :: e in edges <==> EdgeOfOne(t, Among(paths[..k]), e)
    {
      var more := EdgesFrom(t, paths[k]);
      edges := edges + more;
      assert Among(paths[..k + 1]) == Among(paths[..k]) + {paths[k]};
    }
    assert paths[..|paths|] == paths;
  }

  /** `_dependency_findings`. */
  method DependencyFindings(m: Model, t: Tree, edges: set<Edge>) returns (out: Findings)
    requires ValidTree(t)
    requires forall e :: e in edges <==> IsEdge(m, t, e)
    ensures forall f :: f in out <==> EdgeFault(m, t, f)
  {
    hide IsEdge, Swept, Under, ValidTree;
    out := [];
    var names := Elements(m.requirementDefs.Keys);
    for i := 0 to |names|
      invariant forall f :: f in out <==> EdgeFault(m, t, f) && f.req in names[..i]
    {
      var rules := m.requirementDefs[names[i]];
      ghost var before := out;
      for k := 0 to |rules|
        invariant forall f ::
            f in out <==> f in before || (EdgeFault(m, t, f) && f.req == names[i] && f.rule in rules[..k])
      {
        var found := RuleFindings(m, t, edges, names[i], rules[k]);
        out := out + found;
      }
    }
  }

  ghost predicate Offends(m: Model, t: Tree, f: Finding, req: string, rule: Forbid)
  {
    EdgeFault(m, t, f) && f.DependencyViolation? && f.req == req && f.rule == rule
  }

  method RuleFindings(m: Model, t: Tree, edges: set<Edge>, req: string, rule: Forbid) returns (out: Findings)
    requires ValidTree(t)
    requires forall e :: e in edges <==> IsEdge(m, t, e)
    requires req in m.requirementDefs && rule in m.requirementDefs[req]
    ensures forall f :: f in out <==> EdgeFault(m, t, f) && f.req == req && f.rule == rule
  {
    hide IsEdge, Swept, Under, ValidTree;
    out := [];
    var swept := SweptModules(t, rule.importer);
    if swept == [] {
      out := [ForbidSweepsNothing(req, rule)];
    } else {
      assert swept[0] in swept;
    }
    ghost var before := out;
    var order := Elements(edges);
    for i := 0 to |order|
      invariant forall f ::
          f in out <==> f in before || (Offends(m, t, f, req, rule) && f.edge in order[..i])
    {
      if Under(order[i].importer, rule.importer) && Under(order[i].imported, rule.imported) {
        out := out + [DependencyViolation(req, rule, order[i])];
      }
    }
  }

  // ---------------------------------------------------------------------------------------
  // The check
  // ---------------------------------------------------------------------------------------

  /** `check`: sound and complete, finding by finding. */
  method Check(m: Model, t: Tree) returns (out: Findings)
    requires ValidTree(t)
    ensures forall f :: f in out <==> Fault(m, t, f)
  {
    hide PartFault, UseFault, LineFault, RequirementFault, UnconnectedFault, ItemFault, CodeFault, AuthorFault,
      TestFault, EdgeFault, IsEdge;
    var structure := StructureFindings(m);
    var interface := InterfaceFindings(m, t);
    var authors := AuthorFindings(m, t);
    var tests := VerifyFindings(m, t);
    var edges := ForbidImportEdges(m, t);
    var dependencies := DependencyFindings(m, t, edges);
    out := structure + interface + authors + tests + dependencies;
  }
}
