/** What a clean report of scripts/model_check.py means, rule by rule, and where it means less than the
    rule says: the conformance predicate, which the report is empty exactly for; the rule about authors,
    where two definitions share a constructor; and the rule about imports, where a module file stands
    beside a directory of its name. */
module Conformance {
  import opened Wrappers
  import opened Names
  import opened Paths
  import opened DottedNames
  import opened SeamModel
  import opened ModelCheck

  // ---------------------------------------------------------------------------------------
  // The four rules
  // ---------------------------------------------------------------------------------------

  /** Every name the model uses it declares. */
  ghost predicate NamesResolve(m: Model)
  {
    && (forall p :: p in m.parts ==> m.parts[p].typeName in m.partDefs)
    && (forall p, port :: p in m.parts && port in m.parts[p].ports ==> m.parts[p].ports[port] in m.portDefs)
    && (forall use :: use in m.interfaces ==> UseResolves(m, use))
    && (forall line :: line in m.satisfies ==> line.req in m.requirementDefs && line.part in m.parts)
    && (forall line :: line in m.verifies ==> line.req in m.requirementDefs)
  }

  ghost predicate UseResolves(m: Model, use: InterfaceUsage)
  {
    && Resolved(m, use)
    && use.srcPort in m.parts[use.srcPart].ports
    && use.dstPort in m.parts[use.dstPart].ports
    && use.passThrough <= {use.srcPart, use.dstPart}
  }

  /** Every part is bound to a file, every requirement allocated and verified, every definition used. */
  ghost predicate NothingIdle(m: Model, t: Tree)
  {
    && (forall p :: p in m.parts ==> m.parts[p].code.Some? && Resolve(m.parts[p].code.value) in t)
    && (forall req :: req in m.requirementDefs ==> Satisfied(m, req) && Verified(m, req))
    && (forall def :: def in m.interfaceDefs ==> Connected(m, def))
  }

  /** This end of the hop names every item it owes. */
  ghost predicate Speaks(m: Model, t: Tree, use: InterfaceUsage, end: string)
    requires Resolved(m, use) && end in m.parts
  {
    end in use.passThrough
    || forall item :: item in m.interfaceDefs[use.defName].items && !item.optional ==>
         item.name in NamedAt(t, CodeOf(m, end))
  }

  /** Rule (a). */
  ghost predicate HopsCarryTheirItems(m: Model, t: Tree)
  {
    forall use :: use in m.interfaces && Resolved(m, use) ==>
      && Speaks(m, t, use, use.srcPart)
      && (m.parts[use.srcPart].code != m.parts[use.dstPart].code ==> Speaks(m, t, use, use.dstPart))
  }

  /** Rule (b). */
  ghost predicate TestsExist(m: Model, t: Tree)
  {
    forall line :: line in m.verifies ==>
      TestFile(line.node) in t && TestName(line.node) in t[TestFile(line.node)].tests
  }

  /** Rule (c). */
  ghost predicate NoForbiddenEdge(m: Model, t: Tree)
  {
    forall req, rule :: req in m.requirementDefs && rule in m.requirementDefs[req] ==>
      SweepsSome(t, rule.importer) && RuleHolds(m, t, rule)
  }

  ghost predicate RuleHolds(m: Model, t: Tree, rule: Forbid)
  {
    forall edge :: IsEdge(m, t, edge) ==> !(Under(edge.importer, rule.importer) && Under(edge.imported, rule.imported))
  }

  /** Rule (d) as the code applies it, a constructor charged to one definition. */
  ghost predicate OwnersBound(m: Model, t: Tree)
  {
    forall path, name, def :: ProductModule(m, t, path) && name in t[path].calls && Owner(m, def, name) ==>
      BoundTo(m, Posix(path), def)
  }

  ghost predicate Conforms(m: Model, t: Tree)
  {
    && NamesResolve(m) && NothingIdle(m, t) && HopsCarryTheirItems(m, t)
    && TestsExist(m, t) && NoForbiddenEdge(m, t) && OwnersBound(m, t)
  }

  lemma StructureClean(m: Model, t: Tree)
    requires forall f :: !Fault(m, t, f)
    ensures NamesResolve(m) && NothingIdle(m, t)
  {
    hide ItemFault, AuthorFault, TestFault, EdgeFault;
    forall p | p in m.parts
      ensures m.parts[p].typeName in m.partDefs
      ensures m.parts[p].code.Some? && Resolve(m.parts[p].code.value) in t
    {
      assert !PartFault(m, PartTypeUndeclared(p)) by { assert !Fault(m, t, PartTypeUndeclared(p)); }
      assert !PartFault(m, PartUnbound(p)) by { assert !Fault(m, t, PartUnbound(p)); }
      assert !CodeFault(m, t, BlockCodeMissing(p)) by { assert !Fault(m, t, BlockCodeMissing(p)); }
    }
    forall p, port | p in m.parts && port in m.parts[p].ports
      ensures m.parts[p].ports[port] in m.portDefs
    {
      assert !Fault(m, t, PortTypeUndeclared(p, port));
    }
    forall use | use in m.interfaces
      ensures UseResolves(m, use)
    {
      CleanUse(m, t, use);
    }
    forall line | line in m.satisfies
      ensures line.req in m.requirementDefs && line.part in m.parts
    {
      assert !Fault(m, t, SatisfyUndeclared(line));
      assert !Fault(m, t, SatisfyUnknownBlock(line));
    }
    forall line | line in m.verifies
      ensures line.req in m.requirementDefs
    {
      assert !Fault(m, t, VerifyUndeclared(line));
    }
    forall req | req in m.requirementDefs
      ensures Satisfied(m, req) && Verified(m, req)
    {
      assert !Fault(m, t, RequirementUnallocated(req));
      assert !Fault(m, t, RequirementUnverified(req));
    }
    forall def | def in m.interfaceDefs
      ensures Connected(m, def)
    {
      assert !Fault(m, t, InterfaceUnconnected(def));
    }
  }

  lemma CleanUse(m: Model, t: Tree, use: InterfaceUsage)
    requires use in m.interfaces && forall f :: !Fault(m, t, f)
    ensures UseResolves(m, use)
  {
    hide ItemFault, AuthorFault, TestFault, EdgeFault, PartFault, LineFault, RequirementFault;
    assert !Fault(m, t, DefUndeclared(use));
    assert !Fault(m, t, EndUndeclared(use, use.srcPart));
    assert !Fault(m, t, EndUndeclared(use, use.dstPart));
    assert !Fault(m, t, EndPortMissing(use, use.srcPart, use.srcPort));
    assert !Fault(m, t, EndPortMissing(use, use.dstPart, use.dstPort));
    forall marked | marked in use.passThrough
      ensures marked in {use.srcPart, use.dstPart}
    {
      assert !Fault(m, t, MarksNeitherEnd(use, marked));
    }
  }

  lemma RulesClean(m: Model, t: Tree)
    requires forall f :: !Fault(m, t, f)
    ensures HopsCarryTheirItems(m, t) && TestsExist(m, t) && NoForbiddenEdge(m, t) && OwnersBound(m, t)
  {
    hide PartFault, UseFault, LineFault, RequirementFault, UnconnectedFault, CodeFault, IsEdge, Swept, Owner, BoundTo,
      Product, IsPy, InScope, Under, TestFile, TestName, NamedAt, EdgeFault, Silent;
    HopsClean(m, t);
    EdgesClean(m, t);
    forall line | line in m.verifies
      ensures TestFile(line.node) in t && TestName(line.node) in t[TestFile(line.node)].tests
    {
      assert !Fault(m, t, TestFileMissing(line));
      assert !Fault(m, t, TestMissing(line));
    }
    forall path, name, def | ProductModule(m, t, path) && path in t && name in t[path].calls && Owner(m, def, name)
      ensures BoundTo(m, Posix(path), def)
    {
      assert !Fault(m, t, UnmodeledAuthor(def, path, name));
    }
  }

  lemma HopsClean(m: Model, t: Tree)
    requires forall f :: !Fault(m, t, f)
    ensures HopsCarryTheirItems(m, t)
  {
    hide PartFault, UseFault, LineFault, RequirementFault, UnconnectedFault, CodeFault, AuthorFault, TestFault,
      EdgeFault,
      NamedAt;
    forall use, item | use in m.interfaces && Resolved(m, use) && item in m.interfaceDefs[use.defName].items
      ensures !Silent(m, t, use, use.srcPart, item)
      ensures m.parts[use.srcPart].code != m.parts[use.dstPart].code ==> !Silent(m, t, use, use.dstPart, item)
    {
      assert !Fault(m, t, ItemNoWriter(use, item));
      assert !Fault(m, t, ItemNoConsumer(use, item));
    }
  }

  lemma EdgesClean(m: Model, t: Tree)
    requires forall f :: !Fault(m, t, f)
    ensures NoForbiddenEdge(m, t)
  {
    hide PartFault, UseFault, LineFault, RequirementFault, UnconnectedFault, ItemFault, CodeFault,
      AuthorFault, TestFault,
      IsEdge, Swept, Under;
    forall req, rule | req in m.requirementDefs && rule in m.requirementDefs[req]
      ensures SweepsSome(t, rule.importer) && RuleHolds(m, t, rule)
    {
      assert !Fault(m, t, ForbidSweepsNothing(req, rule));
      forall edge | IsEdge(m, t, edge)
        ensures !(Under(edge.importer, rule.importer) && Under(edge.imported, rule.imported))
      {
        assert !Fault(m, t, DependencyViolation(req, rule, edge));
      }
    }
  }

  lemma ConformingIsClean(m: Model, t: Tree, f: Finding)
    requires Conforms(m, t)
    ensures !Fault(m, t, f)
  {
    hide PartFault, UseFault, LineFault, RequirementFault, UnconnectedFault, ItemFault, CodeFault, AuthorFault,
      TestFault, EdgeFault, NamesResolve, NothingIdle, HopsCarryTheirItems, TestsExist, NoForbiddenEdge, OwnersBound;
    NoStructureFault(m, t, f);
    NoIdleFault(m, t, f);
    NoRuleFault(m, t, f);
  }

  lemma NoStructureFault(m: Model, t: Tree, f: Finding)
    requires NamesResolve(m) && NothingIdle(m, t)
    ensures !PartFault(m, f) && !UseFault(m, f) && !LineFault(m, f)
  {
    hide Satisfied, Verified, Connected, Resolve;
  }

  lemma NoIdleFault(m: Model, t: Tree, f: Finding)
    requires NothingIdle(m, t)
    ensures !RequirementFault(m, f) && !UnconnectedFault(m, f) && !CodeFault(m, t, f)
  {
    hide Satisfied, Verified, Connected, Resolve;
  }

  lemma NoRuleFault(m: Model, t: Tree, f: Finding)
    requires HopsCarryTheirItems(m, t) && TestsExist(m, t) && NoForbiddenEdge(m, t) && OwnersBound(m, t)
    ensures !ItemFault(m, t, f) && !AuthorFault(m, t, f) && !TestFault(m, t, f) && !EdgeFault(m, t, f)
  {
    hide IsEdge, Swept, Owner, BoundTo, ProductModule, Under, TestFile, TestName, NamedAt, Posix;
  }

  /** The report is empty exactly when the model conforms. */
  method CheckPasses(m: Model, t: Tree) returns (ok: bool)
    requires ValidTree(t)
    ensures ok <==> Conforms(m, t)
  {
    hide Conforms, Fault;
    var out := Check(m, t);
    ok := out == [];
    if ok {
      StructureClean(m, t);
      RulesClean(m, t);
      assert Conforms(m, t) by {
        ConformsByRules(m, t);
      }
    } else {
      assert out[0] in out;
      if Conforms(m, t) {
        ConformingIsClean(m, t, out[0]);
      }
    }
  }

  lemma ConformsByRules(m: Model, t: Tree)
    requires NamesResolve(m) && NothingIdle(m, t) && HopsCarryTheirItems(m, t)
    requires TestsExist(m, t) && NoForbiddenEdge(m, t) && OwnersBound(m, t)
    ensures Conforms(m, t)
  {
  }

  // ---------------------------------------------------------------------------------------
  // Rule (d) and shared constructors
  // ---------------------------------------------------------------------------------------

  /** Rule (d) as its text has it: whoever builds a contract is bound to a usage of it. */
  ghost predicate AuthorsBound(m: Model, t: Tree)
  {
    forall path, name, def :: ProductModule(m, t, path) && name in t[path].calls && Builds(m, def, name) ==>
      BoundTo(m, Posix(path), def)
  }

  /** Two definitions list the same constructor. */
  ghost predicate Shares(defs: map<string, InterfaceDef>)
  {
    exists a, b, name ::
      a in defs && b in defs && a != b && name in defs[a].constructors && name in defs[b].constructors
  }

  /** The code applies rule (d) as written, whatever the rest of the model and the tree, exactly when
      no two definitions share a constructor. */
  lemma AuthorRuleIsExact(defs: map<string, InterfaceDef>)
    ensures !Shares(defs) <==> forall m: Model, t: Tree :: m.interfaceDefs == defs && ValidTree(t) ==>
              (OwnersBound(m, t) <==> AuthorsBound(m, t))
  {
    if !Shares(defs) {
      forall m: Model, t: Tree | m.interfaceDefs == defs && ValidTree(t)
        ensures OwnersBound(m, t) <==> AuthorsBound(m, t)
      {
        UnsharedOwners(m);
      }
    } else {
      var m, t := SharedAuthorEscapes(defs);
    }
  }

  lemma UnsharedOwners(m: Model)
    requires !Shares(m.interfaceDefs)
    ensures forall def, name :: Builds(m, def, name) <==> Owner(m, def, name)
  {
  }

  /** Where two definitions share a constructor, a caller bound to the last of them alone passes. */
  lemma SharedAuthorEscapes(defs: map<string, InterfaceDef>) returns (m: Model, t: Tree)
    requires Shares(defs)
    ensures m.interfaceDefs == defs && ValidTree(t) && OwnersBound(m, t) && !AuthorsBound(m, t)
  {
    hide Builds, Owner, BoundTo, ProductModule, Contains;
    var last, first, name := TwoBuilders(defs);
    m, t := OneAuthor(defs, last), map[["x", "y.py"] := Source(name, {}, {name}, {}, [])];
    OneAuthorEscapes(defs, last, first, name, t);
    NameIsItsText(name);
  }

  lemma TwoBuilders(defs: map<string, InterfaceDef>) returns (last: string, first: string, name: string)
    requires Shares(defs)
    ensures first != last && Builds(OneAuthor(defs, last), first, name)
    ensures forall d :: Owner(OneAuthor(defs, last), d, name) <==> d == last
  {
    hide Less;
    var a, b, n :| a in defs && b in defs && a != b && n in defs[a].constructors && n in defs[b].constructors;
    assert Builds(Bare(defs), a, n) && Builds(Bare(defs), b, n);
    name := n;
    last := LastBuilder(Bare(defs), name, defs.Keys);
    first := if last == a then b else a;
    LastIsOwner(defs, OneAuthor(defs, last), last, name);
  }

  lemma NameIsItsText(name: string)
    ensures Source(name, {}, {name}, {}, []).Valid()
  {
    assert name[0..] == name;
  }

  lemma LastIsOwner(defs: map<string, InterfaceDef>, m: Model, last: string, name: string)
    requires m.interfaceDefs == defs && Builds(Bare(defs), last, name)
    requires forall d :: d in defs && Builds(Bare(defs), d, name) ==> d == last || Less(d, last)
    ensures forall d :: Owner(m, d, name) <==> d == last
  {
    hide Less;
    assert forall d :: Builds(m, d, name) <==> Builds(Bare(defs), d, name);
    forall d
      ensures !(Less(d, last) && Less(last, d))
    {
      LessIsTotal(d, last);
    }
  }

  lemma OneAuthorEscapes(defs: map<string, InterfaceDef>, last: string, first: string, name: string, t: Tree)
    requires t == map[["x", "y.py"] := Source(name, {}, {name}, {}, [])]
    requires forall d :: Owner(OneAuthor(defs, last), d, name) <==> d == last
    requires first != last && Builds(OneAuthor(defs, last), first, name)
    ensures OwnersBound(OneAuthor(defs, last), t) && !AuthorsBound(OneAuthor(defs, last), t)
  {
    var m := OneAuthor(defs, last);
    AuthorIsSeen(defs, last, t);
    hide Owner, BoundTo, Builds, ProductModule, Posix, OneAuthor;
    assert ProductModule(m, t, ["x", "y.py"]) && name in t[["x", "y.py"]].calls &&
      !BoundTo(m, Posix(["x", "y.py"]), first);
    forall path, called, def | path in t && called in t[path].calls && Owner(m, def, called)
      ensures BoundTo(m, Posix(path), def)
    {
      assert path == ["x", "y.py"] && called == name;
    }
  }

  function Bare(defs: map<string, InterfaceDef>): Model
  {
    Model({}, {}, defs, map[], map[], [], [], [])
  }

  /** One part, whose only usage is of the definition given. */
  function OneAuthor(defs: map<string, InterfaceDef>, def: string): Model
  {
    Model({}, {}, defs, map[], map["p" := PartUsage("", Some("x/y.py"), map[])],
      [InterfaceUsage("", def, "p", "", "p", "", {})], [], [])
  }

  lemma AuthorIsSeen(defs: map<string, InterfaceDef>, def: string, t: Tree)
    requires ["x", "y.py"] in t
    ensures var m := OneAuthor(defs, def);
            && ProductModule(m, t, ["x", "y.py"])
            && (forall other :: BoundTo(m, Posix(["x", "y.py"]), other) <==> other == def)
  {
    hide BoundTo;
    var m := OneAuthor(defs, def);
    var path := ["x", "y.py"];
    assert Join(["y.py"], '/') == "y.py";
    assert Posix(path) == "x/y.py";
    CodeTop();
    assert InScope(m, path) by {
      assert "p" in m.parts && CodeOf(m, "p") == "x/y.py";
    }
    assert ProductModule(m, t, path);
    OneBinding(defs, def);
  }

  lemma OneBinding(defs: map<string, InterfaceDef>, def: string)
    ensures forall other :: BoundTo(OneAuthor(defs, def), "x/y.py", other) <==> other == def
  {
    var m := OneAuthor(defs, def);
    assert m.interfaces[0].defName == def && m.interfaces[0] in m.interfaces;
    assert BoundEnd(m, m.interfaces[0].srcPart, "x/y.py");
  }

  lemma CodeTop()
    ensures TopOf("x/y.py") == ["x"]
  {
    assert "x/y.py" == "x" + ['/'] + "y.py";
    SplitConcat("x", "y.py", '/');
    SplitWhole("x", '/');
    assert Split("x/y.py", '/')[0] == "x";
    CleanWord("x");
  }

  lemma LastBuilder(m: Model, name: string, among: set<string>) returns (last: string)
    requires among <= m.interfaceDefs.Keys
    requires exists def :: def in among && Builds(m, def, name)
    ensures last in among && Builds(m, last, name)
    ensures forall other :: other in among && Builds(m, other, name) ==> other == last || Less(other, last)
    decreases |among|
  {
    hide Builds;
    last :| last in among && Builds(m, last, name);
    var rest := among - {last};
    if exists def :: def in rest && Builds(m, def, name) {
      var best := LastBuilder(m, name, rest);
      LessIsTotal(best, last);
      if Less(last, best) {
        last := best;
      } else {
        forall other | other in rest && Builds(m, other, name) && other != best
          ensures Less(other, last)
        {
          LessIsTransitive(other, best, last);
        }
      }
    }
  }

  // ---------------------------------------------------------------------------------------
  // Rule (c): the sweep
  // ---------------------------------------------------------------------------------------

  /** `_swept_modules` finds every importable module under its prefix. */
  ghost predicate SweepsAll(t: Tree, prefix: string)
  {
    forall path :: path in t && Importable(path) && Product(path) && Under(Dotted(path), prefix) ==>
      Swept(t, prefix, path)
  }

  /** A module file stands beside a directory of its own name that holds modules. */
  ghost predicate Shadowed(t: Tree, prefix: string)
  {
    && HasModuleFile(t, Base(prefix))
    && exists path :: path in t && Importable(path) && Product(path) && Above(Base(prefix), path)
  }

  /** A sweep never strays from its prefix, and it is complete unless a module file hides a directory. */
  lemma SweepIsExact(t: Tree, prefix: string)
    requires Prefix(prefix)
    ensures forall path :: Swept(t, prefix, path) && Importable(path) ==> Under(Dotted(path), prefix)
    ensures SweepsAll(t, prefix) <==> !Shadowed(t, prefix)
  {
    hide Dotted, Base, Importable, Product, Under, IsPy;
    forall path | path in t && Importable(path)
      ensures path != [] && IsPy(path)
      ensures Base(prefix) != []
      ensures Under(Dotted(path), prefix) <==> path == WithPy(Base(prefix)) || Above(Base(prefix), path)
    {
      UnderIsBelow(path, prefix);
      ImportableIsPy(path);
    }
    if Shadowed(t, prefix) {
      var path :| path in t && Importable(path) && Product(path) && Above(Base(prefix), path);
      assert path != WithPy(Base(prefix));
      assert !Swept(t, prefix, path);
    }
  }

  lemma ImportableIsPy(path: Path)
    requires Importable(path)
    ensures path != [] && IsPy(path)
  {
  }

  /** So a clean report means what rule (c) says, for every rule whose sweep hides no directory. */
  lemma CleanRuleHolds(m: Model, t: Tree, req: string, rule: Forbid, path: Path, imported: string)
    requires NoForbiddenEdge(m, t) && req in m.requirementDefs && rule in m.requirementDefs[req]
    requires Prefix(rule.importer) && !Shadowed(t, rule.importer)
    requires path in t && Importable(path) && Product(path)
    requires Under(Dotted(path), rule.importer) && Imports(t, path, imported)
    ensures !Under(imported, rule.imported)
  {
    hide Dotted, Under, Importable, Product, Imports, Base;
    SweepIsExact(t, rule.importer);
    assert IsPrefix(m, rule.importer);
    assert SweptBySome(m, t, path);
    assert IsEdge(m, t, Edge(Dotted(path), imported));
  }
}
