/** The rules of scripts/model_check.py by themselves, in terms of a model's and a tree's own fields. */
module Rulebook {
  import opened Wrappers
  import opened Names
  import opened Paths
  import opened SeamModel
  import opened ModelCheck
  import opened Conformance

  // The checker's predicates are built to go with its loops and its findings. Here is what they amount to
  // together: a reference to hold them against, with nothing of theirs in it but how texts are cut.

  ghost predicate Declared(m: Model)
  {
    && (forall p :: p in m.parts ==>
          && m.parts[p].typeName in m.partDefs
          && forall port :: port in m.parts[p].ports ==> m.parts[p].ports[port] in m.portDefs)
    && (forall use :: use in m.interfaces ==>
          && use.defName in m.interfaceDefs
          && use.srcPart in m.parts && use.srcPort in m.parts[use.srcPart].ports
          && use.dstPart in m.parts && use.dstPort in m.parts[use.dstPart].ports
          && forall mark :: mark in use.passThrough ==> mark == use.srcPart || mark == use.dstPart)
    && (forall line :: line in m.satisfies ==> line.req in m.requirementDefs && line.part in m.parts)
    && (forall line :: line in m.verifies ==> line.req in m.requirementDefs)
  }

  ghost predicate Accounted(m: Model, t: Tree)
  {
    && (forall p :: p in m.parts ==> m.parts[p].code.Some? && Resolve(m.parts[p].code.value) in t)
    && (forall req :: req in m.requirementDefs ==>
          && (exists line :: line in m.satisfies && line.req == req)
          && (exists line :: line in m.verifies && line.req == req))
    && (forall def :: def in m.interfaceDefs ==> exists use :: use in m.interfaces && use.defName == def)
  }

  /** The file that the part's code line leads to names the item. */
  ghost predicate NamesItem(m: Model, t: Tree, part: string, item: string)
    requires part in m.parts
  {
    var path := Resolve(if m.parts[part].code.Some? then m.parts[part].code.value else "");
    path in t && item in t[path].names
  }

  /** (a) Both ends of a hop name every item that is not optional, but for an end that it passes through, and
      for the second end where one file is both. */
  ghost predicate RuleA(m: Model, t: Tree)
  {
    forall use, item ::
      && use in m.interfaces
      && use.defName in m.interfaceDefs && use.srcPart in m.parts && use.dstPart in m.parts
      && item in m.interfaceDefs[use.defName].items && !item.optional
      ==> && (use.srcPart !in use.passThrough ==> NamesItem(m, t, use.srcPart, item.name))
          && (use.dstPart !in use.passThrough && m.parts[use.srcPart].code != m.parts[use.dstPart].code ==>
                NamesItem(m, t, use.dstPart, item.name))
  }

  /** (b) Every test that a verify line names is declared in its file. */
  ghost predicate RuleB(m: Model, t: Tree)
  {
    forall line :: line in m.verifies ==>
      var (file, test) := Partition(line.node, "::");
      Resolve(file) in t && Split(test, '[')[0] in t[Resolve(file)].tests
  }

  /** A module of the product, no test. */
  ghost predicate Ships(t: Tree, path: Path)
  {
    && path in t && path != []
    && "tests" !in path && "__pycache__" !in path
    && !("test_" <= path[|path| - 1])
  }

  /** The prefix leads to the file: it is the module the prefix spells, or, where there is none, one below the
      directory it spells. */
  ghost predicate Reaches(t: Tree, prefix: string, path: Path)
  {
    var base := Base(prefix);
    && Ships(t, path)
    && if base != [] && WithPy(base) in t then path == WithPy(base)
       else EndsWith(path[|path| - 1], ".py") && |base| < |path| && base <= path
  }

  /** (c) Every rule reaches some file, and no file that any rule reaches imports what a rule forbids it. */
  ghost predicate RuleC(m: Model, t: Tree)
  {
    forall req, rule :: req in m.requirementDefs && rule in m.requirementDefs[req] ==>
      && (exists path :: Reaches(t, rule.importer, path))
      && NothingBreaks(m, t, rule)
  }

  ghost predicate NothingBreaks(m: Model, t: Tree, rule: Forbid)
  {
    forall path, imported :: ReachedByAny(m, t, path) && ImportedBy(t, path, imported) ==>
      !Breaks(rule, path, imported)
  }

  /** The rule forbids what the file imports. */
  predicate Breaks(rule: Forbid, path: Path, imported: string)
  {
    path != [] && Under(Dotted(path), rule.importer) && Under(imported, rule.imported)
  }

  ghost predicate ReachedByAny(m: Model, t: Tree, path: Path)
  {
    path != []
    && exists req, rule :: req in m.requirementDefs && rule in m.requirementDefs[req] && Reaches(t, rule.importer, path)
  }

  ghost predicate ImportedBy(t: Tree, path: Path, imported: string)
  {
    path in t && path != []
    && exists node :: node in t[path].imports && imported in Imported(PackageOf(path), node)
  }

  /** Below the top directory of some part's code. */
  ghost predicate Below(m: Model, path: Path)
  {
    exists part :: part in m.parts && m.parts[part].code.Some? && m.parts[part].code.value != ""
                   && TopAbove(m.parts[part].code.value, path)
  }

  predicate TopAbove(code: string, path: Path)
  {
    var top := Resolve(Split(code, '/')[0]);
    |top| < |path| && top <= path
  }

  /** Some usage of the definition has the file at one of its ends. */
  ghost predicate Ties(m: Model, def: string, file: string)
  {
    exists use :: use in m.interfaces && use.defName == def && (At(m, use.srcPart, file) || At(m, use.dstPart, file))
  }

  predicate At(m: Model, part: string, file: string)
  {
    file != "" && part in m.parts && m.parts[part].code == Some(file)
  }

  /** A module of the product below some part's code calls a constructor, and the definition is the last by
      name that lists it. */
  ghost predicate Asked(m: Model, t: Tree, path: Path, name: string, def: string)
  {
    && Ships(t, path) && EndsWith(path[|path| - 1], ".py") && Below(m, path)
    && name in t[path].calls && def in m.interfaceDefs && LastToList(m, def, name)
  }

  /** (d) Whoever calls a constructor is at an end of the definition that lists it. */
  ghost predicate RuleD(m: Model, t: Tree)
  {
    forall path, name, def :: Asked(m, t, path, name, def) ==> Ties(m, def, Join(path, '/'))
  }

  ghost predicate LastToList(m: Model, def: string, name: string)
    requires def in m.interfaceDefs
  {
    && name in m.interfaceDefs[def].constructors
    && forall other :: other in m.interfaceDefs && other != def && name in m.interfaceDefs[other].constructors ==>
         Less(other, def)
  }

  // ---------------------------------------------------------------------------------------
  // The checker keeps to the book
  // ---------------------------------------------------------------------------------------

  lemma DeclaredIs(m: Model)
    ensures NamesResolve(m) <==> Declared(m)
  {
    if Declared(m) {
      forall use | use in m.interfaces
        ensures UseResolves(m, use)
      {
      }
    }
    if NamesResolve(m) {
      forall use | use in m.interfaces
        ensures use.defName in m.interfaceDefs && use.srcPart in m.parts && use.dstPart in m.parts
        ensures use.srcPort in m.parts[use.srcPart].ports && use.dstPort in m.parts[use.dstPart].ports
        ensures forall mark :: mark in use.passThrough ==> mark == use.srcPart || mark == use.dstPart
      {
        assert UseResolves(m, use);
      }
    }
  }

  lemma AccountedIs(m: Model, t: Tree)
    ensures NothingIdle(m, t) <==> Accounted(m, t)
  {
    hide Resolve;
  }

  lemma SpeaksIs(m: Model, t: Tree, use: InterfaceUsage, end: string)
    requires Resolved(m, use) && end in m.parts
    ensures Speaks(m, t, use, end) <==>
            forall item :: item in m.interfaceDefs[use.defName].items && !item.optional ==>
              (end !in use.passThrough ==> NamesItem(m, t, end, item.name))
  {
    hide Resolve;
  }

  lemma RuleAIs(m: Model, t: Tree)
    ensures HopsCarryTheirItems(m, t) <==> RuleA(m, t)
  {
    hide NamesItem, Speaks;
    forall use | use in m.interfaces && Resolved(m, use)
      ensures forall end :: end in m.parts ==>
                (Speaks(m, t, use, end) <==>
                 forall item :: item in m.interfaceDefs[use.defName].items && !item.optional ==>
                   (end !in use.passThrough ==> NamesItem(m, t, end, item.name)))
    {
      forall end | end in m.parts
        ensures Speaks(m, t, use, end) <==>
                forall item :: item in m.interfaceDefs[use.defName].items && !item.optional ==>
                  (end !in use.passThrough ==> NamesItem(m, t, end, item.name))
      {
        SpeaksIs(m, t, use, end);
      }
    }
  }

  lemma RuleBIs(m: Model, t: Tree)
    ensures TestsExist(m, t) <==> RuleB(m, t)
  {
    hide Resolve, Partition, Split;
  }

  lemma ReachesIs(t: Tree, prefix: string, path: Path)
    ensures Swept(t, prefix, path) <==> Reaches(t, prefix, path)
  {
    hide Base;
  }

  lemma ReachedIs(m: Model, t: Tree, path: Path)
    requires path != []
    ensures SweptBySome(m, t, path) <==> ReachedByAny(m, t, path)
  {
    hide Swept, Reaches;
    forall prefix
      ensures Swept(t, prefix, path) <==> Reaches(t, prefix, path)
    {
      ReachesIs(t, prefix, path);
    }
    if SweptBySome(m, t, path) {
      var prefix :| IsPrefix(m, prefix) && Swept(t, prefix, path);
      var req, rule :| req in m.requirementDefs && rule in m.requirementDefs[req] && rule.importer == prefix;
      assert Reaches(t, rule.importer, path);
    }
    if ReachedByAny(m, t, path) {
      var req, rule :|
        req in m.requirementDefs && rule in m.requirementDefs[req] && Reaches(t, rule.importer, path);
      assert IsPrefix(m, rule.importer) && Swept(t, rule.importer, path);
    }
  }

  lemma EdgeIs(m: Model, t: Tree, path: Path, imported: string)
    requires ReachedByAny(m, t, path) && ImportedBy(t, path, imported)
    ensures IsEdge(m, t, Edge(Dotted(path), imported))
  {
    hide ReachedByAny, Dotted, Imported, PackageOf, SweptBySome;
    assert path != [];
    ReachedIs(m, t, path);
    assert IsEdgeOf(t, path, Edge(Dotted(path), imported));
  }

  lemma EdgeComesFrom(m: Model, t: Tree, e: Edge) returns (path: Path)
    requires IsEdge(m, t, e)
    ensures path != [] && e.importer == Dotted(path)
    ensures ReachedByAny(m, t, path) && ImportedBy(t, path, e.imported)
  {
    hide ReachedByAny, Dotted, Imported, PackageOf, SweptBySome;
    path :| SweptBySome(m, t, path) && IsEdgeOf(t, path, e);
    ReachedIs(m, t, path);
  }

  lemma RuleCFollows(m: Model, t: Tree)
    requires NoForbiddenEdge(m, t)
    ensures RuleC(m, t)
  {
    hide Swept, Reaches, IsEdge, ReachedByAny, ImportedBy, Under, Dotted;
    forall req, rule | req in m.requirementDefs && rule in m.requirementDefs[req]
      ensures (exists path :: Reaches(t, rule.importer, path)) && NothingBreaks(m, t, rule)
    {
      assert SweepsSome(t, rule.importer) && RuleHolds(m, t, rule);
      var path :| Swept(t, rule.importer, path);
      ReachesIs(t, rule.importer, path);
      forall path, imported | ReachedByAny(m, t, path) && ImportedBy(t, path, imported)
        ensures !Breaks(rule, path, imported)
      {
        NotTheRoot(t, path, imported);
        EdgeIs(m, t, path, imported);
      }
    }
  }

  lemma RuleCSuffices(m: Model, t: Tree)
    requires RuleC(m, t)
    ensures NoForbiddenEdge(m, t)
  {
    hide Swept, Reaches, IsEdge, ReachedByAny, ImportedBy, Under, Dotted;
    forall req, rule | req in m.requirementDefs && rule in m.requirementDefs[req]
      ensures SweepsSome(t, rule.importer) && RuleHolds(m, t, rule)
    {
      var path :| Reaches(t, rule.importer, path);
      ReachesIs(t, rule.importer, path);
      forall e | IsEdge(m, t, e)
        ensures !(Under(e.importer, rule.importer) && Under(e.imported, rule.imported))
      {
        var from := EdgeComesFrom(m, t, e);
        assert !Breaks(rule, from, e.imported);
      }
    }
  }

  lemma NotTheRoot(t: Tree, path: Path, imported: string)
    requires ImportedBy(t, path, imported)
    ensures path != []
  {
  }

  lemma BelowIs(m: Model, path: Path)
    ensures InScope(m, path) <==> Below(m, path)
  {
    hide Resolve, Split;
  }

  lemma TiesIs(m: Model, def: string, file: string)
    ensures BoundTo(m, file, def) <==> Ties(m, def, file)
  {
  }

  lemma ShipsIs(m: Model, t: Tree, path: Path)
    ensures ProductModule(m, t, path)
       <==> Ships(t, path) && EndsWith(path[|path| - 1], ".py") && Below(m, path)
  {
    hide InScope, Below, EndsWith;
    BelowIs(m, path);
  }

  lemma LastIs(m: Model, def: string, name: string)
    ensures Owner(m, def, name) <==> def in m.interfaceDefs && LastToList(m, def, name)
  {
    hide Less;
  }

  lemma AskedIs(m: Model, t: Tree, path: Path, name: string, def: string)
    ensures Asked(m, t, path, name, def)
       <==> ProductModule(m, t, path) && name in t[path].calls && Owner(m, def, name)
    ensures BoundTo(m, Posix(path), def) <==> Ties(m, def, Join(path, '/'))
  {
    hide Ships, Below, LastToList, Owner, ProductModule, EndsWith, BoundTo, Ties;
    ShipsIs(m, t, path);
    LastIs(m, def, name);
    TiesIs(m, def, Posix(path));
    Shipped(t, path);
    InTree(m, t, path);
  }

  lemma Shipped(t: Tree, path: Path)
    ensures Ships(t, path) ==> path in t && path != []
  {
  }

  lemma InTree(m: Model, t: Tree, path: Path)
    ensures ProductModule(m, t, path) ==> path in t && path != []
  {
  }

  lemma RuleDFollows(m: Model, t: Tree)
    requires OwnersBound(m, t)
    ensures RuleD(m, t)
  {
    hide Asked, Owner, ProductModule, BoundTo, Ties, Join, Posix;
    forall path, name, def | Asked(m, t, path, name, def)
      ensures Ties(m, def, Join(path, '/'))
    {
      AskedIs(m, t, path, name, def);
    }
  }

  lemma RuleDSuffices(m: Model, t: Tree)
    requires RuleD(m, t)
    ensures OwnersBound(m, t)
  {
    hide Asked, Owner, ProductModule, BoundTo, Ties, Join, Posix;
    forall path, name, def | ProductModule(m, t, path) && path in t && name in t[path].calls && Owner(m, def, name)
      ensures BoundTo(m, Posix(path), def)
    {
      AskedIs(m, t, path, name, def);
    }
    Shippeds(m, t);
  }

  lemma Shippeds(m: Model, t: Tree)
    ensures forall path :: ProductModule(m, t, path) ==> path in t
  {
  }

  /** The report is empty exactly where everything is declared and accounted for and the four rules hold. */
  method KeepsTheRules(m: Model, t: Tree) returns (ok: bool)
    requires ValidTree(t)
    ensures ok <==>
      Declared(m) && Accounted(m, t) && RuleA(m, t) && RuleB(m, t) && RuleC(m, t) && RuleD(m, t)
  {
    ok := CheckPasses(m, t);
    DeclaredIs(m);
    AccountedIs(m, t);
    RuleAIs(m, t);
    RuleBIs(m, t);
    if RuleC(m, t) {
      RuleCSuffices(m, t);
    } else if NoForbiddenEdge(m, t) {
      RuleCFollows(m, t);
    }
    if RuleD(m, t) {
      RuleDSuffices(m, t);
    } else if OwnersBound(m, t) {
      RuleDFollows(m, t);
    }
    hide Declared, Accounted, RuleA, RuleB, RuleC, RuleD;
  }
}
