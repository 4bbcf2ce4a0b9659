/** `LayerMaterializer` (plugin/render/layers.py) over the project it changes in place. The project is an
    object of its own, which the user changes too between two calls; its methods are the few of
    `QgsProject` and of the layer tree that the materializer uses. Every method of the materializer is
    proved to leave both objects as module LayerSpec says. */
module Layers {
  import opened Wrappers
  import opened Names
  import opened LayerSpec

  /** `findLayerIds` of a group. */
  function MembersOf(groups: seq<Group>, node: nat): set<nat>
  {
    if groups == [] then {}
    else if groups[0].node == node then groups[0].members
    else MembersOf(groups[1..], node)
  }

  /** `removeMapLayers`: the tree forgets the layers too. */
  function DropLayers(c: Canvas, ids: set<nat>): Canvas
  {
    c.(layers := c.layers - ids, groups := WithoutMembers(c.groups, ids))
  }

  function WithoutMembers(groups: seq<Group>, ids: set<nat>): seq<Group>
  {
    if groups == [] then []
    else [groups[0].(members := groups[0].members - ids)] + WithoutMembers(groups[1..], ids)
  }

  /** `removeChildNode`. */
  function DropNode(groups: seq<Group>, node: nat): seq<Group>
  {
    if groups == [] then []
    else (if groups[0].node == node then [] else [groups[0]]) + DropNode(groups[1..], node)
  }

  /** The part of `QgsProject` that the materializer touches. */
  class Project {
    var layers: map<nat, Layer>
    var groups: seq<Group>
    var next: nat

    ghost function View(): Canvas
      reads this
    {
      Canvas(layers, groups, next)
    }

    constructor ()
      ensures View() == Canvas(map[], [], 0)
    {
      layers, groups, next := map[], [], 0;
    }

    method RemoveMapLayers(ids: set<nat>)
      modifies this
      ensures View() == DropLayers(old(View()), ids)
    {
      layers := layers - ids;
      groups := WithoutMembers(groups, ids);
    }

    method RemoveChildNode(node: nat)
      modifies this
      ensures View() == old(View()).(groups := DropNode(old(groups), node))
    {
      groups := DropNode(groups, node);
    }

    method AddMapLayer(layer: Layer) returns (id: nat)
      modifies this
      ensures id == old(next)
      ensures View() == old(View()).(layers := old(layers)[id := layer], next := id + 1)
    {
      id := next;
      layers, next := layers[id := layer], next + 1;
    }

    method SetName(id: nat, name: string)
      requires id in layers
      modifies this`layers
      ensures layers == old(layers)[id := old(layers)[id].(name := name)]
    {
      layers := layers[id := layers[id].(name := name)];
    }
  }

  // ---------------------------------------------------------------------------------------
  // Groups
  // ---------------------------------------------------------------------------------------

  lemma {:induction false} PrunedOfWhole(groups: seq<Group>)
    ensures Pruned(groups, {}, {}) == groups
  {
    if groups != [] {
      PrunedOfWhole(groups[1..]);
      assert groups[0].(members := groups[0].members - {}) == groups[0];
      assert groups == [groups[0]] + groups[1..];
    }
  }

  lemma Unfold(groups: seq<Group>, lost: set<nat>, gone: set<nat>)
    requires groups != []
    ensures var r, tail := Pruned(groups, lost, gone), Pruned(groups[1..], lost, gone);
            if groups[0].node in gone then r == tail
            else r != [] && r[0] == groups[0].(members := groups[0].members - lost) && r[1..] == tail
  {
  }

  lemma {:induction false} PrunedMore(groups: seq<Group>, lost: set<nat>, gone: set<nat>, ids: set<nat>)
    ensures WithoutMembers(Pruned(groups, lost, gone), ids) == Pruned(groups, lost + ids, gone)
  {
    if groups != [] {
      PrunedMore(groups[1..], lost, gone, ids);
      var g, tail := groups[0], Pruned(groups[1..], lost, gone);
      assert g.members - lost - ids == g.members - (lost + ids);
      Unfold(groups, lost, gone);
      Unfold(groups, lost + ids, gone);
    }
  }

  lemma {:induction false} PrunedNode(groups: seq<Group>, lost: set<nat>, gone: set<nat>, node: nat)
    ensures DropNode(Pruned(groups, lost, gone), node) == Pruned(groups, lost, gone + {node})
  {
    if groups != [] {
      PrunedNode(groups[1..], lost, gone, node);
      Unfold(groups, lost, gone);
      Unfold(groups, lost, gone + {node});
    }
  }

  lemma {:induction false} PrunedMembers(groups: seq<Group>, lost: set<nat>, gone: set<nat>, i: nat)
    requires i < |groups| && Distinct(groups) && groups[i].node !in gone
    ensures MembersOf(Pruned(groups, lost, gone), groups[i].node) == groups[i].members - lost
  {
    Unfold(groups, lost, gone);
    if i > 0 {
      assert groups[0].node != groups[i].node;
      PrunedMembers(groups[1..], lost, gone, i - 1);
    }
  }

  // ---------------------------------------------------------------------------------------
  // The materializer
  // ---------------------------------------------------------------------------------------

  class LayerMaterializer {
    const project: Project
    var addedIds: set<LayerId>
    var lastAdded: seq<nat>
    var groupName: Option<string>
    var caseId: Option<string>

    ghost function View(): State
      reads this, project
    {
      State(project.View(), addedIds, groupName, caseId, lastAdded)
    }

    constructor (p: Project)
      ensures project == p && View() == State(p.View(), {}, None, None, [])
    {
      project := p;
      addedIds, lastAdded, groupName, caseId := {}, [], None, None;
    }

    /** `_clear_stale_groups`: group by group, going on after each one that raises. */
    method ClearStaleGroups(case_: string, w: Weather)
      requires project.View().Valid()
      modifies project
      ensures project.View() == Clear(old(project.View()), case_, w)
    {
      if !w.treeReadable {
        return;
      }
      ghost var c := project.View();
      var groups := project.groups;
      ghost var lost, gone := {}, {};
      PrunedOfWhole(groups);
      assert c.layers - lost == c.layers;
      for i := 0 to |groups|
        invariant project.View() == Without(c, lost, gone)
        invariant lost == Lost(groups[..i], case_, w.removal)
        invariant gone == Gone(groups[..i], case_, w.removal)
      {
        GrowsByOne(groups, i, case_, w.removal);
        if Foreign(groups[i], case_) {
          var node := groups[i].node;
          if w.removal(node) != RaisesFirst {
            var ids := MembersOf(project.groups, node);
            PrunedMembers(groups, lost, gone, i);
            project.RemoveMapLayers(ids);
            PrunedMore(groups, lost, gone, ids);
            assert c.layers - lost - ids == c.layers - (lost + ids);
            lost := lost + ids;
          }
          if w.removal(node) == Clean {
            project.RemoveChildNode(node);
            PrunedNode(groups, lost, gone, node);
            gone := gone + {node};
          }
        }
      }
      assert groups[..|groups|] == groups;
    }

    /** `_adopt_existing_layers`. */
    method AdoptExistingLayers(w: Weather) returns (adopted: set<LayerId>)
      ensures adopted == Adopted(project.View(), w.layersReadable)
    {
      adopted := {};
      if !w.layersReadable {
        return;
      }
      var ids := Elements(project.layers.Keys);
      for i := 0 to |ids|
        invariant forall stamp: LayerId :: stamp in adopted <==>
                    exists id :: id in ids[..i] && id in project.layers && project.layers[id].stamp == Some(stamp)
      {
        assert ids[i] in ids;
        var stamp := project.layers[ids[i]].stamp;
        if stamp.Some? {
          adopted := adopted + {stamp.value};
        }
        assert ids[..i + 1] == ids[..i] + [ids[i]];
      }
      assert ids[..|ids|] == ids;
    }

    /** `set_case`. */
    method SetCase(case_: string, title: string, w: Weather)
      requires project.View().Valid()
      modifies this, project
      ensures View() == LayerSpec.SetCase(old(View()), case_, title, w)
    {
      groupName := Some(PREFIX + Label(case_, title));
      caseId := Some(case_);
      addedIds := {};
      lastAdded := [];
      ClearStaleGroups(case_, w);
      var adopted := AdoptExistingLayers(w);
      addedIds := addedIds + adopted;
    }

    /** `_ensure_group`, giving the index of the group. */
    method GroupForCase() returns (at: nat)
      modifies project
      ensures (project.View(), at) == EnsureGroup(old(project.View()), NameOf(old(View())), CaseTag(old(View())))
    {
      var name := if groupName.Some? && groupName.value != "" then groupName.value else "TRID3NT";
      var tagged := caseId.Some? && caseId.value != "";
      at := if tagged then GroupWithCase(project.groups, caseId.value) else |project.groups|;
      if at == |project.groups| {
        at := GroupNamed(project.groups, name);
      }
      if at == |project.groups| {
        project.groups := [Group(project.next, name, None, {})] + project.groups;
        project.next := project.next + 1;
        at := 0;
      }
      var group := project.groups[at];
      project.groups := project.groups[at := group.(caseOf := if tagged then caseId else group.caseOf)];
    }

    /** `_add_to_group`. */
    method AddLayer(event: LayerEvent, stamped: bool, placed: bool)
      modifies this, project
      ensures View() == AddToGroup(old(View()), event, stamped, placed)
    {
      hide GroupWithCase, GroupNamed;
      var id := project.AddMapLayer(Layer(if stamped then Some(event.layerId) else None, event.name));
      if placed {
        var at := GroupForCase();
        var group := project.groups[at];
        project.groups := project.groups[at := group.(members := group.members + {id})];
        lastAdded := lastAdded + [id];
      }
    }

    /** `_apply_name` on every layer that `_loaded` finds. */
    method RenameLoaded(event: LayerEvent)
      modifies project`layers
      ensures project.View() == Renamed(old(project.View()), event)
    {
      if event.name == "" {
        return;
      }
      ghost var was := project.layers;
      var loaded := set id | id in project.layers && project.layers[id].stamp == Some(event.layerId);
      var ids := Elements(loaded);
      for i := 0 to |ids|
        invariant project.layers.Keys == was.Keys
        invariant forall id :: id in was ==>
                    project.layers[id] == if id in ids[..i] then was[id].(name := event.name) else was[id]
      {
        assert ids[i] in ids && ids[i] in loaded;
        project.SetName(ids[i], event.name);
      }
      assert forall id :: id in was ==> (id in ids <==> was[id].stamp == Some(event.layerId));
      assert project.layers == Renamed(old(project.View()), event).layers;
    }

    /** One turn of the loop of `materialize`. */
    method HandleRow(row: Row) returns (noted: seq<LayerId>)
      modifies this, project
      ensures (View(), noted) == Handle(old(View()), row)
    {
      var event := row.event;
      if event.layerId in addedIds {
        RenameLoaded(event);
        return [];
      }
      if row.outcome.Lands? {
        AddLayer(event, row.outcome.stamped, row.outcome.placed);
      }
      addedIds := addedIds + {event.layerId};
      return [event.layerId];
    }

    /** `materialize`, giving the ids noted. */
    method Materialize(rows: seq<Row>) returns (noted: seq<LayerId>)
      modifies this, project
      ensures (View(), noted) == LayerSpec.Materialize(old(View()), rows)
    {
      hide Handle;
      noted := [];
      lastAdded := [];
      ghost var start := View();
      ResumedEnds(start, rows, []);
      assert rows[0..] == rows;
      for i := 0 to |rows|
        invariant HandleAll(start, rows) == Resumed(View(), rows[i..], noted)
      {
        HandleOnward(View(), rows[i..], noted);
        assert rows[i..][1..] == rows[i + 1..];
        var more := HandleRow(rows[i]);
        noted := noted + more;
      }
      assert rows[|rows|..] == [];
      ResumedEnds(View(), [], noted);
    }
  }

  lemma ResumedEnds(s: State, rows: seq<Row>, noted: seq<LayerId>)
    ensures Resumed(s, rows, []) == HandleAll(s, rows)
    ensures Resumed(s, [], noted) == (s, noted)
  {
    var (t, more) := HandleAll(s, rows);
    assert [] + more == more;
    assert noted + [] == noted;
  }

  /** The rest of a snapshot, after these notes. */
  ghost function Resumed(s: State, rows: seq<Row>, noted: seq<LayerId>): (State, seq<LayerId>)
  {
    (HandleAll(s, rows).0, noted + HandleAll(s, rows).1)
  }

  lemma HandleOnward(s: State, rows: seq<Row>, noted: seq<LayerId>)
    requires rows != []
    ensures Resumed(s, rows, noted) == Resumed(Handle(s, rows[0]).0, rows[1..], noted + Handle(s, rows[0]).1)
  {
    hide Handle;
    var (t, said) := Handle(s, rows[0]);
    var (u, more) := HandleAll(t, rows[1..]);
    assert HandleAll(s, rows) == (u, said + more);
    assert noted + (said + more) == noted + said + more;
  }

  lemma GrowsByOne(groups: seq<Group>, i: nat, caseId: string, removal: nat -> Removal)
    requires i < |groups| && Distinct(groups)
    ensures var g := groups[i];
            && groups[i].node !in Gone(groups[..i], caseId, removal)
            && Lost(groups[..i + 1], caseId, removal)
               == Lost(groups[..i], caseId, removal)
                  + (if Foreign(g, caseId) && removal(g.node) != RaisesFirst then g.members else {})
            && Gone(groups[..i + 1], caseId, removal)
               == Gone(groups[..i], caseId, removal)
                  + (if Foreign(g, caseId) && removal(g.node) == Clean then {g.node} else {})
  {
    hide Foreign;
    assert groups[..i + 1] == groups[..i] + [groups[i]];
  }
}
