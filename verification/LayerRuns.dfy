/** What holds of the layers of a project over every run of snapshots, case switches and user actions. */
module LayerRuns {
  import opened Wrappers
  import opened LayerSpec

  predicate SameStamp(a: Layer, b: Layer)
  {
    a.stamp.Some? && a.stamp == b.stamp
  }

  /** No id is stamped on two layers. */
  ghost predicate Unique(c: Canvas)
  {
    forall i, j :: i in c.layers && j in c.layers && SameStamp(c.layers[i], c.layers[j]) ==> i == j
  }

  /** Every stamp of the project is one the materializer has handled. */
  ghost predicate Tied(s: State)
  {
    forall id :: id in s.canvas.layers && s.canvas.layers[id].stamp.Some? ==> s.canvas.layers[id].stamp.value in s.added
  }

  /** What a user may do between two calls: delete layers, add their own, rename, regroup. */
  ghost predicate UserMay(c: Canvas, d: Canvas)
  {
    && d.Valid() && c.next <= d.next
    && forall id :: id in d.layers && d.layers[id].stamp.Some? ==>
         id in c.layers && d.layers[id].stamp == c.layers[id].stamp
  }

  datatype Step =
    | Bind(caseId: string, title: string, weather: Weather)
    | Snapshot(rows: seq<Row>)
    | User(canvas: Canvas)

  ghost predicate Allowed(s: State, step: Step)
  {
    step.User? ==> UserMay(s.canvas, step.canvas)
  }

  function Next(s: State, step: Step): State
  {
    match step
    case Bind(caseId, title, weather) => SetCase(s, caseId, title, weather)
    case Snapshot(rows) => Materialize(s, rows).0
    case User(canvas) => s.(canvas := canvas)
  }

  predicate Reads(step: Step)
  {
    step.Bind? ==> step.weather.layersReadable
  }

  /** A run from a state, each step allowed where it comes and every adoption able to read the project. */
  ghost predicate Run(s: State, steps: seq<Step>)
    decreases |steps|
  {
    steps == [] || (Allowed(s, steps[0]) && Reads(steps[0]) && Run(Next(s, steps[0]), steps[1..]))
  }

  function Final(s: State, steps: seq<Step>): State
    decreases |steps|
  {
    if steps == [] then s else Final(Next(s, steps[0]), steps[1..])
  }

  // ---------------------------------------------------------------------------------------
  // Clearing
  // ---------------------------------------------------------------------------------------

  /** Some foreign group holds the layer. */
  ghost predicate InForeign(c: Canvas, caseId: string, id: nat)
  {
    exists i :: 0 <= i < |c.groups| && Foreign(c.groups[i], caseId) && id in c.groups[i].members
  }

  lemma {:induction false} PrunedGroups(groups: seq<Group>, lost: set<nat>, gone: set<nat>)
    requires Distinct(groups)
    ensures Distinct(Pruned(groups, lost, gone))
    ensures forall g :: g in Pruned(groups, lost, gone) ==> PrunedFrom(g, groups, lost, gone)
  {
    if groups != [] {
      var rest, tail := groups[1..], Pruned(groups[1..], lost, gone);
      PrunedGroups(rest, lost, gone);
      forall g | g in tail
        ensures PrunedFrom(g, groups, lost, gone) && g.node != groups[0].node
      {
        var k :| 0 <= k < |rest| && rest[k].node !in gone && g == rest[k].(members := rest[k].members - lost);
        assert rest[k] == groups[k + 1];
      }
      var first := groups[0].(members := groups[0].members - lost);
      if groups[0].node !in gone {
        assert PrunedFrom(first, groups, lost, gone);
      }
    }
  }

  /** The group is one of these, less its lost members. */
  ghost predicate PrunedFrom(g: Group, groups: seq<Group>, lost: set<nat>, gone: set<nat>)
  {
    exists k :: 0 <= k < |groups| && groups[k].node !in gone && g == groups[k].(members := groups[k].members - lost)
  }

  /** Binding a case takes away only layers of foreign groups, and leaves all others just as they were;
      where QGIS does not raise it takes away all of them, and their groups. */
  lemma ClearTakesForeignLayers(c: Canvas, caseId: string, w: Weather)
    requires c.Valid()
    ensures var d := Clear(c, caseId, w);
            && d.Valid() && d.next == c.next
            && d.layers.Keys <= c.layers.Keys
            && (forall id :: id in d.layers ==> d.layers[id] == c.layers[id])
            && (forall id :: id in c.layers && id !in d.layers ==> InForeign(c, caseId, id))
    ensures w.treeReadable && (forall node :: w.removal(node) == Clean) ==>
        var d := Clear(c, caseId, w);
        && (forall id :: id in c.layers ==> (id in d.layers <==> !InForeign(c, caseId, id)))
        && (forall i :: 0 <= i < |d.groups| ==> !Foreign(d.groups[i], caseId))
  {
    if w.treeReadable {
      var lost, gone := Lost(c.groups, caseId, w.removal), Gone(c.groups, caseId, w.removal);
      PrunedGroups(c.groups, lost, gone);
      var d := Clear(c, caseId, w);
      forall i | 0 <= i < |d.groups|
        ensures d.groups[i].members <= d.layers.Keys && d.groups[i].node < d.next
        ensures (forall node :: w.removal(node) == Clean) ==> !Foreign(d.groups[i], caseId)
      {
        assert d.groups[i] in d.groups;
        var k :| 0 <= k < |c.groups| && c.groups[k].node !in gone
                 && d.groups[i] == c.groups[k].(members := c.groups[k].members - lost);
      }
    }
  }

  /** How many of the first `i` groups are kept. */
  function Kept(groups: seq<Group>, gone: set<nat>, i: nat): nat
    requires i <= |groups|
  {
    if i == 0 then 0 else Kept(groups, gone, i - 1) + (if groups[i - 1].node in gone then 0 else 1)
  }

  lemma {:induction false} KeptLater(groups: seq<Group>, gone: set<nat>, i: nat)
    requires 0 < i <= |groups|
    ensures Kept(groups, gone, i) == (if groups[0].node in gone then 0 else 1) + Kept(groups[1..], gone, i - 1)
  {
    if i > 1 {
      KeptLater(groups, gone, i - 1);
    }
  }

  lemma {:induction false} PrunedAt(groups: seq<Group>, lost: set<nat>, gone: set<nat>, i: nat)
    requires i < |groups| && groups[i].node !in gone
    ensures var k := Kept(groups, gone, i);
            k < |Pruned(groups, lost, gone)|
            && Pruned(groups, lost, gone)[k] == groups[i].(members := groups[i].members - lost)
  {
    if i > 0 {
      KeptLater(groups, gone, i);
      PrunedAt(groups[1..], lost, gone, i - 1);
    }
  }

  lemma {:induction false} PrunedLength(groups: seq<Group>, lost: set<nat>, gone: set<nat>)
    ensures |Pruned(groups, lost, gone)| == Kept(groups, gone, |groups|)
  {
    if groups != [] {
      KeptLater(groups, gone, |groups|);
      PrunedLength(groups[1..], lost, gone);
    }
  }

  /** Whatever QGIS does, short of not showing its tree: a layer goes exactly where it was in a foreign group whose
      removal got that far; a group goes exactly where it is foreign and its removal got to the end; and the
      groups left keep their order and the layers left their groups. */
  lemma ClearIsExact(c: Canvas, caseId: string, w: Weather)
    requires c.Valid() && w.treeReadable
    ensures var d := Clear(c, caseId, w);
            var gone := set i | 0 <= i < |c.groups| && Foreign(c.groups[i], caseId)
                                && w.removal(c.groups[i].node).Clean? :: c.groups[i].node;
            && (forall id :: id in c.layers ==>
                  (id !in d.layers <==> exists i :: 0 <= i < |c.groups| && Foreign(c.groups[i], caseId)
                                                   && !w.removal(c.groups[i].node).RaisesFirst?
                                                   && id in c.groups[i].members))
            && |d.groups| == Kept(c.groups, gone, |c.groups|)
            && (forall i :: 0 <= i < |c.groups| && c.groups[i].node !in gone ==>
                  var k := Kept(c.groups, gone, i);
                  k < |d.groups| && d.groups[k] == c.groups[i].(members := c.groups[i].members * d.layers.Keys))
  {
    var lost, gone := Lost(c.groups, caseId, w.removal), Gone(c.groups, caseId, w.removal);
    var d := Clear(c, caseId, w);
    assert gone == set i | 0 <= i < |c.groups| && Foreign(c.groups[i], caseId)
                           && w.removal(c.groups[i].node).Clean? :: c.groups[i].node;
    PrunedLength(c.groups, lost, gone);
    forall i | 0 <= i < |c.groups| && c.groups[i].node !in gone
      ensures var k := Kept(c.groups, gone, i);
              k < |d.groups| && d.groups[k] == c.groups[i].(members := c.groups[i].members * d.layers.Keys)
    {
      PrunedAt(c.groups, lost, gone, i);
      assert c.groups[i].members - lost == c.groups[i].members * d.layers.Keys;
    }
  }

  // ---------------------------------------------------------------------------------------
  // One row
  // ---------------------------------------------------------------------------------------

  lemma BindKeeps(s: State, caseId: string, title: string, w: Weather)
    requires s.canvas.Valid() && Unique(s.canvas)
    ensures var t := SetCase(s, caseId, title, w);
            && t.canvas.Valid() && Unique(t.canvas)
            && (Tied(t) <==> w.layersReadable || Stamps(t.canvas) == {})
            && t.added <= Stamps(t.canvas)
  {
    ClearTakesForeignLayers(s.canvas, caseId, w);
    var t := SetCase(s, caseId, title, w);
    assert forall id :: id in t.canvas.layers && t.canvas.layers[id].stamp.Some? ==>
      t.canvas.layers[id].stamp.value in Stamps(t.canvas);
  }

  /** Rows leave every layer where it is, with its stamp. */
  ghost predicate Grows(c: Canvas, d: Canvas)
  {
    && c.next <= d.next
    && (forall id :: id in c.layers ==> id in d.layers && d.layers[id].stamp == c.layers[id].stamp)
    && (forall id :: id in d.layers && id !in c.layers ==> c.next <= id < d.next)
  }

  lemma PlaceKeeps(s: State, event: LayerEvent, stamped: bool, placed: bool)
    requires s.canvas.Valid()
    ensures var t := AddToGroup(s, event, stamped, placed);
            && t.canvas.Valid() && Grows(s.canvas, t.canvas)
            && t.added == s.added
            && t.canvas.layers
               == s.canvas.layers[s.canvas.next := Layer(if stamped then Some(event.layerId) else None, event.name)]
  {
    hide GroupWithCase, GroupNamed;
  }

  lemma RowKeeps(s: State, row: Row)
    requires s.canvas.Valid() && Unique(s.canvas) && Tied(s)
    ensures var (t, noted) := Handle(s, row);
            && t.canvas.Valid() && Unique(t.canvas) && Tied(t) && Grows(s.canvas, t.canvas)
            && t.added == s.added + {row.event.layerId}
            && noted == (if row.event.layerId in s.added then [] else [row.event.layerId])
  {
    hide AddToGroup;
    if row.event.layerId !in s.added && row.outcome.Lands? {
      PlaceKeeps(s, row.event, row.outcome.stamped, row.outcome.placed);
    }
  }

  /** The ids of a snapshot. */
  function Ids(rows: seq<Row>): set<LayerId>
  {
    set row | row in rows :: row.event.layerId
  }

  lemma {:induction false} RowsKeep(s: State, rows: seq<Row>)
    requires s.canvas.Valid() && Unique(s.canvas) && Tied(s)
    ensures var (t, noted) := HandleAll(s, rows);
            && t.canvas.Valid() && Unique(t.canvas) && Tied(t) && Grows(s.canvas, t.canvas)
            && t.added == s.added + Ids(rows)
            && (forall id :: id in noted <==> id in Ids(rows) && id !in s.added)
            && (forall i, j :: 0 <= i < j < |noted| ==> noted[i] != noted[j])
    decreases |rows|
  {
    hide Unique, Tied, Handle;
    if rows != [] {
      RowKeeps(s, rows[0]);
      var (t, noted) := Handle(s, rows[0]);
      RowsKeep(t, rows[1..]);
      assert rows == [rows[0]] + rows[1..];
      assert Ids(rows) == {rows[0].event.layerId} + Ids(rows[1..]);
    }
  }

  // ---------------------------------------------------------------------------------------
  // Every run
  // ---------------------------------------------------------------------------------------

  lemma StepKeeps(s: State, step: Step)
    requires s.canvas.Valid() && Unique(s.canvas) && Tied(s) && Allowed(s, step) && Reads(step)
    ensures var t := Next(s, step); t.canvas.Valid() && Unique(t.canvas) && Tied(t)
  {
    match step
    case Bind(caseId, title, weather) => BindKeeps(s, caseId, title, weather);
    case Snapshot(rows) => RowsKeep(s.(last := []), rows);
    case User(canvas) =>
  }

  lemma {:induction false} RunKeeps(s: State, steps: seq<Step>)
    requires s.canvas.Valid() && Unique(s.canvas) && Tied(s) && Run(s, steps)
    ensures var t := Final(s, steps); t.canvas.Valid() && Unique(t.canvas) && Tied(t)
    decreases |steps|
  {
    if steps != [] {
      StepKeeps(s, steps[0]);
      RunKeeps(Next(s, steps[0]), steps[1..]);
    }
  }

  /** Once a case is bound, no run of snapshots, switches and user actions stamps an id on two layers, and
      every stamp stays among the ids handled. */
  lemma StampsStayUnique(s: State, caseId: string, title: string, w: Weather, steps: seq<Step>)
    requires s.canvas.Valid() && Unique(s.canvas) && w.layersReadable
    requires Run(SetCase(s, caseId, title, w), steps)
    ensures var t := Final(SetCase(s, caseId, title, w), steps); Unique(t.canvas) && Stamps(t.canvas) <= t.added
  {
    BindKeeps(s, caseId, title, w);
    RunKeeps(SetCase(s, caseId, title, w), steps);
  }

  // ---------------------------------------------------------------------------------------
  // Replay
  // ---------------------------------------------------------------------------------------

  lemma {:induction false} KnownRowsAddNothing(s: State, rows: seq<Row>)
    requires Ids(rows) <= s.added
    ensures var (t, noted) := HandleAll(s, rows);
            && noted == [] && t.added == s.added && t.last == s.last
            && t.canvas.layers.Keys == s.canvas.layers.Keys && t.canvas.groups == s.canvas.groups
            && (forall id :: id in s.canvas.layers ==> t.canvas.layers[id].stamp == s.canvas.layers[id].stamp)
    decreases |rows|
  {
    if rows != [] {
      assert rows[0] in rows && rows[0].event.layerId in Ids(rows);
      var (t, noted) := Handle(s, rows[0]);
      assert forall row :: row in rows[1..] ==> row in rows;
      KnownRowsAddNothing(t, rows[1..]);
    }
  }

  /** Replaying a snapshot, whatever its rows would come to by now and whatever the user did in between, adds
      no layer and notes nothing: what the user deleted stays deleted. */
  lemma ReplayAddsNothing(s: State, rows: seq<Row>, c: Canvas, again: seq<Row>)
    requires s.canvas.Valid() && Unique(s.canvas) && Tied(s)
    requires Ids(again) <= Ids(rows)
    ensures var before := Materialize(s, rows).0.(canvas := c);
            var (after, noted) := Materialize(before, again);
            && noted == [] && after.last == [] && after.added == before.added
            && after.canvas.layers.Keys == c.layers.Keys && after.canvas.groups == c.groups
            && (forall id :: id in c.layers ==> after.canvas.layers[id].stamp == c.layers[id].stamp)
  {
    RowsKeep(s.(last := []), rows);
    var before := Materialize(s, rows).0.(canvas := c);
    KnownRowsAddNothing(before.(last := []), again);
  }

  // ---------------------------------------------------------------------------------------
  // Where adoption fails
  // ---------------------------------------------------------------------------------------

  /** A binding that could not read the layers is harmless exactly when the project holds no stamped layer:
      else one row of the next snapshot is enough to stamp an id twice. */
  lemma UnreadAdoptionDuplicates(s: State, caseId: string, title: string, w: Weather)
    requires s.canvas.Valid() && Unique(s.canvas) && !w.layersReadable
    ensures var t := SetCase(s, caseId, title, w);
            (forall rows :: Unique(Materialize(t, rows).0.canvas)) <==> Stamps(t.canvas) == {}
  {
    BindKeeps(s, caseId, title, w);
    var t := SetCase(s, caseId, title, w);
    if Stamps(t.canvas) == {} {
      forall rows
        ensures Unique(Materialize(t, rows).0.canvas)
      {
        RowsKeep(t.(last := []), rows);
      }
    } else {
      var id :| id in t.canvas.layers && t.canvas.layers[id].stamp.Some?;
      var stamp := t.canvas.layers[id].stamp.value;
      var row := Row(LayerEvent(stamp, ""), Lands(true, true));
      OneRow(t, row);
      PlaceKeeps(t.(last := []), row.event, true, true);
      var c := Materialize(t, [row]).0.canvas;
      assert c.layers[id].stamp == c.layers[t.canvas.next].stamp == Some(stamp);
      assert !Unique(c);
    }
  }

  lemma OneRow(s: State, row: Row)
    requires row.event.layerId !in s.added && row.outcome.Lands?
    ensures Materialize(s, [row]).0.canvas
            == AddToGroup(s.(last := []), row.event, row.outcome.stamped, row.outcome.placed).canvas
  {
    assert [row][1..] == [] && [row][0] == row;
    var t := s.(last := []);
    assert HandleAll(t, [row]).0 == HandleAll(Handle(t, row).0, []).0 == Handle(t, row).0;
  }

  // ---------------------------------------------------------------------------------------
  // What is adopted
  // ---------------------------------------------------------------------------------------

  /** Some group of the case holds the layer. */
  ghost predicate InOwn(c: Canvas, caseId: string, id: nat)
  {
    exists i :: 0 <= i < |c.groups| && c.groups[i].caseOf == Some(caseId) && id in c.groups[i].members
  }

  /** The stamped layers that binding the case leaves in place. */
  ghost predicate Stays(c: Canvas, caseId: string, id: nat)
  {
    id in c.layers && c.layers[id].stamp.Some? && !InForeign(c, caseId, id)
  }

  /** The ids that the case's own groups hold. */
  ghost function HeldByCase(c: Canvas, caseId: string): set<LayerId>
  {
    set id | id in c.layers && Stays(c, caseId, id) && InOwn(c, caseId, id) :: c.layers[id].stamp.value
  }

  /** A stamped layer of no group the program would clear, whose id the case's own groups do not hold. */
  ghost predicate Stray(c: Canvas, caseId: string, id: nat)
  {
    Stays(c, caseId, id) && c.layers[id].stamp.value !in HeldByCase(c, caseId)
  }

  /** Where QGIS does not raise, the ids adopted are those that the case's own groups hold if and only if no
      stamped layer strays outside them. */
  lemma AdoptionIsTheCasesOwn(s: State, caseId: string, title: string, w: Weather)
    requires s.canvas.Valid() && w.treeReadable && w.layersReadable && forall node :: w.removal(node) == Clean
    ensures SetCase(s, caseId, title, w).added == HeldByCase(s.canvas, caseId)
       <==> forall id :: id in s.canvas.layers ==> !Stray(s.canvas, caseId, id)
  {
    hide InForeign, InOwn;
    var c, t := s.canvas, SetCase(s, caseId, title, w);
    ClearTakesForeignLayers(c, caseId, w);
    assert forall id :: id in c.layers && Stays(c, caseId, id) ==>
      id in t.canvas.layers && c.layers[id].stamp.value in Stamps(t.canvas);
    assert forall id :: id in t.canvas.layers && t.canvas.layers[id].stamp.Some? ==> Stays(c, caseId, id);
    if id :| id in c.layers && Stray(c, caseId, id) {
      assert c.layers[id].stamp.value in t.added;
    }
  }

  /** The layers that bear an id. */
  function StampedWith(c: Canvas, x: LayerId): set<nat>
  {
    set id | id in c.layers && c.layers[id].stamp == Some(x)
  }

  lemma RowBuildsNoKnownId(s: State, row: Row, x: LayerId)
    requires s.canvas.Valid() && x in s.added
    ensures var t := Handle(s, row).0;
            t.canvas.Valid() && x in t.added && StampedWith(t.canvas, x) <= StampedWith(s.canvas, x)
  {
    hide AddToGroup;
    if row.event.layerId !in s.added && row.outcome.Lands? {
      PlaceKeeps(s, row.event, row.outcome.stamped, row.outcome.placed);
    }
  }

  lemma {:induction false} RowsBuildNoKnownId(s: State, rows: seq<Row>, x: LayerId)
    requires s.canvas.Valid() && x in s.added
    ensures var t := HandleAll(s, rows).0;
            t.canvas.Valid() && x in t.added && StampedWith(t.canvas, x) <= StampedWith(s.canvas, x)
    decreases |rows|
  {
    hide Handle, StampedWith;
    if rows != [] {
      RowBuildsNoKnownId(s, rows[0], x);
      RowsBuildNoKnownId(Handle(s, rows[0]).0, rows[1..], x);
    }
  }

  /** Until another case is bound, no snapshot builds a layer for an id that was adopted. */
  lemma {:induction false} AdoptedIsNeverBuilt(s: State, steps: seq<Step>, x: LayerId)
    requires s.canvas.Valid() && x in s.added && Run(s, steps)
    requires forall i :: 0 <= i < |steps| ==> !steps[i].Bind?
    ensures x in Final(s, steps).added && StampedWith(Final(s, steps).canvas, x) <= StampedWith(s.canvas, x)
    decreases |steps|
  {
    if steps != [] {
      var t := Next(s, steps[0]);
      if steps[0].Snapshot? {
        RowsBuildNoKnownId(s.(last := []), steps[0].rows, x);
      }
      AdoptedIsNeverBuilt(t, steps[1..], x);
    }
  }

  /** So the case's own row is never built where a stray layer bears its id: after the binding only the stray
      layer can bear it, whatever snapshots come. */
  lemma StrayBlocksItsRow(s: State, caseId: string, title: string, w: Weather, id: nat, steps: seq<Step>)
    requires s.canvas.Valid() && Unique(s.canvas)
    requires w.treeReadable && w.layersReadable && forall node :: w.removal(node) == Clean
    requires id in s.canvas.layers && Stray(s.canvas, caseId, id)
    requires Run(SetCase(s, caseId, title, w), steps) && forall i :: 0 <= i < |steps| ==> !steps[i].Bind?
    ensures StampedWith(Final(SetCase(s, caseId, title, w), steps).canvas, s.canvas.layers[id].stamp.value) <= {id}
  {
    hide InForeign;
    var t, x := SetCase(s, caseId, title, w), s.canvas.layers[id].stamp.value;
    assert Stays(s.canvas, caseId, id);
    ClearTakesForeignLayers(s.canvas, caseId, w);
    assert x in Stamps(t.canvas);
    AdoptedIsNeverBuilt(t, steps, x);
  }
}
