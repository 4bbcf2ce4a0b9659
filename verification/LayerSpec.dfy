/** What `LayerMaterializer` (plugin/render/layers.py) does to a project, as a machine on values. What QGIS
    answers, and where it raises, is part of every step. */
module LayerSpec {
  import opened Wrappers

  /** Rows without an id are dropped when a snapshot is parsed. */
  type LayerId = s: string | s != "" witness "a"

  /** A map layer; `stamp` is its `trid3nt/layer_id`. */
  datatype Layer = Layer(stamp: Option<LayerId>, name: string)

  /** A top-level group of the layer tree and the layers below it. */
  datatype Group = Group(node: nat, name: string, caseOf: Option<string>, members: set<nat>)

  datatype Canvas = Canvas(layers: map<nat, Layer>, groups: seq<Group>, next: nat)
  {
    ghost predicate Valid()
    {
      && (forall id :: id in layers ==> id < next)
      && (forall i :: 0 <= i < |groups| ==> groups[i].members <= layers.Keys && groups[i].node < next)
      && Distinct(groups)
    }
  }

  ghost predicate Distinct(groups: seq<Group>)
  {
    forall i, j :: 0 <= i < j < |groups| ==> groups[i].node != groups[j].node
  }

  datatype State = State(
    canvas: Canvas,
    added: set<LayerId>,
    groupName: Option<string>,
    caseId: Option<string>,
    last: seq<nat>)

  const PREFIX: string := "TRID3NT "

  // ---------------------------------------------------------------------------------------
  // Binding to a case
  // ---------------------------------------------------------------------------------------

  /** A group of this program's making that is not the case's own. */
  predicate Foreign(g: Group, caseId: string)
  {
    PREFIX <= g.name && g.caseOf != Some(caseId)
  }

  /** How the removal of a group can end. */
  datatype Removal = Clean | RaisesFirst | RaisesLast

  /** What QGIS does while a case is bound: whether the tree can be read, how each group's removal ends, and
      whether the layers can be read. */
  datatype Weather = Weather(treeReadable: bool, removal: nat -> Removal, layersReadable: bool)

  /** The layers that go with the foreign groups, a group of whose removal nothing came excepted. */
  function Lost(groups: seq<Group>, caseId: string, removal: nat -> Removal): set<nat>
  {
    set i, id | 0 <= i < |groups| && Foreign(groups[i], caseId) && removal(groups[i].node) != RaisesFirst
                && id in groups[i].members :: id
  }

  function Gone(groups: seq<Group>, caseId: string, removal: nat -> Removal): set<nat>
  {
    set i | 0 <= i < |groups| && Foreign(groups[i], caseId) && removal(groups[i].node) == Clean :: groups[i].node
  }

  /** The groups left, without the layers lost. */
  function Pruned(groups: seq<Group>, lost: set<nat>, gone: set<nat>): seq<Group>
  {
    if groups == [] then []
    else
      (if groups[0].node in gone then [] else [groups[0].(members := groups[0].members - lost)])
      + Pruned(groups[1..], lost, gone)
  }

  function Without(c: Canvas, lost: set<nat>, gone: set<nat>): Canvas
  {
    c.(layers := c.layers - lost, groups := Pruned(c.groups, lost, gone))
  }

  /** `_clear_stale_groups`. */
  function Clear(c: Canvas, caseId: string, w: Weather): Canvas
  {
    if w.treeReadable then Without(c, Lost(c.groups, caseId, w.removal), Gone(c.groups, caseId, w.removal)) else c
  }

  function Stamps(c: Canvas): set<LayerId>
  {
    set id | id in c.layers && c.layers[id].stamp.Some? :: c.layers[id].stamp.value
  }

  /** `_adopt_existing_layers`: every stamped layer of the project. */
  function Adopted(c: Canvas, readable: bool): set<LayerId>
  {
    if readable then Stamps(c) else {}
  }

  function Label(caseId: string, title: string): string
  {
    if title != "" then title else if |caseId| > 8 then caseId[..8] else caseId
  }

  /** `set_case`. */
  function SetCase(s: State, caseId: string, title: string, w: Weather): State
  {
    var cleared := Clear(s.canvas, caseId, w);
    State(cleared, Adopted(cleared, w.layersReadable), Some(PREFIX + Label(caseId, title)), Some(caseId), [])
  }

  // ---------------------------------------------------------------------------------------
  // Snapshots
  // ---------------------------------------------------------------------------------------

  datatype LayerEvent = LayerEvent(layerId: LayerId, name: string)

  /** How a row fares: it is skipped with a note, something raises before its layer is in the project, or the
      layer lands, stamped or not, and is placed in the case's group or something raises before that. */
  datatype Outcome = Skipped | Fails | Lands(stamped: bool, placed: bool)

  datatype Row = Row(event: LayerEvent, outcome: Outcome)

  function CaseTag(s: State): Option<string>
  {
    if s.caseId == Some("") then None else s.caseId
  }

  function GroupWithCase(groups: seq<Group>, tag: string): (i: nat)
    ensures i <= |groups|
  {
    if groups == [] || groups[0].caseOf == Some(tag) then 0 else 1 + GroupWithCase(groups[1..], tag)
  }

  function GroupNamed(groups: seq<Group>, name: string): (i: nat)
    ensures i <= |groups|
  {
    if groups == [] || groups[0].name == name then 0 else 1 + GroupNamed(groups[1..], name)
  }

  /** `_ensure_group`: the case's own group, else one of its name, else a new one on top; the case's id is
      stamped on it. The index of the group is returned. */
  function EnsureGroup(c: Canvas, name: string, tag: Option<string>): (r: (Canvas, nat))
    ensures r.1 < |r.0.groups| && r.0.layers == c.layers
  {
    var own := if tag.Some? then GroupWithCase(c.groups, tag.value) else |c.groups|;
    var named := GroupNamed(c.groups, name);
    var found := if own < |c.groups| then own else named;
    var (d, at) :=
      if found < |c.groups| then (c, found)
      else (c.(groups := [Group(c.next, name, None, {})] + c.groups, next := c.next + 1), 0);
    var g := d.groups[at];
    (d.(groups := d.groups[at := g.(caseOf := if tag.Some? then tag else g.caseOf)]), at)
  }

  function NameOf(s: State): string
  {
    if s.groupName.Some? && s.groupName.value != "" then s.groupName.value else "TRID3NT"
  }

  /** `_add_to_group`. */
  function AddToGroup(s: State, event: LayerEvent, stamped: bool, placed: bool): State
  {
    var id := s.canvas.next;
    var stamp := if stamped then Some(event.layerId) else None;
    var c := s.canvas.(layers := s.canvas.layers[id := Layer(stamp, event.name)], next := id + 1);
    if placed then
      var (d, at) := EnsureGroup(c, NameOf(s), CaseTag(s));
      var g := d.groups[at];
      s.(canvas := d.(groups := d.groups[at := g.(members := g.members + {id})]), last := s.last + [id])
    else s.(canvas := c)
  }

  /** `_apply_name`, on every layer with the stamp. */
  function Renamed(c: Canvas, event: LayerEvent): Canvas
  {
    if event.name == "" then c
    else c.(layers := map id | id in c.layers ::
        if c.layers[id].stamp == Some(event.layerId) then c.layers[id].(name := event.name) else c.layers[id])
  }

  /** One row of a snapshot; the id noted, if one is. */
  function Handle(s: State, row: Row): (State, seq<LayerId>)
  {
    var event := row.event;
    if event.layerId in s.added then (s.(canvas := Renamed(s.canvas, event)), [])
    else
      var t := match row.outcome
        case Lands(stamped, placed) => AddToGroup(s, event, stamped, placed)
        case _ => s;
      (t.(added := s.added + {event.layerId}), [event.layerId])
  }

  function HandleAll(s: State, rows: seq<Row>): (State, seq<LayerId>)
    decreases |rows|
  {
    if rows == [] then (s, [])
    else
      var (t, noted) := Handle(s, rows[0]);
      var (u, more) := HandleAll(t, rows[1..]);
      (u, noted + more)
  }

  /** `materialize`. */
  function Materialize(s: State, rows: seq<Row>): (State, seq<LayerId>)
  {
    HandleAll(s.(last := []), rows)
  }
}
