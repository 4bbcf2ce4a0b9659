/** Where a layer lands, and what a snapshot makes of the names. */
module LayerPlaces {
  import opened Wrappers
  import opened LayerSpec
  import opened LayerRuns

  // ---------------------------------------------------------------------------------------
  // Where a layer lands
  // ---------------------------------------------------------------------------------------

  /** The group bears the id of the case. */
  predicate Own(g: Group, tag: Option<string>)
  {
    tag.Some? && g.caseOf == tag
  }

  /** The group that a layer of the case goes to: the first that bears the case's id; where none does, the
      first of its name; and where there is none of either, `i` is one past the last. */
  ghost predicate Target(groups: seq<Group>, tag: Option<string>, name: string, i: nat)
  {
    && i <= |groups|
    && if exists j :: 0 <= j < |groups| && Own(groups[j], tag)
       then i < |groups| && Own(groups[i], tag) && forall j :: 0 <= j < i ==> !Own(groups[j], tag)
       else (i < |groups| ==> groups[i].name == name) && forall j :: 0 <= j < i ==> groups[j].name != name
  }

  lemma {:induction false} FirstWithCase(groups: seq<Group>, tag: string)
    ensures var i := GroupWithCase(groups, tag);
            && (i < |groups| ==> groups[i].caseOf == Some(tag))
            && (forall j :: 0 <= j < i ==> groups[j].caseOf != Some(tag))
  {
    if groups != [] && groups[0].caseOf != Some(tag) {
      FirstWithCase(groups[1..], tag);
      assert forall j :: 0 < j < |groups| ==> groups[j] == groups[1..][j - 1];
    }
  }

  lemma {:induction false} FirstNamed(groups: seq<Group>, name: string)
    ensures var i := GroupNamed(groups, name);
            && (i < |groups| ==> groups[i].name == name)
            && (forall j :: 0 <= j < i ==> groups[j].name != name)
  {
    if groups != [] && groups[0].name != name {
      FirstNamed(groups[1..], name);
      assert forall j :: 0 < j < |groups| ==> groups[j] == groups[1..][j - 1];
    }
  }

  lemma FindsTarget(groups: seq<Group>, tag: Option<string>, name: string, i: nat)
    requires Target(groups, tag, name, i)
    ensures var own := if tag.Some? then GroupWithCase(groups, tag.value) else |groups|;
            i == if own < |groups| then own else GroupNamed(groups, name)
  {
    if tag.Some? {
      FirstWithCase(groups, tag.value);
    }
    FirstNamed(groups, name);
  }

  /** A layer that is placed is in the case's group and in no other: added to the group that is its target,
      which bears the case's id from then on, or alone in a new group on top. Nothing else of the tree moves,
      and it is the last of the layers added. */
  lemma LandsInItsGroup(s: State, event: LayerEvent, stamped: bool, i: nat)
    requires Target(s.canvas.groups, CaseTag(s), NameOf(s), i)
    ensures var groups, tag, id := s.canvas.groups, CaseTag(s), s.canvas.next;
            var t := AddToGroup(s, event, stamped, true);
            && t.last == s.last + [id]
            && t.canvas.layers
               == s.canvas.layers[id := Layer(if stamped then Some(event.layerId) else None, event.name)]
            && (i < |groups| ==>
                  t.canvas.groups
                  == groups[i := Group(groups[i].node, groups[i].name, if tag.Some? then tag else groups[i].caseOf,
                                       groups[i].members + {id})])
            && (i == |groups| ==> t.canvas.groups == [Group(id + 1, NameOf(s), tag, {id})] + groups)
  {
    hide GroupWithCase, GroupNamed;
    var groups, id := s.canvas.groups, s.canvas.next;
    FindsTarget(groups, CaseTag(s), NameOf(s), i);
    if i == |groups| {
      OnTop(Group(id + 1, NameOf(s), None, {}), Group(id + 1, NameOf(s), CaseTag(s), {}), groups);
      OnTop(Group(id + 1, NameOf(s), CaseTag(s), {}), Group(id + 1, NameOf(s), CaseTag(s), {id}), groups);
      assert {} + {id} == {id};
    }
  }

  lemma OnTop(g: Group, h: Group, groups: seq<Group>)
    ensures ([g] + groups)[0 := h] == [h] + groups
  {
  }

  /** A layer whose placing raised is in the project all the same, and in no group. */
  lemma StaysOutside(s: State, event: LayerEvent, stamped: bool)
    ensures var t := AddToGroup(s, event, stamped, false);
            && t.canvas.groups == s.canvas.groups && t.last == s.last
            && s.canvas.next in t.canvas.layers && t.canvas.layers[s.canvas.next].name == event.name
  {
  }

  /** A case's group is named after the title of the case, or the beginning of its id. */
  lemma GroupIsNamed(s: State, caseId: string, title: string, w: Weather)
    ensures var t := SetCase(s, caseId, title, w);
            && (title != "" ==> NameOf(t) == "TRID3NT " + title)
            && (title == "" ==> exists n: nat :: n <= |caseId| && (n == 8 || (n < 8 && n == |caseId|))
                                                && NameOf(t) == "TRID3NT " + caseId[..n])
            && (CaseTag(t) == if caseId == "" then None else Some(caseId))
  {
    if title == "" && |caseId| <= 8 {
      assert caseId[..|caseId|] == caseId;
    }
  }

  // ---------------------------------------------------------------------------------------
  // Names
  // ---------------------------------------------------------------------------------------

  /** The last name that the rows give to an id, if they give it one. */
  function LastName(rows: seq<Row>, id: LayerId, name: string): string
  {
    if rows == [] then name
    else
      var event := rows[|rows| - 1].event;
      if event.layerId == id && event.name != "" then event.name else LastName(rows[..|rows| - 1], id, name)
  }

  /** The name that a layer of the canvas has after the rows, where all stamps are handled. */
  function NameAfter(l: Layer, rows: seq<Row>): string
  {
    if l.stamp.Some? then LastName(rows, l.stamp.value, l.name) else l.name
  }

  lemma {:induction false} LastNameFirst(row: Row, rows: seq<Row>, id: LayerId, name: string)
    ensures var event := row.event;
            LastName([row] + rows, id, name)
            == LastName(rows, id, if event.layerId == id && event.name != "" then event.name else name)
  {
    var all := [row] + rows;
    if rows == [] {
      assert all[..0] == [];
    } else {
      assert all[..|all| - 1] == [row] + rows[..|rows| - 1];
      LastNameFirst(row, rows[..|rows| - 1], id, name);
    }
  }

  /** After a snapshot every layer that was there, and is known, has the last name that the snapshot gives to
      its id; the layers the program did not make keep theirs. */
  lemma {:induction false} SnapshotRenames(s: State, rows: seq<Row>, k: nat)
    requires s.canvas.Valid() && Tied(s) && k in s.canvas.layers
    ensures var (t, noted) := HandleAll(s, rows);
            && k in t.canvas.layers
            && t.canvas.layers[k] == Layer(s.canvas.layers[k].stamp, NameAfter(s.canvas.layers[k], rows))
    decreases |rows|
  {
    if rows != [] {
      hide EnsureGroup;
      var row := rows[0];
      var t := Handle(s, row).0;
      RowRenames(s, row, k);
      SnapshotRenames(t, rows[1..], k);
      var l := s.canvas.layers[k];
      if l.stamp.Some? {
        LastNameFirst(row, rows[1..], l.stamp.value, l.name);
        assert [row] + rows[1..] == rows;
      }
    }
  }

  lemma RowRenames(s: State, row: Row, k: nat)
    requires s.canvas.Valid() && Tied(s) && k in s.canvas.layers
    ensures var t, l := Handle(s, row).0, s.canvas.layers[k];
            var hit := l.stamp == Some(row.event.layerId) && row.event.name != "";
            && t.canvas.Valid() && Tied(t) && k in t.canvas.layers
            && t.canvas.layers[k] == Layer(l.stamp, if hit then row.event.name else l.name)
  {
    hide EnsureGroup;
    if row.event.layerId !in s.added && row.outcome.Lands? {
      PlaceKeeps(s, row.event, row.outcome.stamped, row.outcome.placed);
    }
  }
}
