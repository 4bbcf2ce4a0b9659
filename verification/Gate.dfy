/** From the state of a card to its reply (plugin/ui/gate.py), and the contract replies must keep. */
module Gate {
  import opened Wrappers
  import opened Names
  import opened BreakSeeding

  // The contract is that of contracts/trid3nt_contracts/payload_warning.py; `confirm_payload` is in
  // plugin/net/trid3nt_client.py.

  datatype Decision = Proceed | Cancel | NarrowScope

  datatype Value = Number(number: real) | Words(words: string)

  type Args = map<string, Value>

  /** `suggested` and the rungs are kept only where they are positive numbers. */
  datatype Granularity = Granularity(param: string, suggested: Option<real>, rungs: seq<real>)

  /** `param` is empty where the envelope names none. */
  datatype TimeScale = TimeScale(param: string, suggested: Option<real>)

  datatype Warning = Warning(
    id: string,
    options: seq<Decision>,
    granularity: Option<Granularity>,
    timeScale: Option<TimeScale>)

  // ---------------------------------------------------------------------------------------
  // The wire
  // ---------------------------------------------------------------------------------------

  datatype Confirmation = Confirmation(warningId: string, decision: Decision, revised: Option<Args>)

  /** `_validate_decision_consistency`. */
  predicate Consistent(c: Confirmation)
  {
    if c.decision.NarrowScope? then c.revised.Some? else c.revised.None?
  }

  /** `confirm_payload`: whatever a card hands over, what leaves passes the validator. */
  function ConfirmPayload(id: string, decision: Decision, revised: Option<Args>): (c: Confirmation)
    ensures Consistent(c) && c.warningId == id && c.decision == decision
    ensures decision.NarrowScope? && revised.Some? ==> c.revised == revised
  {
    if decision.NarrowScope? then Confirmation(id, decision, Some(if revised.Some? then revised.value else map[]))
    else Confirmation(id, decision, None)
  }

  // ---------------------------------------------------------------------------------------
  // The settings gate
  // ---------------------------------------------------------------------------------------

  /** `GateDecision`: no decision is a refusal. */
  datatype GateDecision = GateDecision(decision: Option<Decision>, revised: Option<Args>)

  /** The key an override of the duration goes under. */
  function DurationKey(ts: TimeScale): string
  {
    if ts.param != "" then ts.param else "duration_hr"
  }

  /** The resolution was moved off the one suggested. */
  predicate ResolutionMoved(w: Warning, chosen: Option<real>)
  {
    && w.granularity.Some? && chosen.Some?
    && w.granularity.value.param != ""
    && w.granularity.value.suggested.Some? && w.granularity.value.suggested.value > 0.0
    && chosen.value > 0.0 && chosen != w.granularity.value.suggested
  }

  predicate DurationMoved(w: Warning, duration: Option<real>)
  {
    w.timeScale.Some? && duration.Some? && duration.value > 0.0 && duration != w.timeScale.value.suggested
  }

  /** The overrides that the state of the card amounts to. */
  function Overrides(w: Warning, chosen: Option<real>, duration: Option<real>): Args
  {
    var first: Args :=
      if ResolutionMoved(w, chosen) then map[w.granularity.value.param := Number(chosen.value)] else map[];
    if DurationMoved(w, duration) then first[DurationKey(w.timeScale.value) := Number(duration.value)] else first
  }

  /** `resolve_gate_decision`. */
  function Resolve(w: Warning, cancel: bool, chosen: Option<real>, duration: Option<real>): GateDecision
  {
    var revised := Overrides(w, chosen, duration);
    if cancel then GateDecision(Some(Cancel), None)
    else if revised != map[] then
      if NarrowScope in w.options then GateDecision(Some(NarrowScope), Some(revised)) else GateDecision(None, None)
    else if Proceed in w.options then GateDecision(Some(Proceed), None)
    else GateDecision(None, None)
  }

  /** `_edited_float`. */
  function EditedFloat(text: string, float: string -> Option<real>): Option<real>
  {
    match float(text)
    case Some(x) => if x > 0.0 then Some(x) else None
    case None => None
  }

  /** What the resolution box stands at before anybody touches it. */
  function OpeningResolution(w: Warning): Option<real>
  {
    if w.granularity.Some? then w.granularity.value.suggested else None
  }

  /** What the duration box reads before anybody touches it: the suggestion, as far as it is shown. */
  function OpeningDuration(w: Warning, shown: real -> string, float: string -> Option<real>): Option<real>
  {
    if w.timeScale.None? then None
    else
      var hours := w.timeScale.value.suggested;
      EditedFloat(shown(if hours.Some? then hours.value else 0.0), float)
  }

  /** Every move is among the overrides, with the value it was moved to, and nothing else; where both go under
      one key the duration has it. */
  lemma OverridesAreTheMoves(w: Warning, chosen: Option<real>, duration: Option<real>, key: string)
    ensures var revised := Overrides(w, chosen, duration);
            var hours := DurationMoved(w, duration)
                         && key == (if w.timeScale.value.param == "" then "duration_hr" else w.timeScale.value.param);
            var rung := ResolutionMoved(w, chosen) && key == w.granularity.value.param;
            && (key in revised <==> hours || rung)
            && (hours ==> revised[key] == Number(duration.value))
            && (rung && !hours ==> revised[key] == Number(chosen.value))
  {
  }

  /** The envelope names this key itself. */
  predicate Named(w: Warning, key: string)
  {
    || (w.granularity.Some? && key == w.granularity.value.param && key != "")
    || (w.timeScale.Some? && key == w.timeScale.value.param && key != "")
  }

  /** Overrides come exactly of a move, and narrow exactly what the warning lets be narrowed: a decision other
      than cancel is always one on offer, and it is `proceed` exactly when nothing moved. */
  lemma ResolveIsOnOffer(w: Warning, chosen: Option<real>, duration: Option<real>)
    ensures var d := Resolve(w, false, chosen, duration);
            var moved := ResolutionMoved(w, chosen) || DurationMoved(w, duration);
            && d.decision != Some(Cancel)
            && (d.decision.Some? <==> (if moved then NarrowScope else Proceed) in w.options)
            && (d.decision == Some(NarrowScope) <==> moved && NarrowScope in w.options)
            && (d.revised.Some? <==> d.decision == Some(NarrowScope))
            && (d.revised.Some? ==> d.revised.value != map[])
  {
    var revised := Overrides(w, chosen, duration);
    if DurationMoved(w, duration) {
      assert DurationKey(w.timeScale.value) in revised;
    } else if ResolutionMoved(w, chosen) {
      assert w.granularity.value.param in revised;
    }
  }

  /** The overrides bear the envelope's own keys, whatever the card's state, exactly when a time scale names the
      key of its duration, or the resolution happens to go under the one it falls back to. */
  lemma KeysAreNamed(w: Warning)
    ensures (forall chosen, duration, key :: key in Overrides(w, chosen, duration) ==> Named(w, key))
       <==> || w.timeScale.None? || w.timeScale.value.param != ""
            || (w.granularity.Some? && w.granularity.value.param == "duration_hr")
  {
    if w.timeScale.Some? && !Named(w, DurationKey(w.timeScale.value)) {
      var hours := if w.timeScale.value.suggested == Some(1.0) then 2.0 else 1.0;
      assert DurationMoved(w, Some(hours));
      assert DurationKey(w.timeScale.value) in Overrides(w, None, Some(hours));
    }
  }

  // ---------------------------------------------------------------------------------------
  // The parameter sheet
  // ---------------------------------------------------------------------------------------

  /** A row of a sheet; `options` are the values it accepts, where it is a list of them, and `numeric` says
      that it holds a number or has bounds. */
  datatype ParamRow = ParamRow(
    name: string, value: Option<string>, display: string,
    options: Option<seq<string>>, editable: bool, secret: bool, numeric: bool)

  /** `s.strip()`. */
  function Trim(s: string): string
  {
    TrimEnd(TrimStart(s))
  }

  function TrimStart(s: string): string
  {
    if s != "" && Space(s[0]) then TrimStart(s[1..]) else s
  }

  function TrimEnd(s: string): string
  {
    if s != "" && Space(s[|s| - 1]) then TrimEnd(s[..|s| - 1]) else s
  }

  /** Nothing but white space is cut off, and all of it at both ends. */
  lemma TrimIs(s: string) returns (before: string, after: string)
    ensures s == before + Trim(s) + after
    ensures forall c :: c in before + after ==> Space(c)
    ensures Trim(s) != "" ==> !Space(Trim(s)[0]) && !Space(Trim(s)[|Trim(s)| - 1])
  {
    before := TrimStartIs(s);
    after := TrimEndIs(TrimStart(s));
    assert s == before + (TrimEnd(TrimStart(s)) + after);
  }

  lemma {:induction false} TrimStartIs(s: string) returns (before: string)
    ensures s == before + TrimStart(s)
    ensures forall c :: c in before ==> Space(c)
    ensures TrimStart(s) != "" ==> !Space(TrimStart(s)[0])
  {
    before := "";
    if s != "" && Space(s[0]) {
      var more := TrimStartIs(s[1..]);
      before := [s[0]] + more;
    }
  }

  lemma {:induction false} TrimEndIs(s: string) returns (after: string)
    ensures s == TrimEnd(s) + after
    ensures forall c :: c in after ==> Space(c)
    ensures TrimEnd(s) != "" ==> !Space(TrimEnd(s)[|TrimEnd(s)| - 1]) && s != "" && TrimEnd(s)[0] == s[0]
    decreases |s|
  {
    after := "";
    if s != "" && Space(s[|s| - 1]) {
      var more := TrimEndIs(s[..|s| - 1]);
      after := more + [s[|s| - 1]];
    }
  }

  function Typed(text: Option<string>): string
  {
    if text.Some? then Trim(text.value) else ""
  }

  /** The new value that an editor's text gives its row, if the row moved. `float` reads a number. */
  function Moved(row: ParamRow, text: Option<string>, float: string -> Option<real>): Option<Value>
  {
    if !row.editable || row.secret then None
    else if row.options.Some? then
      if text != row.value && text.Some? && text.value in row.options.value then Some(Words(text.value)) else None
    else
      var typed := Typed(text);
      if typed == Trim(row.display) then None
      else if row.numeric then
        match float(typed)
        case Some(x) => Some(Number(x))
        case None => None
      else if typed != "" then Some(Words(typed)) else None
  }

  /** The row that a name stands for: the last of that name. */
  function RowNamed(rows: seq<ParamRow>, name: string): Option<ParamRow>
  {
    if rows == [] then None
    else if rows[|rows| - 1].name == name then Some(rows[|rows| - 1])
    else RowNamed(rows[..|rows| - 1], name)
  }

  type Editors = map<string, Option<string>>

  function MovedAt(rows: seq<ParamRow>, edited: Editors, name: string, float: string -> Option<real>): Option<Value>
  {
    if name !in edited then None
    else
      match RowNamed(rows, name)
      case Some(row) => Moved(row, edited[name], float)
      case None => None
  }

  /** The sheet's edits: of every name just the move of its row. */
  function Revised(rows: seq<ParamRow>, edited: Editors, float: string -> Option<real>): (r: Args)
    ensures forall name :: name in r <==> MovedAt(rows, edited, name, float).Some?
    ensures forall name :: name in r ==> r[name] == MovedAt(rows, edited, name, float).value
  {
    map name | name in edited && MovedAt(rows, edited, name, float).Some? :: MovedAt(rows, edited, name, float).value
  }

  /** `by_name`. */
  method ByName(rows: seq<ParamRow>) returns (byName: map<string, ParamRow>)
    ensures forall name :: name in byName <==> RowNamed(rows, name).Some?
    ensures forall name :: name in byName ==> RowNamed(rows, name) == Some(byName[name])
  {
    byName := map[];
    for i := 0 to |rows|
      invariant forall name :: name in byName <==> RowNamed(rows[..i], name).Some?
      invariant forall name :: name in byName ==> RowNamed(rows[..i], name) == Some(byName[name])
    {
      byName := byName[rows[i].name := rows[i]];
      assert rows[..i + 1][..i] == rows[..i];
    }
    assert rows[..|rows|] == rows;
  }

  /** `resolve_param_sheet_edits`. */
  method ResolveParamSheetEdits(rows: seq<ParamRow>, edited: Editors, float: string -> Option<real>)
    returns (revised: Args)
    ensures revised == Revised(rows, edited, float)
  {
    hide Typed, Trim;
    var byName := ByName(rows);
    var names := Elements(edited.Keys);
    revised := map[];
    for i := 0 to |names|
      invariant forall name :: name in revised <==> name in names[..i] && MovedAt(rows, edited, name, float).Some?
      invariant forall name :: name in revised ==> Some(revised[name]) == MovedAt(rows, edited, name, float)
    {
      var name := names[i];
      assert name in names;
      if name !in byName || !byName[name].editable || byName[name].secret {
        continue;
      }
      var row, text := byName[name], edited[name];
      if row.options.Some? {
        if text != row.value && text.Some? && text.value in row.options.value {
          revised := revised[name := Words(text.value)];
        }
        continue;
      }
      var typed := Typed(text);
      if typed == Trim(row.display) {
        continue;
      }
      if row.numeric {
        var number := float(typed);
        if number.None? {
          continue;
        }
        revised := revised[name := Number(number.value)];
      } else if typed != "" {
        revised := revised[name := Words(typed)];
      }
    }
    assert forall name :: name in edited <==> name in names;
  }

  /** No edit speaks for a secret or a locked row, and none for a row left as it was shown. */
  lemma EditsAreMoves(rows: seq<ParamRow>, edited: Editors, float: string -> Option<real>, name: string)
    requires name in Revised(rows, edited, float)
    ensures RowNamed(rows, name).Some? && name in edited
    ensures var row := RowNamed(rows, name).value;
            && row in rows && row.name == name && row.editable && !row.secret
            && (row.options.Some? ==> edited[name] != row.value)
            && (row.options.Some? ==> edited[name].Some? && edited[name].value in row.options.value)
            && (row.options.None? ==> Typed(edited[name]) != Trim(row.display))
  {
    RowIsOneOfThem(rows, name);
  }

  /** And every row that moved is sent, with the value chosen or typed: of a list the option chosen, of a number
      what `float` reads, and of any other row the text, trimmed. */
  lemma MovesAreSent(rows: seq<ParamRow>, edited: Editors, float: string -> Option<real>, i: nat)
    requires i < |rows| && rows[i].name in edited && rows[i].editable && !rows[i].secret
    requires forall j :: i < j < |rows| ==> rows[j].name != rows[i].name
    ensures var row, text := rows[i], edited[rows[i].name];
            var revised, typed := Revised(rows, edited, float), Typed(text);
            var sent := (if row.name in revised then Some(revised[row.name]) else None);
            && (row.options.Some? ==>
                  sent == if text.Some? && text != row.value && text.value in row.options.value
                          then Some(Words(text.value)) else None)
            && (row.options.None? && typed == Trim(row.display) ==> sent == None)
            && (row.options.None? && typed != Trim(row.display) && row.numeric ==>
                  sent == if float(typed).Some? then Some(Number(float(typed).value)) else None)
            && (row.options.None? && typed != Trim(row.display) && !row.numeric ==>
                  sent == if typed != "" then Some(Words(typed)) else None)
  {
    hide Trim;
    LastOfItsName(rows, i);
  }

  lemma {:induction false} LastOfItsName(rows: seq<ParamRow>, i: nat)
    requires i < |rows| && forall j :: i < j < |rows| ==> rows[j].name != rows[i].name
    ensures RowNamed(rows, rows[i].name) == Some(rows[i])
  {
    if i < |rows| - 1 {
      LastOfItsName(rows[..|rows| - 1], i);
    }
  }

  lemma {:induction false} RowIsOneOfThem(rows: seq<ParamRow>, name: string)
    requires RowNamed(rows, name).Some?
    ensures RowNamed(rows, name).value in rows && RowNamed(rows, name).value.name == name
  {
    if rows[|rows| - 1].name != name {
      RowIsOneOfThem(rows[..|rows| - 1], name);
    }
  }

  // ---------------------------------------------------------------------------------------
  // The picker
  // ---------------------------------------------------------------------------------------

  datatype ToolChoice = ToolChoice(requestId: string, tool: Option<string>, freeText: Option<string>)

  /** `resolve_tool_choice`. */
  function ResolveToolChoice(picked: Option<string>, freeText: Option<string>): (Option<string>, Option<string>)
  {
    if picked.Some? && picked.value != "" then (picked, None)
    else if freeText.Some? && Trim(freeText.value) != "" then (None, Some(Trim(freeText.value)))
    else (None, None)
  }
}
