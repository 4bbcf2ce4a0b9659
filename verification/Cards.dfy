/** The cards of plugin/ui/cards.py, each a widget that changes in place and talks to the wire. */
module Cards {
  import opened Wrappers
  import opened Gate
  import opened CardSpec

  // Every widget carries its diary: the card it opened as, the clicks since, and what it said on the wire.
  // Each method promises, over that whole diary, at most one reply and nothing unlawful.

  /** Everything the callbacks of the cards were given, in order. */
  class Wire {
    var sent: seq<Sent>

    constructor ()
      ensures sent == []
    {
      sent := [];
    }

    method Send(s: Sent)
      modifies this
      ensures sent == old(sent) + [s]
    {
      sent := sent + [s];
    }

    /** `confirm_payload`. */
    method Confirm(id: string, decision: Decision, revised: Option<Args>)
      modifies this
      ensures sent == old(sent) + [Confirmed(ConfirmPayload(id, decision, revised))]
    {
      var args := None;
      if decision == NarrowScope {
        args := Some(if revised.Some? then revised.value else map[]);
      }
      Send(Confirmed(Confirmation(id, decision, args)));
    }
  }

  class GateCardWidget {
    const warning: Warning
    const wire: Wire
    var chosen: Option<real>
    var duration: Option<real>
    var decided: Option<Decision>
    ghost var diary: Diary

    ghost function View(): Settings
      reads this
    {
      Settings(warning, chosen, duration, decided.Some?)
    }

    ghost predicate Valid()
      reads this
    {
      diary.Of(GateCard(View()))
    }

    /** The boxes start at what the warning suggests, the duration as far as its box shows it. */
    constructor (w: Warning, shown: real -> string, float: string -> Option<real>, to: Wire)
      ensures Valid() && View() == Opening(w, shown, float) && wire == to && diary.clicks == []
    {
      warning, wire, decided := w, to, None;
      chosen, duration := OpeningResolution(w), OpeningDuration(w, shown, float);
      diary := Diary(GateCard(Opening(w, shown, float)), [], []);
    }

    method PickRung(rung: real)
      requires Valid()
      modifies this
      ensures Turned(old(diary), diary, GateCard(View()), Click.PickRung(rung), old(wire.sent), wire.sent)
    {
      hide Turned, Diary.Of, CardSpec.Run;
      ghost var was := View();
      if Offered(warning, rung) {
        chosen := Some(rung);
      }
      DiaryGoesOn(diary, GateCard(was), Click.PickRung(rung), GateCard(View()), old(wire.sent), wire.sent);
      diary := diary.Next(GateCard(was), Click.PickRung(rung));
    }

    method EditDuration(hours: Option<real>)
      requires Valid()
      modifies this
      ensures Turned(old(diary), diary, GateCard(View()), Click.EditDuration(hours), old(wire.sent), wire.sent)
    {
      hide Turned, Diary.Of, CardSpec.Run;
      ghost var was := View();
      if warning.timeScale.Some? {
        duration := hours;
      }
      DiaryGoesOn(diary, GateCard(was), Click.EditDuration(hours), GateCard(View()), old(wire.sent), wire.sent);
      diary := diary.Next(GateCard(was), Click.EditDuration(hours));
    }

    /** `_proceed`. */
    method Proceed()
      requires Valid()
      modifies this, wire
      ensures Turned(old(diary), diary, GateCard(View()), Accept, old(wire.sent), wire.sent)
    {
      hide Turned, Diary.Of, CardSpec.Run;
      ghost var was := View();
      var d := Resolve(warning, false, chosen, duration);
      if d.decision.Some? {
        Commit(d);
      }
      DiaryGoesOn(diary, GateCard(was), Accept, GateCard(View()), old(wire.sent), wire.sent);
      diary := diary.Next(GateCard(was), Accept);
    }

    /** `_cancel`. */
    method Cancel()
      requires Valid()
      modifies this, wire
      ensures Turned(old(diary), diary, GateCard(View()), Refuse, old(wire.sent), wire.sent)
      ensures old(decided).None? ==>
                wire.sent == old(wire.sent) + [Confirmed(Confirmation(warning.id, Decision.Cancel, None))]
    {
      hide Turned, Diary.Of, CardSpec.Run;
      ghost var was := View();
      Commit(Resolve(warning, true, chosen, duration));
      DiaryGoesOn(diary, GateCard(was), Refuse, GateCard(View()), old(wire.sent), wire.sent);
      diary := diary.Next(GateCard(was), Refuse);
    }

    /** `_commit`: a gate is answered once. */
    method Commit(d: GateDecision)
      requires d.decision.Some?
      modifies this`decided, wire
      ensures View() == old(View()).(decided := true)
      ensures wire.sent == old(wire.sent) + CardSpec.Commit(old(View()), d).1
    {
      if decided.Some? {
        return;
      }
      decided := d.decision;
      wire.Confirm(warning.id, d.decision.value, d.revised);
    }
  }

  class CodeExecCard {
    const id: string
    const wire: Wire
    var decided: Option<Decision>
    ghost var diary: Diary

    ghost function View(): Code
      reads this
    {
      Code(id, decided.Some?)
    }

    ghost predicate Valid()
      reads this
    {
      diary.Of(CodeCard(View()))
    }

    constructor (id: string, to: Wire)
      ensures Valid() && this.id == id && wire == to && diary.clicks == []
    {
      this.id, wire, decided := id, to, None;
      diary := Diary(CodeCard(Code(id, false)), [], []);
    }

    /** `_run`. */
    method Run()
      requires Valid()
      modifies this, wire
      ensures Turned(old(diary), diary, CodeCard(View()), Accept, old(wire.sent), wire.sent)
      ensures old(decided).None? ==> wire.sent == old(wire.sent) + [Confirmed(Confirmation(id, Decision.Proceed, None))]
      ensures decided == if old(decided).None? then Some(Decision.Proceed) else old(decided)
    {
      hide Turned, Diary.Of, CardSpec.Run;
      ghost var was := View();
      Commit(Decision.Proceed);
      DiaryGoesOn(diary, CodeCard(was), Accept, CodeCard(View()), old(wire.sent), wire.sent);
      diary := diary.Next(CodeCard(was), Accept);
    }

    /** `_deny`. */
    method Deny()
      requires Valid()
      modifies this, wire
      ensures Turned(old(diary), diary, CodeCard(View()), Refuse, old(wire.sent), wire.sent)
      ensures old(decided).None? ==> wire.sent == old(wire.sent) + [Confirmed(Confirmation(id, Decision.Cancel, None))]
      ensures decided == if old(decided).None? then Some(Decision.Cancel) else old(decided)
    {
      hide Turned, Diary.Of, CardSpec.Run;
      ghost var was := View();
      Commit(Decision.Cancel);
      DiaryGoesOn(diary, CodeCard(was), Refuse, CodeCard(View()), old(wire.sent), wire.sent);
      diary := diary.Next(CodeCard(was), Refuse);
    }

    /** `_commit`. */
    method Commit(decision: Decision)
      modifies this`decided, wire
      ensures decided == if old(decided).None? then Some(decision) else old(decided)
      ensures wire.sent == old(wire.sent)
                + if old(decided).Some? then [] else [Confirmed(ConfirmPayload(id, decision, None))]
    {
      if decided.Some? {
        return;
      }
      decided := Some(decision);
      wire.Confirm(id, decision, None);
    }
  }

  class FormCardWidget {
    const id: string
    const rows: seq<ParamRow>
    const float: string -> Option<real>
    const store: bool
    const wire: Wire
    var editors: Editors
    var decided: Option<Decision>
    ghost var diary: Diary

    ghost function View(): Form
      reads this
    {
      Form(id, rows, float, store, editors, decided.Some?)
    }

    ghost predicate Valid()
      reads this
    {
      diary.Of(FormCard(View()))
    }

    constructor (
      id: string, rows: seq<ParamRow>, float: string -> Option<real>, store: bool, editors: Editors, to: Wire)
      ensures Valid() && View() == Form(id, rows, float, store, editors, false) && wire == to
      ensures diary.clicks == []
    {
      this.id, this.rows, this.float, this.store, this.editors := id, rows, float, store, editors;
      wire, decided := to, None;
      diary := Diary(FormCard(Form(id, rows, float, store, editors, false)), [], []);
    }

    method EditRow(name: string, edit: Option<string>)
      requires Valid()
      modifies this
      ensures Turned(old(diary), diary, FormCard(View()), Click.EditRow(name, edit), old(wire.sent), wire.sent)
    {
      hide Turned, Diary.Of, CardSpec.Run;
      ghost var was := View();
      if name in editors {
        editors := editors[name := edit];
      }
      DiaryGoesOn(diary, FormCard(was), Click.EditRow(name, edit), FormCard(View()), old(wire.sent), wire.sent);
      diary := diary.Next(FormCard(was), Click.EditRow(name, edit));
    }

    /** `_submit`: the edits are read before the keys are taken out of their editors. */
    method Submit()
      requires Valid()
      modifies this, wire
      ensures Turned(old(diary), diary, FormCard(View()), Accept, old(wire.sent), wire.sent)
    {
      hide KeysOf, Revised, Turned, Diary.Of, CardSpec.Run;
      ghost var was := View();
      if decided.None? {
        var revised := ResolveParamSheetEdits(rows, editors, float);
        if store {
          StoreKeys();
        }
        if revised != map[] {
          decided := Some(NarrowScope);
          wire.Confirm(id, NarrowScope, Some(revised));
        } else {
          decided := Some(Decision.Proceed);
          wire.Confirm(id, Decision.Proceed, None);
        }
      }
      DiaryGoesOn(diary, FormCard(was), Accept, FormCard(View()), old(wire.sent), wire.sent);
      diary := diary.Next(FormCard(was), Accept);
    }

    /** `_store_keys`. */
    method StoreKeys()
      modifies this`editors, wire
      ensures var (after, keys) := KeysOf(rows, old(editors)); editors == after && wire.sent == old(wire.sent) + keys
    {
      for i := 0 to |rows|
        invariant var (after, keys) := KeysOf(rows, old(editors));
                  var (later, more) := KeysOf(rows[i..], editors);
                  after == later && old(wire.sent) + keys == wire.sent + more
      {
        assert rows[i..][1..] == rows[i + 1..];
        var name := rows[i].name;
        if !rows[i].secret || name !in editors {
          continue;
        }
        var key := Typed(editors[name]);
        editors := editors[name := Some("")];
        if key != "" {
          wire.Send(Stored(name, key));
        }
      }
    }

    /** `_cancel`. */
    method Cancel()
      requires Valid()
      modifies this, wire
      ensures Turned(old(diary), diary, FormCard(View()), Refuse, old(wire.sent), wire.sent)
      ensures old(decided).None? ==> wire.sent == old(wire.sent) + [Confirmed(Confirmation(id, Decision.Cancel, None))]
    {
      hide Turned, Diary.Of, CardSpec.Run;
      ghost var was := View();
      if decided.None? {
        decided := Some(Decision.Cancel);
        wire.Confirm(id, Decision.Cancel, None);
      }
      DiaryGoesOn(diary, FormCard(was), Refuse, FormCard(View()), old(wire.sent), wire.sent);
      diary := diary.Next(FormCard(was), Refuse);
    }
  }

  datatype Ending = Answered | Superseded

  class ToolCandidatesCard {
    const id: string
    const candidates: seq<string>
    const wire: Wire
    var radio: Radio
    var freeText: string
    var decided: Option<Ending>
    ghost var diary: Diary

    ghost function View(): Picker
      reads this
    {
      Picker(id, candidates, radio, freeText, decided.Some?)
    }

    ghost predicate Valid()
      reads this
    {
      diary.Of(PickerCard(View()))
    }

    constructor (id: string, candidates: seq<string>, to: Wire)
      requires forall i :: 0 <= i < |candidates| ==> candidates[i] != ""
      ensures Valid() && View() == Picker(id, candidates, Nothing, "", false) && wire == to
      ensures diary.clicks == []
    {
      this.id, this.candidates, wire := id, candidates, to;
      radio, freeText, decided := Nothing, "", None;
      diary := Diary(PickerCard(Picker(id, candidates, Nothing, "", false)), [], []);
    }

    method PickCandidate(i: nat)
      requires Valid()
      modifies this
      ensures Turned(old(diary), diary, PickerCard(View()), Click.PickCandidate(i), old(wire.sent), wire.sent)
    {
      hide Turned, Diary.Of, CardSpec.Run;
      ghost var was := View();
      if i < |candidates| {
        radio := Candidate(i);
      }
      DiaryGoesOn(diary, PickerCard(was), Click.PickCandidate(i), PickerCard(View()), old(wire.sent), wire.sent);
      diary := diary.Next(PickerCard(was), Click.PickCandidate(i));
    }

    method PickFree()
      requires Valid()
      modifies this
      ensures Turned(old(diary), diary, PickerCard(View()), Click.PickFree, old(wire.sent), wire.sent)
    {
      hide Turned, Diary.Of, CardSpec.Run;
      ghost var was := View();
      radio := Free;
      DiaryGoesOn(diary, PickerCard(was), Click.PickFree, PickerCard(View()), old(wire.sent), wire.sent);
      diary := diary.Next(PickerCard(was), Click.PickFree);
    }

    /** `_on_free_text_edited`: typing is choosing. */
    method TypeText(text: string)
      requires Valid()
      modifies this
      ensures Turned(old(diary), diary, PickerCard(View()), Type(text), old(wire.sent), wire.sent)
    {
      hide Turned, Diary.Of, CardSpec.Run;
      ghost var was := View();
      freeText := text;
      if decided.None? && radio != Free {
        radio := Free;
      }
      DiaryGoesOn(diary, PickerCard(was), Type(text), PickerCard(View()), old(wire.sent), wire.sent);
      diary := diary.Next(PickerCard(was), Type(text));
    }

    /** `_picked_tool`: the first radio that is on. */
    method PickedTool() returns (tool: Option<string>)
      ensures tool == Picked(View())
    {
      for i := 0 to |candidates|
        invariant radio.Candidate? ==> radio.index >= i
      {
        if radio == Candidate(i) {
          return Some(candidates[i]);
        }
      }
      return None;
    }

    /** `_confirm`: with nothing chosen it decides nothing. */
    method Confirm()
      requires Valid()
      modifies this, wire
      ensures Turned(old(diary), diary, PickerCard(View()), Accept, old(wire.sent), wire.sent)
    {
      hide Turned, Diary.Of, CardSpec.Run;
      ghost var was := View();
      if decided.None? {
        var picked := PickedTool();
        var text := if radio.Free? then Some(freeText) else None;
        if picked.Some? || Typed(text) != "" {
          var (tool, guidance) := ResolveToolChoice(picked, text);
          Commit(tool, guidance);
        }
      }
      DiaryGoesOn(diary, PickerCard(was), Accept, PickerCard(View()), old(wire.sent), wire.sent);
      diary := diary.Next(PickerCard(was), Accept);
    }

    /** `_let_agent_decide`. */
    method LetAgentDecide()
      requires Valid()
      modifies this, wire
      ensures Turned(old(diary), diary, PickerCard(View()), Refuse, old(wire.sent), wire.sent)
      ensures old(decided).None? ==> wire.sent == old(wire.sent) + [Chose(ToolChoice(id, None, None))]
    {
      hide Turned, Diary.Of, CardSpec.Run;
      ghost var was := View();
      if decided.None? {
        Commit(None, None);
      }
      DiaryGoesOn(diary, PickerCard(was), Refuse, PickerCard(View()), old(wire.sent), wire.sent);
      diary := diary.Next(PickerCard(was), Refuse);
    }

    method Commit(tool: Option<string>, guidance: Option<string>)
      modifies this`decided, wire
      ensures View() == old(View()).(decided := true)
      ensures wire.sent == old(wire.sent) + [Chose(ToolChoice(id, tool, guidance))]
    {
      decided := Some(Answered);
      wire.Send(Chose(ToolChoice(id, tool, guidance)));
    }

    /** `mark_superseded`: no reply. */
    method MarkSuperseded()
      requires Valid()
      modifies this
      ensures Turned(old(diary), diary, PickerCard(View()), Supersede, old(wire.sent), wire.sent)
    {
      hide Turned, Diary.Of, CardSpec.Run;
      ghost var was := View();
      if decided.None? {
        decided := Some(Superseded);
      }
      DiaryGoesOn(diary, PickerCard(was), Supersede, PickerCard(View()), old(wire.sent), wire.sent);
      diary := diary.Next(PickerCard(was), Supersede);
    }
  }
}
