/** The cards that ask the user (plugin/ui/cards.py) as machines over clicks, and what any run of clicks and
    edits can make them send. */
module CardSpec {
  import opened Wrappers
  import opened Gate

  /** What leaves a card: a confirmation, a choice of tool, or a key for the credential store. */
  datatype Sent = Confirmed(c: Confirmation) | Chose(t: ToolChoice) | Stored(name: string, key: string)

  /** Which radio of the picker is on. */
  datatype Radio = Nothing | Candidate(index: nat) | Free

  datatype Settings = Settings(warning: Warning, chosen: Option<real>, duration: Option<real>, decided: bool)

  datatype Form = Form(
    id: string, rows: seq<ParamRow>, float: string -> Option<real>, store: bool, editors: Editors, decided: bool)

  datatype Code = Code(id: string, decided: bool)

  datatype Picker = Picker(id: string, candidates: seq<string>, radio: Radio, freeText: string, decided: bool)
  {
    /** Candidates without a name are dropped when the request is parsed. */
    ghost predicate Valid()
    {
      forall i :: 0 <= i < |candidates| ==> candidates[i] != ""
    }
  }

  datatype Card =
    | GateCard(settings: Settings)
    | FormCard(form: Form)
    | CodeCard(code: Code)
    | PickerCard(picker: Picker)
  {
    predicate Decided()
    {
      match this
      case GateCard(s) => s.decided
      case FormCard(f) => f.decided
      case CodeCard(c) => c.decided
      case PickerCard(p) => p.decided
    }
  }

  /** What a user, or a turn that moves on, can do to a card. */
  datatype Click =
    | PickRung(rung: real)
    | EditDuration(hours: Option<real>)
    | EditRow(name: string, edit: Option<string>)
    | PickCandidate(index: nat)
    | PickFree
    | Type(text: string)
    | Accept
    | Refuse
    | Supersede

  // ---------------------------------------------------------------------------------------
  // One click
  // ---------------------------------------------------------------------------------------

  /** The rungs of the resolution box. */
  predicate Offered(w: Warning, rung: real)
  {
    w.granularity.Some? && w.granularity.value.suggested.Some?
    && (rung in w.granularity.value.rungs || Some(rung) == w.granularity.value.suggested)
  }

  /** `GateCard._commit`. */
  function Commit(card: Settings, d: GateDecision): (Settings, seq<Sent>)
    requires d.decision.Some?
  {
    if card.decided then (card, [])
    else (card.(decided := true), [Confirmed(ConfirmPayload(card.warning.id, d.decision.value, d.revised))])
  }

  function SettingsStep(card: Settings, click: Click): (Settings, seq<Sent>)
  {
    match click
    case PickRung(rung) => (if Offered(card.warning, rung) then card.(chosen := Some(rung)) else card, [])
    case EditDuration(hours) => (if card.warning.timeScale.Some? then card.(duration := hours) else card, [])
    case Accept =>
      var d := Resolve(card.warning, false, card.chosen, card.duration);
      if d.decision.None? then (card, []) else Commit(card, d)
    case Refuse => Commit(card, Resolve(card.warning, true, card.chosen, card.duration))
    case _ => (card, [])
  }

  /** `_store_keys`: the typed keys, each editor emptied as its key is read. */
  function KeysOf(rows: seq<ParamRow>, editors: Editors): (Editors, seq<Sent>)
    decreases |rows|
  {
    if rows == [] then (editors, [])
    else if !rows[0].secret || rows[0].name !in editors then KeysOf(rows[1..], editors)
    else
      var name := rows[0].name;
      var key := Typed(editors[name]);
      var (after, keys) := KeysOf(rows[1..], editors[name := Some("")]);
      (after, (if key != "" then [Stored(name, key)] else []) + keys)
  }

  function FormDecision(revised: Args): (Decision, Option<Args>)
  {
    if revised != map[] then (NarrowScope, Some(revised)) else (Proceed, None)
  }

  function FormStep(card: Form, click: Click): (Form, seq<Sent>)
  {
    match click
    case EditRow(name, text) =>
      (if name in card.editors then card.(editors := card.editors[name := text]) else card, [])
    case Accept =>
      if card.decided then (card, [])
      else
        var (decision, revised) := FormDecision(Revised(card.rows, card.editors, card.float));
        var (after, keys) := if card.store then KeysOf(card.rows, card.editors) else (card.editors, []);
        (card.(decided := true, editors := after), keys + [Confirmed(ConfirmPayload(card.id, decision, revised))])
    case Refuse =>
      if card.decided then (card, [])
      else (card.(decided := true), [Confirmed(ConfirmPayload(card.id, Cancel, None))])
    case _ => (card, [])
  }

  function CodeStep(card: Code, click: Click): (Code, seq<Sent>)
  {
    if card.decided then (card, [])
    else
      match click
      case Accept => (card.(decided := true), [Confirmed(ConfirmPayload(card.id, Proceed, None))])
      case Refuse => (card.(decided := true), [Confirmed(ConfirmPayload(card.id, Cancel, None))])
      case _ => (card, [])
  }

  function Picked(card: Picker): Option<string>
  {
    if card.radio.Candidate? && card.radio.index < |card.candidates| then Some(card.candidates[card.radio.index])
    else None
  }

  function Guidance(card: Picker): Option<string>
  {
    if card.radio.Free? then Some(card.freeText) else None
  }

  function Choose(card: Picker, picked: Option<string>, guidance: Option<string>): (Picker, seq<Sent>)
  {
    var (tool, text) := ResolveToolChoice(picked, guidance);
    (card.(decided := true), [Chose(ToolChoice(card.id, tool, text))])
  }

  /** `Refuse` is the button that leaves the choice to the agent. */
  function PickerStep(card: Picker, click: Click): (Picker, seq<Sent>)
  {
    match click
    case PickCandidate(i) => (if i < |card.candidates| then card.(radio := Candidate(i)) else card, [])
    case PickFree => (card.(radio := Free), [])
    case Type(text) => (card.(freeText := text, radio := if card.decided then card.radio else Free), [])
    case Accept =>
      if card.decided then (card, [])
      else if Picked(card).None? && Typed(Guidance(card)) == "" then (card, [])
      else Choose(card, Picked(card), Guidance(card))
    case Refuse => if card.decided then (card, []) else Choose(card, None, None)
    case Supersede => (card.(decided := true), [])
    case _ => (card, [])
  }

  function Step(card: Card, click: Click): (Card, seq<Sent>)
  {
    match card
    case GateCard(settings) => var (next, sent) := SettingsStep(settings, click); (GateCard(next), sent)
    case FormCard(form) => var (next, sent) := FormStep(form, click); (FormCard(next), sent)
    case CodeCard(code) => var (next, sent) := CodeStep(code, click); (CodeCard(next), sent)
    case PickerCard(picker) => var (next, sent) := PickerStep(picker, click); (PickerCard(next), sent)
  }

  function Run(card: Card, clicks: seq<Click>): (Card, seq<Sent>)
    decreases |clicks|
  {
    if clicks == [] then (card, [])
    else
      var (next, sent) := Step(card, clicks[0]);
      var (last, more) := Run(next, clicks[1..]);
      (last, sent + more)
  }

  // ---------------------------------------------------------------------------------------
  // At most one reply
  // ---------------------------------------------------------------------------------------

  predicate Reply(s: Sent)
  {
    !s.Stored?
  }

  /** Keys, if any, and then the one reply. */
  ghost predicate OneReply(sent: seq<Sent>)
  {
    sent != [] && forall i :: 0 <= i < |sent| ==> (Reply(sent[i]) <==> i == |sent| - 1)
  }

  lemma {:induction false} KeysAreNoReplies(rows: seq<ParamRow>, editors: Editors)
    ensures forall i :: 0 <= i < |KeysOf(rows, editors).1| ==> LawfulKey(rows, KeysOf(rows, editors).1[i])
    decreases |rows|
  {
    if rows != [] {
      if !rows[0].secret || rows[0].name !in editors {
        KeysAreNoReplies(rows[1..], editors);
      } else {
        var cleared := editors[rows[0].name := Some("")];
        KeysAreNoReplies(rows[1..], cleared);
        assert rows[0] in rows;
      }
    }
  }

  /** A key is stored under the name of a row that asks for one. */
  ghost predicate LawfulKey(rows: seq<ParamRow>, s: Sent)
  {
    s.Stored? && s.key != "" && exists row :: row in rows && row.secret && row.name == s.name
  }

  /** A click on a decided card sends nothing and leaves it decided; on an open one it sends nothing, or its
      one reply and with that decides. */
  lemma StepAnswersOnce(card: Card, click: Click)
    ensures var (next, sent) := Step(card, click);
            && (card.Decided() ==> sent == [] && next.Decided())
            && (sent != [] ==> OneReply(sent) && next.Decided())
            && (next.Decided() ==> card.Decided() || sent != [] || (card.PickerCard? && click == Supersede))
  {
    hide Revised, Resolve, ResolveToolChoice, Typed, Offered;
    if card.FormCard? {
      KeysAreNoReplies(card.form.rows, card.form.editors);
    }
  }

  /** However a card is clicked and edited, it sends at most one reply, after the keys it stores; a decided
      card sends nothing any more. */
  lemma {:induction false} AnsweredAtMostOnce(card: Card, clicks: seq<Click>)
    ensures var (last, sent) := Run(card, clicks);
            && (sent != [] ==> OneReply(sent) && last.Decided())
            && (card.Decided() ==> sent == [] && last.Decided())
    decreases |clicks|
  {
    if clicks != [] {
      StepAnswersOnce(card, clicks[0]);
      var (next, sent) := Step(card, clicks[0]);
      AnsweredAtMostOnce(next, clicks[1..]);
    }
  }

  /** A picker that was superseded unanswered never sends anything. */
  lemma {:induction false} SupersededSendsNone(card: Card, before: seq<Click>, after: seq<Click>)
    requires card.PickerCard? && Run(card, before).1 == []
    ensures Run(card, before + [Supersede] + after).1 == []
    decreases |before|
  {
    var clicks := before + [Supersede] + after;
    if before == [] {
      assert clicks[1..] == after;
      AnsweredAtMostOnce(Step(card, Supersede).0, after);
    } else {
      assert clicks[0] == before[0] && clicks[1..] == before[1..] + [Supersede] + after;
      SupersededSendsNone(Step(card, before[0]).0, before[1..], after);
    }
  }

  // ---------------------------------------------------------------------------------------
  // What a reply may say
  // ---------------------------------------------------------------------------------------

  /** An override of the settings gate: a rung on offer other than the one suggested, or a positive duration
      other than the one suggested, each under its key. */
  ghost predicate LawfulOverride(w: Warning, key: string, value: Value)
  {
    || (w.granularity.Some? && key == w.granularity.value.param && value.Number? && Offered(w, value.number)
        && Some(value.number) != w.granularity.value.suggested)
    || (w.timeScale.Some? && key == DurationKey(w.timeScale.value) && value.Number? && value.number > 0.0
        && Some(value.number) != w.timeScale.value.suggested)
  }

  ghost predicate LawfulOverrides(w: Warning, revised: Args)
  {
    revised != map[] && forall key :: key in revised ==> LawfulOverride(w, key, revised[key])
  }

  ghost predicate LawfulSettings(w: Warning, c: Confirmation)
  {
    && c.warningId == w.id
    && (c.decision == Cancel || c.decision in w.options)
    && (c.decision == NarrowScope ==> c.revised.Some? && LawfulOverrides(w, c.revised.value))
  }

  /** The edit of a row that may be edited, and that holds no key. */
  ghost predicate LawfulEdit(rows: seq<ParamRow>, name: string)
  {
    exists row :: row in rows && row.name == name && row.editable && !row.secret
  }

  ghost predicate LawfulEdits(rows: seq<ParamRow>, revised: Args)
  {
    revised != map[] && forall name :: name in revised ==> LawfulEdit(rows, name)
  }

  ghost predicate LawfulForm(card: Form, c: Confirmation)
  {
    && c.warningId == card.id
    && (c.decision == NarrowScope ==> c.revised.Some? && LawfulEdits(card.rows, c.revised.value))
  }

  /** A pick among the candidates, or some guidance, or neither. */
  ghost predicate LawfulChoice(card: Picker, t: ToolChoice)
  {
    && t.requestId == card.id
    && (t.tool.Some? ==> t.freeText.None? && t.tool.value in card.candidates)
    && (t.freeText.Some? ==> t.freeText.value != "")
  }

  ghost predicate Lawful(card: Card, s: Sent)
  {
    match s
    case Confirmed(c) => Consistent(c) && LawfulConfirmation(card, c)
    case Chose(t) => card.PickerCard? && LawfulChoice(card.picker, t)
    case Stored(_, _) => card.FormCard? && card.form.store && LawfulKey(card.form.rows, s)
  }

  ghost predicate LawfulConfirmation(card: Card, c: Confirmation)
  {
    match card
    case GateCard(settings) => LawfulSettings(settings.warning, c)
    case FormCard(form) => LawfulForm(form, c)
    case CodeCard(code) => c.warningId == code.id && c.decision != NarrowScope
    case PickerCard(_) => false
  }

  /** The card in another state. */
  ghost predicate SameCard(a: Card, b: Card)
  {
    match (a, b)
    case (GateCard(s), GateCard(t)) => s.warning == t.warning
    case (FormCard(f), FormCard(g)) => f.id == g.id && f.rows == g.rows && f.store == g.store
    case (CodeCard(c), CodeCard(d)) => c.id == d.id
    case (PickerCard(p), PickerCard(q)) => p.id == q.id && p.candidates == q.candidates
    case _ => false
  }

  /** The card's state is one that its boxes can show. */
  ghost predicate Shown(card: Card)
  {
    match card
    case GateCard(s) => s.chosen.Some? ==> Offered(s.warning, s.chosen.value)
    case PickerCard(p) => p.Valid()
    case _ => true
  }

  lemma SettingsLawful(card: Settings, click: Click)
    requires Shown(GateCard(card))
    ensures forall s :: s in SettingsStep(card, click).1 ==> Lawful(GateCard(card), s)
  {
    hide Offered;
    if click.Accept? {
      ResolveIsOnOffer(card.warning, card.chosen, card.duration);
      var d := Resolve(card.warning, false, card.chosen, card.duration);
      forall key | d.revised.Some? && key in d.revised.value
        ensures LawfulOverride(card.warning, key, d.revised.value[key])
      {
      }
    }
  }

  lemma FormLawful(card: Form, click: Click)
    ensures forall s :: s in FormStep(card, click).1 ==> Lawful(FormCard(card), s)
  {
    hide Revised, KeysOf;
    KeysAreNoReplies(card.rows, card.editors);
    var revised := Revised(card.rows, card.editors, card.float);
    forall name | name in revised
      ensures LawfulEdit(card.rows, name)
    {
      EditsAreMoves(card.rows, card.editors, card.float, name);
    }
  }

  lemma StepIsLawful(card: Card, click: Click)
    requires Shown(card)
    ensures var (next, sent) := Step(card, click);
            && Shown(next) && SameCard(card, next)
            && forall s :: s in sent ==> Lawful(card, s)
  {
    hide Offered, Lawful, Revised, Resolve, KeysOf, Trim;
    match card
    case GateCard(settings) => SettingsLawful(settings, click);
    case FormCard(form) => FormLawful(form, click);
    case CodeCard(code) => CodeLawful(code, click);
    case PickerCard(picker) => PickerLawful(picker, click);
  }

  lemma CodeLawful(card: Code, click: Click)
    ensures forall s :: s in CodeStep(card, click).1 ==> Lawful(CodeCard(card), s)
  {
  }

  lemma PickerLawful(card: Picker, click: Click)
    requires card.Valid()
    ensures forall s :: s in PickerStep(card, click).1 ==> Lawful(PickerCard(card), s)
  {
  }

  lemma LawIsStable(a: Card, b: Card, s: Sent)
    requires SameCard(a, b) && Lawful(b, s)
    ensures Lawful(a, s)
  {
  }

  /** Whatever is clicked and edited, everything a card sends keeps the wire's contract and the card's own:
      confirmations pass the validator, a settings gate answers what its warning offers and overrides only
      what was moved, a form revises only rows that may be edited and sends no key, and a picker never sends
      a pick and guidance together. */
  lemma {:induction false} EveryReplyIsLawful(card: Card, clicks: seq<Click>)
    requires Shown(card)
    ensures forall s :: s in Run(card, clicks).1 ==> Lawful(card, s)
    decreases |clicks|
  {
    hide Lawful, Shown, SameCard;
    if clicks != [] {
      StepIsLawful(card, clicks[0]);
      var (next, sent) := Step(card, clicks[0]);
      EveryReplyIsLawful(next, clicks[1..]);
      forall s | s in Run(next, clicks[1..]).1
        ensures Lawful(card, s)
      {
        LawIsStable(card, next, s);
      }
    }
  }

  // ---------------------------------------------------------------------------------------
  // A card's diary
  // ---------------------------------------------------------------------------------------

  /** What a card opened as, the clicks on it since, and what it sent on the way. */
  datatype Diary = Diary(first: Card, clicks: seq<Click>, said: seq<Sent>)
  {
    /** The card has come by these clicks to `now`. */
    ghost predicate Of(now: Card)
    {
      Shown(first) && !first.Decided() && Run(first, clicks) == (now, said)
    }

    /** At most one reply, after the keys stored, and all of it lawful. */
    ghost predicate Promise()
    {
      (said != [] ==> OneReply(said)) && forall s :: s in said ==> Lawful(first, s)
    }

    /** One more click on the card. */
    function Next(now: Card, click: Click): Diary
    {
      Diary(first, clicks + [click], said + Step(now, click).1)
    }
  }

  /** One click further: what was said since is on the wire, and all that was ever said keeps the promise. */
  ghost predicate Turned(was: Diary, now: Diary, card: Card, click: Click, before: seq<Sent>, wire: seq<Sent>)
  {
    && now.Of(card) && now.Promise()
    && now.first == was.first && now.clicks == was.clicks + [click]
    && was.said <= now.said && wire == before + now.said[|was.said|..]
  }

  lemma DiaryKeepsPromise(d: Diary, now: Card)
    requires d.Of(now)
    ensures d.Promise()
  {
    AnsweredAtMostOnce(d.first, d.clicks);
    EveryReplyIsLawful(d.first, d.clicks);
  }

  lemma {:induction false} RunOneMore(card: Card, clicks: seq<Click>, click: Click)
    ensures var (now, said) := Run(card, clicks);
            Run(card, clicks + [click]) == (Step(now, click).0, said + Step(now, click).1)
    decreases |clicks|
  {
    hide Step;
    var whole := clicks + [click];
    if clicks == [] {
      assert whole == [click] && [click][1..] == [];
      assert [] + Step(card, click).1 == Step(card, click).1 + [];
    } else {
      assert whole[0] == clicks[0] && whole[1..] == clicks[1..] + [click];
      var (next, sent) := Step(card, clicks[0]);
      RunOneMore(next, clicks[1..], click);
      var (now, more) := Run(next, clicks[1..]);
      assert sent + (more + Step(now, click).1) == sent + more + Step(now, click).1;
    }
  }

  /** A widget that did what the step says. */
  lemma DiaryGoesOn(d: Diary, was: Card, click: Click, now: Card, before: seq<Sent>, wire: seq<Sent>)
    requires d.Of(was)
    requires now == Step(was, click).0 && wire == before + Step(was, click).1
    ensures Turned(d, d.Next(was, click), now, click, before, wire)
  {
    hide Step;
    RunOneMore(d.first, d.clicks, click);
    DiaryKeepsPromise(d.Next(was, click), now);
  }

  // ---------------------------------------------------------------------------------------
  // Untouched settings
  // ---------------------------------------------------------------------------------------

  /** The settings gate as it opens. `shown` is the format of the duration box, which has six digits. */
  function Opening(w: Warning, shown: real -> string, float: string -> Option<real>): Settings
  {
    Settings(w, OpeningResolution(w), OpeningDuration(w, shown, float), false)
  }

  /** "An unchanged sheet is `proceed`" holds wherever `proceed` is on offer if and only if no duration is
      suggested, or the box, read back, gives the suggestion or nothing above zero. */
  lemma UntouchedProceeds(w: Warning, shown: real -> string, float: string -> Option<real>)
    requires Proceed in w.options && float(shown(0.0)) == Some(0.0)
    ensures Run(GateCard(Opening(w, shown, float)), [Accept]).1 == [Confirmed(Confirmation(w.id, Proceed, None))]
       <==> (|| w.timeScale.None? || w.timeScale.value.suggested.None?
             || OpeningDuration(w, shown, float) in {None, w.timeScale.value.suggested})
  {
    var card := Opening(w, shown, float);
    OneClick(GateCard(card), Accept);
    ResolveIsOnOffer(w, card.chosen, card.duration);
  }

  /** Otherwise the untouched card overrides the duration with what it shows, or cannot be accepted. */
  lemma UntouchedNarrows(w: Warning, shown: real -> string, float: string -> Option<real>)
    requires w.timeScale.Some? && w.timeScale.value.suggested.Some?
    requires OpeningDuration(w, shown, float) !in {None, w.timeScale.value.suggested}
    ensures Run(GateCard(Opening(w, shown, float)), [Accept]).1
         == if NarrowScope !in w.options then []
            else [Confirmed(Confirmation(w.id, NarrowScope, Some(ShownDuration(w, shown, float))))]
  {
    var card := Opening(w, shown, float);
    OneClick(GateCard(card), Accept);
    assert !ResolutionMoved(w, card.chosen) && DurationMoved(w, card.duration);
    assert Overrides(w, card.chosen, card.duration) == ShownDuration(w, shown, float);
    assert DurationKey(w.timeScale.value) in ShownDuration(w, shown, float);
  }

  function ShownDuration(w: Warning, shown: real -> string, float: string -> Option<real>): Args
    requires w.timeScale.Some? && OpeningDuration(w, shown, float).Some?
  {
    map[DurationKey(w.timeScale.value) := Number(OpeningDuration(w, shown, float).value)]
  }

  lemma OneClick(card: Card, click: Click)
    ensures Run(card, [click]) == Step(card, click)
  {
    assert [click][1..] == [];
    assert Step(card, click).1 + [] == Step(card, click).1;
  }

  // ---------------------------------------------------------------------------------------
  // Typed guidance
  // ---------------------------------------------------------------------------------------

  /** What is typed is what is sent, trimmed, and not the candidate that was picked before. */
  lemma TypedGuidanceIsSent(card: Card, text: string)
    requires card.PickerCard? && !card.Decided() && Trim(text) != ""
    ensures Run(card, [Type(text), Accept]).1 == [Chose(ToolChoice(card.picker.id, None, Some(Trim(text))))]
  {
    hide Trim;
    var typed := Step(card, Type(text)).0;
    assert [Type(text), Accept][1..] == [Accept] && [Accept][1..] == [];
    assert Run(typed, [Accept]).1 == Step(typed, Accept).1 + [];
  }
}
