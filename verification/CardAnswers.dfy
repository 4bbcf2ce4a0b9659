/** Which reply a card gives to which clicks. */
module CardAnswers {
  import opened Wrappers
  import opened Gate
  import opened CardSpec

  // Every run of clicks on an open card is a silent beginning, one click that sends the reply, and whatever
  // comes after it, to which nothing is sent any more. What the reply says depends on that one click and on
  // what the boxes held by then, which is what was put into each of them last.

  lemma {:induction false} RunConcat(card: Card, a: seq<Click>, b: seq<Click>)
    ensures var (now, said) := Run(card, a);
            Run(card, a + b) == (Run(now, b).0, said + Run(now, b).1)
    decreases |a|
  {
    hide Step;
    if a == [] {
      assert a + b == b;
      assert [] + Run(card, b).1 == Run(card, b).1;
    } else {
      assert (a + b)[0] == a[0] && (a + b)[1..] == a[1..] + b;
      var (next, sent) := Step(card, a[0]);
      RunConcat(next, a[1..], b);
      var (now, said) := Run(next, a[1..]);
      assert sent + (said + Run(now, b).1) == sent + said + Run(now, b).1;
    }
  }

  /** The card as the silent clicks `before` left it, and the reply to the click behind them. */
  lemma ReplyOf(card: Card, before: seq<Click>, click: Click, after: seq<Click>)
    requires Run(card, before).1 == []
    requires Step(Run(card, before).0, click).1 != []
    ensures Run(card, before + [click] + after).1 == Step(Run(card, before).0, click).1
  {
    hide Step;
    var now := Run(card, before).0;
    var (next, sent) := Step(now, click);
    StepAnswersOnce(now, click);
    AnsweredAtMostOnce(next, after);
    RunConcat(card, before, [click] + after);
    assert before + ([click] + after) == before + [click] + after;
    assert ([click] + after)[1..] == after;
    assert sent + [] == sent;
  }

  /** Behind every reply stands its one click. */
  lemma {:induction false} EveryReplyHasItsClick(card: Card, clicks: seq<Click>) returns (k: nat)
    requires Run(card, clicks).1 != []
    ensures k < |clicks| && Run(card, clicks[..k]).1 == []
    ensures Run(card, clicks).1 == Step(Run(card, clicks[..k]).0, clicks[k]).1
    decreases |clicks|
  {
    hide Step;
    var (next, sent) := Step(card, clicks[0]);
    if sent != [] {
      k := 0;
      StepAnswersOnce(card, clicks[0]);
      AnsweredAtMostOnce(next, clicks[1..]);
    } else {
      var later := EveryReplyHasItsClick(next, clicks[1..]);
      k := later + 1;
      assert clicks[..k] == [clicks[0]] + clicks[1..][..later];
      assert clicks[..k][1..] == clicks[1..][..later];
    }
  }

  // ---------------------------------------------------------------------------------------
  // Running code
  // ---------------------------------------------------------------------------------------

  /** The first click on one of the two buttons. */
  function FirstAnswer(clicks: seq<Click>): Option<Click>
  {
    if clicks == [] then None
    else if clicks[0] == Accept || clicks[0] == Refuse then Some(clicks[0])
    else FirstAnswer(clicks[1..])
  }

  function ButtonReply(id: string, answer: Option<Click>): seq<Sent>
  {
    match answer
    case Some(Accept) => [Confirmed(Confirmation(id, Proceed, None))]
    case Some(Refuse) => [Confirmed(Confirmation(id, Cancel, None))]
    case _ => []
  }

  /** The code runs if the button clicked first is Run, and is denied if it is Deny; with neither, nothing is
      said. */
  lemma {:induction false} CodeAnswers(card: Code, clicks: seq<Click>)
    requires !card.decided
    ensures Run(CodeCard(card), clicks).1 == ButtonReply(card.id, FirstAnswer(clicks))
    decreases |clicks|
  {
    if clicks != [] {
      var (next, sent) := Step(CodeCard(card), clicks[0]);
      if clicks[0] == Accept || clicks[0] == Refuse {
        AnsweredAtMostOnce(next, clicks[1..]);
      } else {
        CodeAnswers(card, clicks[1..]);
      }
    }
  }

  // ---------------------------------------------------------------------------------------
  // The settings gate
  // ---------------------------------------------------------------------------------------

  /** The resolution picked last, of those on offer. */
  function LastRung(w: Warning, chosen: Option<real>, clicks: seq<Click>): Option<real>
  {
    if clicks == [] then chosen
    else
      var last := clicks[|clicks| - 1];
      if last.PickRung? && Offered(w, last.rung) then Some(last.rung)
      else LastRung(w, chosen, clicks[..|clicks| - 1])
  }

  /** What the duration box was edited to last. */
  function LastHours(w: Warning, hours: Option<real>, clicks: seq<Click>): Option<real>
  {
    if clicks == [] then hours
    else
      var last := clicks[|clicks| - 1];
      if last.EditDuration? && w.timeScale.Some? then last.hours
      else LastHours(w, hours, clicks[..|clicks| - 1])
  }

  /** Until it answers, the gate holds what was chosen last, and is open. */
  lemma {:induction false} GateRemembers(card: Settings, before: seq<Click>)
    requires !card.decided && Run(GateCard(card), before).1 == []
    ensures var w := card.warning;
            Run(GateCard(card), before).0
            == GateCard(card.(chosen := LastRung(w, card.chosen, before),
                              duration := LastHours(w, card.duration, before)))
    decreases |before|
  {
    if before != [] {
      var init, last := before[..|before| - 1], before[|before| - 1];
      assert before == init + [last];
      RunConcat(GateCard(card), init, [last]);
      GateRemembers(card, init);
      var now := Run(GateCard(card), init).0;
      OneClick(now, last);
      StepAnswersOnce(now, last);
    }
  }

  /** Cancel cancels, whatever was chosen before. */
  lemma GateCancels(card: Settings, before: seq<Click>, after: seq<Click>)
    requires !card.decided && Run(GateCard(card), before).1 == []
    ensures Run(GateCard(card), before + [Refuse] + after).1
         == [Confirmed(Confirmation(card.warning.id, Cancel, None))]
  {
    GateRemembers(card, before);
    ReplyOf(GateCard(card), before, Refuse, after);
  }

  /** Proceed sends `narrow_scope` with what was moved off the suggestions last where that is on offer, and
      `proceed` where nothing was moved and that is on offer; and otherwise nothing. */
  lemma GateProceeds(card: Settings, before: seq<Click>, after: seq<Click>)
    requires !card.decided && Run(GateCard(card), before).1 == []
    ensures var w := card.warning;
            var chosen, hours := LastRung(w, card.chosen, before), LastHours(w, card.duration, before);
            var moved := ResolutionMoved(w, chosen) || DurationMoved(w, hours);
            var said := Run(GateCard(card), before + [Accept] + after).1;
            && (moved && NarrowScope in w.options ==>
                  said == [Confirmed(Confirmation(w.id, NarrowScope, Some(Overrides(w, chosen, hours))))])
            && (!moved && Proceed in w.options ==> said == [Confirmed(Confirmation(w.id, Proceed, None))])
            && ((if moved then NarrowScope else Proceed) !in w.options ==>
                  Run(GateCard(card), before + [Accept]).1 == [])
  {
    var w := card.warning;
    var chosen, hours := LastRung(w, card.chosen, before), LastHours(w, card.duration, before);
    var moved := ResolutionMoved(w, chosen) || DurationMoved(w, hours);
    GateRemembers(card, before);
    ResolveIsOnOffer(w, chosen, hours);
    hide ResolutionMoved, DurationMoved, Overrides, LastRung, LastHours;
    var now := Run(GateCard(card), before).0;
    if (if moved then NarrowScope else Proceed) in w.options {
      ReplyOf(GateCard(card), before, Accept, after);
    } else {
      RunConcat(GateCard(card), before, [Accept]);
      OneClick(now, Accept);
    }
  }

  // ---------------------------------------------------------------------------------------
  // The input form
  // ---------------------------------------------------------------------------------------

  /** What each editor was set to last. */
  function LastEdits(editors: Editors, clicks: seq<Click>): Editors
  {
    if clicks == [] then editors
    else
      var init, last := LastEdits(editors, clicks[..|clicks| - 1]), clicks[|clicks| - 1];
      if last.EditRow? && last.name in editors then init[last.name := last.edit] else init
  }

  lemma {:induction false} EditorsStay(editors: Editors, clicks: seq<Click>)
    ensures LastEdits(editors, clicks).Keys == editors.Keys
  {
    if clicks != [] {
      EditorsStay(editors, clicks[..|clicks| - 1]);
    }
  }

  lemma {:induction false} FormRemembers(card: Form, before: seq<Click>)
    requires !card.decided && Run(FormCard(card), before).1 == []
    ensures Run(FormCard(card), before).0 == FormCard(card.(editors := LastEdits(card.editors, before)))
    decreases |before|
  {
    hide Revised, KeysOf;
    if before != [] {
      var init, last := before[..|before| - 1], before[|before| - 1];
      assert before == init + [last];
      RunConcat(FormCard(card), init, [last]);
      FormRemembers(card, init);
      EditorsStay(card.editors, init);
      var now := Run(FormCard(card), init).0;
      OneClick(now, last);
      StepAnswersOnce(now, last);
    }
  }

  lemma FormCancels(card: Form, before: seq<Click>, after: seq<Click>)
    requires !card.decided && Run(FormCard(card), before).1 == []
    ensures Run(FormCard(card), before + [Refuse] + after).1 == [Confirmed(Confirmation(card.id, Cancel, None))]
  {
    hide Revised, KeysOf;
    FormRemembers(card, before);
    ReplyOf(FormCard(card), before, Refuse, after);
  }

  /** Submitting stores the keys typed last, where there is a store, and then revises the rows that moved, each
      to what its editor was set to last; with none moved it is an approval. */
  lemma FormSubmits(card: Form, before: seq<Click>, after: seq<Click>)
    requires !card.decided && Run(FormCard(card), before).1 == []
    ensures var editors := LastEdits(card.editors, before);
            var revised := Revised(card.rows, editors, card.float);
            var keys := if card.store then KeysOf(card.rows, editors).1 else [];
            Run(FormCard(card), before + [Accept] + after).1 ==
            keys + [Confirmed(if revised == map[] then Confirmation(card.id, Proceed, None)
                              else Confirmation(card.id, NarrowScope, Some(revised)))]
  {
    hide Revised, KeysOf;
    FormRemembers(card, before);
    ReplyOf(FormCard(card), before, Accept, after);
  }

  // ---------------------------------------------------------------------------------------
  // The picker
  // ---------------------------------------------------------------------------------------

  /** The radio that is on: that of the candidate or of the free text, whichever was picked or typed last. */
  function LastRadio(card: Picker, clicks: seq<Click>): Radio
  {
    if clicks == [] then card.radio
    else
      match clicks[|clicks| - 1]
      case PickCandidate(i) =>
        if i < |card.candidates| then Candidate(i) else LastRadio(card, clicks[..|clicks| - 1])
      case PickFree => Free
      case Type(_) => Free
      case _ => LastRadio(card, clicks[..|clicks| - 1])
  }

  function LastText(card: Picker, clicks: seq<Click>): string
  {
    if clicks == [] then card.freeText
    else if clicks[|clicks| - 1].Type? then clicks[|clicks| - 1].text
    else LastText(card, clicks[..|clicks| - 1])
  }

  lemma {:induction false} PickerRemembers(card: Picker, before: seq<Click>)
    requires !card.decided && Run(PickerCard(card), before).1 == [] && Supersede !in before
    ensures Run(PickerCard(card), before).0
         == PickerCard(card.(radio := LastRadio(card, before), freeText := LastText(card, before)))
    decreases |before|
  {
    hide Trim, ResolveToolChoice;
    if before != [] {
      var init, last := before[..|before| - 1], before[|before| - 1];
      assert before == init + [last];
      RunConcat(PickerCard(card), init, [last]);
      PickerRemembers(card, init);
      var now := Run(PickerCard(card), init).0;
      OneClick(now, last);
      StepAnswersOnce(now, last);
    }
  }

  lemma PickerLeavesTheChoice(card: Picker, before: seq<Click>, after: seq<Click>)
    requires !card.decided && Run(PickerCard(card), before).1 == [] && Supersede !in before
    ensures Run(PickerCard(card), before + [Refuse] + after).1 == [Chose(ToolChoice(card.id, None, None))]
  {
    PickerRemembers(card, before);
    ReplyOf(PickerCard(card), before, Refuse, after);
  }

  /** Confirming sends the candidate picked last, or the guidance typed last, trimmed, where the free text was
      chosen after it; with no radio on, or nothing but white space typed, it sends nothing. */
  lemma PickerConfirms(card: Picker, before: seq<Click>, after: seq<Click>)
    requires !card.decided && Run(PickerCard(card), before).1 == [] && Supersede !in before && card.Valid()
    ensures var text := Trim(LastText(card, before));
            var said := Run(PickerCard(card), before + [Accept] + after).1;
            match LastRadio(card, before)
            case Candidate(i) =>
              i < |card.candidates| ==> said == [Chose(ToolChoice(card.id, Some(card.candidates[i]), None))]
            case Free =>
              if text != "" then said == [Chose(ToolChoice(card.id, None, Some(text)))]
              else Run(PickerCard(card), before + [Accept]).1 == []
            case Nothing => Run(PickerCard(card), before + [Accept]).1 == []
  {
    hide Trim, LastRadio, LastText;
    PickerRemembers(card, before);
    var now := Run(PickerCard(card), before).0;
    RunConcat(PickerCard(card), before, [Accept]);
    OneClick(now, Accept);
    if Step(now, Accept).1 != [] {
      ReplyOf(PickerCard(card), before, Accept, after);
    }
  }

  // ---------------------------------------------------------------------------------------
  // Keys
  // ---------------------------------------------------------------------------------------

  predicate AsksFor(rows: seq<ParamRow>, name: string)
  {
    exists i :: 0 <= i < |rows| && rows[i].secret && rows[i].name == name
  }

  /** How often a key was stored under the name. */
  function Stores(sent: seq<Sent>, name: string): nat
  {
    if sent == [] then 0
    else (if sent[0].Stored? && sent[0].name == name then 1 else 0) + Stores(sent[1..], name)
  }

  /** A key is stored exactly where a row asks for one and something was typed for it, once, and as typed but
      for white space around it; the editors of all such rows are empty afterwards, and the others untouched. */
  lemma {:induction false} KeysAre(rows: seq<ParamRow>, editors: Editors, name: string)
    ensures var (after, keys) := KeysOf(rows, editors);
            var asked := name in editors && AsksFor(rows, name);
            && after.Keys == editors.Keys
            && (asked ==> after[name] == Some(""))
            && (!asked && name in editors ==> after[name] == editors[name])
            && Stores(keys, name) == (if asked && Typed(editors[name]) != "" then 1 else 0)
            && (asked && Typed(editors[name]) != "" ==> Stored(name, Typed(editors[name])) in keys)
    decreases |rows|
  {
    if rows != [] {
      assert AsksFor(rows, name) <==> (rows[0].secret && rows[0].name == name) || AsksFor(rows[1..], name) by {
        AsksFirst(rows, name);
      }
      if !rows[0].secret || rows[0].name !in editors {
        KeysAre(rows[1..], editors, name);
      } else {
        var cleared := editors[rows[0].name := Some("")];
        KeysAre(rows[1..], cleared, name);
        var key := Typed(editors[rows[0].name]);
        StoresFirst(if key != "" then [Stored(rows[0].name, key)] else [], KeysOf(rows[1..], cleared).1, name);
        NothingTyped();
      }
    }
  }

  lemma AsksFirst(rows: seq<ParamRow>, name: string)
    requires rows != []
    ensures AsksFor(rows, name) <==> (rows[0].secret && rows[0].name == name) || AsksFor(rows[1..], name)
  {
    assert forall i :: 0 < i < |rows| ==> rows[i] == rows[1..][i - 1];
  }

  lemma {:induction false} StoresFirst(first: seq<Sent>, keys: seq<Sent>, name: string)
    requires |first| <= 1
    ensures Stores(first + keys, name) == Stores(first, name) + Stores(keys, name)
  {
    if first == [] {
      assert first + keys == keys;
    } else {
      assert (first + keys)[1..] == keys && first[1..] == [];
    }
  }

  lemma NothingTyped()
    ensures Typed(Some("")) == ""
  {
  }
}
