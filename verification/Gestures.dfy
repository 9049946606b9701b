/** What the user's gestures do in the popup (`ui/popup.rs`): what each key asks for, that the mouse asks
    for the same, and what a form that is saved is. */
module Gestures {
  import opened Common
  import opened Symbolic
  import opened Model
  import opened Messages
  import opened Editors
  import opened Popups
  import Fuzzy

  /** One frame in which these keys are pressed. */
  function Press(p: State, k: Keys, c: Chance): Stepped {
    Tick(p, k, c)
  }

  function Ctrl(k: Keys): Keys {
    k.(ctrl := true)
  }

  function CtrlN(): Keys { Ctrl(NoKeys().(n := true)) }
  function CtrlE(): Keys { Ctrl(NoKeys().(e := true)) }
  function CtrlD(): Keys { Ctrl(NoKeys().(d := true)) }
  function CtrlS(): Keys { Ctrl(NoKeys().(s := true)) }
  function EnterKey(): Keys { NoKeys().(enter := true) }
  function EscapeKey(): Keys { NoKeys().(escape := true) }

  // ---- The list ------------------------------------------------------------------------------

  /** The arrows move the highlight by one row, not past either end, and keep the vault open. */
  lemma ArrowsMove(p: State, c: Chance)
    requires p.visible && p.mode.ListMode?
    ensures var (up, down) := (Press(p, NoKeys().(up := true), c), Press(p, NoKeys().(down := true), c));
            && up.sent == [TouchRequest] && down.sent == [TouchRequest]
            && up.state == p.(selected := up.state.selected) && down.state == p.(selected := down.state.selected)
            && (p.selected > 0 ==> up.state.selected == p.selected - 1)
            && (p.selected == 0 ==> up.state.selected == 0)
            && (p.selected + 1 < |p.ranked| ==> down.state.selected == p.selected + 1)
            && (p.selected + 1 >= |p.ranked| ==> down.state.selected == p.selected)
  {
    assert [TouchRequest] + [] == [TouchRequest];
  }

  /** Enter uses the highlighted secret while the vault is unlocked, asks for an unlock while it is locked,
      and does nothing while an unlock is under way or the list is empty. */
  lemma EnterActs(p: State, c: Chance)
    requires p.visible && p.mode.ListMode?
    ensures Press(p, EnterKey(), c).state == p
    ensures forall id: Uuid | Highlights(p, id) ::
              Press(p, EnterKey(), c).sent
              == if p.lockState.UiUnlocked? then [Use(id)] else if p.lockState.UiLocked? then [UnlockRequest] else []
    ensures (forall id: Uuid :: !Highlights(p, id)) ==> Press(p, EnterKey(), c).sent == []
  {
    if p.selected < |p.ranked| {
      assert Highlights(p, p.ranked[p.selected].meta.id);
    }
  }

  /** Ctrl+N opens an empty form, Ctrl+E asks to edit the highlighted secret, Ctrl+D asks for confirmation
      under its name, and Escape closes the popup. */
  lemma ShortcutsAct(p: State, c: Chance)
    requires p.visible && p.mode.ListMode?
    ensures Press(p, CtrlN(), c) == Stepped(p.(mode := EditMode(NewEditor(c.now))), [])
    ensures forall i | 0 <= i < |p.ranked| && i == p.selected ::
              var m := p.ranked[i].meta;
              && Press(p, CtrlE(), c) == Stepped(p, [BeginEdit(m.id)])
              && Press(p, CtrlD(), c) == Stepped(p.(mode := ConfirmDelete(m.id, m.name)), [])
    ensures p.ranked == [] ==> Press(p, CtrlE(), c) == Press(p, CtrlD(), c) == Stepped(p, [])
    ensures Press(p, EscapeKey(), c).sent == [Dismissed]
    ensures var p' := Press(p, EscapeKey(), c).state; !p'.visible && p'.secrets == [] && p'.ranked == [] && p'.mode.ListMode?
  {
    assert [] + [Dismissed] == [Dismissed];
  }

  /** In the other modes Escape goes back to the list, and tells a waiting assertion so; Enter confirms a
      deletion or answers a prompt. */
  lemma OtherModesAct(p: State, c: Chance)
    requires p.visible && !p.mode.ListMode?
    ensures Press(p, EscapeKey(), c) == Stepped(p.(mode := ListMode), if p.mode.PinMode? then [PinResponse(None)] else [])
    ensures p.mode.ConfirmDelete? ==> Press(p, EnterKey(), c) == Stepped(p.(mode := ListMode), [DeleteRequest(p.mode.id)])
    ensures p.mode.PinMode? && p.mode.value != "" ==>
              Press(p, EnterKey(), c) == Stepped(p.(mode := ListMode), [PinResponse(Some(p.mode.value))])
    ensures p.mode.PinMode? && p.mode.value == "" ==> Press(p, EnterKey(), c) == Stepped(p, [])
  {
    hide Build, CycleFocus;
  }

  /** In the form Tab moves the focus and leaves what was typed; no key does anything while the popup is hidden. */
  lemma TabMoves(p: State, backwards: bool, c: Chance)
    requires p.visible && p.mode.EditMode?
    ensures Press(p, NoKeys().(tab := true, shift := backwards), c)
         == Stepped(p.(mode := EditMode(p.mode.editor.(focus := CycleFocus(p.mode.editor, backwards).focus))), [])
  {
    hide Build;
  }

  lemma HiddenIgnoresKeys(p: State, k: Keys, c: Chance)
    requires !p.visible
    ensures Press(p, k, c) == Stepped(p, [])
  {
  }

  /** The form of a new secret is empty. */
  lemma NewFormIsEmpty(now: int)
    ensures NewEditor(now).id == None && NewEditor(now).createdAt == now && NewEditor(now).error == None && NewEditor(now).focus == NameField
    ensures NewEditor(now).form == Form("", Password, "", "", "", "", "", "")
  {
  }

  /** What the other events change: the prompt and the form, at its first field, come on screen even when the popup was dismissed,
      and the lock state and messages leave everything else as it is. */
  lemma EventsAct(t: Tools, p: State, retry: bool, meta: SecretMeta, payload: SecretPayload, state: UiLockState, message: string)
    ensures HandleEvent(t, p, RequestPin(retry)) == Stepped(p.(mode := PinMode("", retry), visible := true), [])
    ensures HandleEvent(t, p, EditReady(meta, payload))
         == Stepped(p.(mode := EditMode(FromExisting(t.text, meta, payload)), visible := true), [])
    ensures FromExisting(t.text, meta, payload).focus == NameField && FromExisting(t.text, meta, payload).error == None
    ensures HandleEvent(t, p, LockChanged(state)) == Stepped(p.(lockState := state), [])
    ensures HandleEvent(t, p, Error(message)) == HandleEvent(t, p, Status(message)) == Stepped(p, [])
  {
  }

  /** A new list keeps the search, the mode and the highlighted place, or the last one that is left. */
  lemma RefreshKeepsThePlace(t: Tools, p: State, metas: seq<SecretMeta>)
    ensures var p' := HandleEvent(t, p, Refresh(metas)).state;
            && p' == p.(secrets := metas, ranked := p'.ranked, selected := p'.selected)
            && p'.ranked == Fuzzy.Rank(t.searcher, metas, p.query, p.context)
            && (p.selected < |p'.ranked| ==> p'.selected == p.selected)
            && (0 < |p'.ranked| <= p.selected ==> p'.selected == |p'.ranked| - 1)
            && (p'.ranked == [] ==> p'.selected == 0)
  {
    hide Fuzzy.Rank;
  }

  /** However the popup is closed, by Escape in the list, by the daemon or with the program, it is left as at
      the start but for the context, the highlight and the lock state, and says so once. */
  lemma HidingForgets(t: Tools, p: State, c: Chance)
    ensures var hidden := Initial().(context := p.context, selected := p.selected, lockState := p.lockState);
            && HandleEvent(t, p, Hide) == Step(t, p, ForceHide)
            && (p.visible ==> Step(t, p, ForceHide) == Stepped(hidden, [Dismissed]))
            && (p.visible && p.mode.ListMode? ==> Press(p, EscapeKey(), c) == Stepped(hidden, [Dismissed]))
            && (!p.visible ==> Step(t, p, ForceHide) == Stepped(p, []))
  {
    assert [] + [Dismissed] == [Dismissed];
  }

  // ---- Several keys in one frame -----------------------------------------------------------------

  /** In the list Escape counts before Ctrl+N, Ctrl+E and Ctrl+D, in this order, and these before all others,
      which act as if pressed one after the other: up, down, Enter. */
  lemma ListKeysTogether(p: State, k: Keys, c: Chance)
    requires p.visible && p.mode.ListMode?
    ensures k.escape ==> Press(p, k, c) == Press(p, EscapeKey(), c)
    ensures !k.escape && k.ctrl ==>
              && (k.n ==> Press(p, k, c) == Press(p, CtrlN(), c))
              && (!k.n && k.e ==> Press(p, k, c) == Press(p, CtrlE(), c))
              && (!k.n && !k.e && k.d ==> Press(p, k, c) == Press(p, CtrlD(), c))
    ensures !k.escape && !(k.ctrl && (k.n || k.e || k.d)) ==>
              var p1 := Press(p, NoKeys().(up := k.up), c).state;
              var p2 := Press(p1, NoKeys().(down := k.down), c).state;
              var p3 := Press(p2, NoKeys().(enter := k.enter), c);
              && Press(p, k, c).state == p3.state
              && Press(p, k, c).sent == (if k.up || k.down then [TouchRequest] else []) + p3.sent
  {
    hide ActivateSelected;
    if !k.escape && !(k.ctrl && (k.n || k.e || k.d)) {
      OneByOne(p, k, c);
    }
  }

  lemma OneByOne(p: State, k: Keys, c: Chance)
    requires p.visible && p.mode.ListMode? && !k.escape && !(k.ctrl && (k.n || k.e || k.d))
    ensures var p1 := Press(p, NoKeys().(up := k.up), c).state;
            var p2 := Press(p1, NoKeys().(down := k.down), c).state;
            var p3 := Press(p2, NoKeys().(enter := k.enter), c);
            && Press(p, k, c).state == p3.state
            && Press(p, k, c).sent == (if k.up || k.down then [TouchRequest] else []) + p3.sent
  {
    hide ActivateSelected;
    assert forall m: seq<UiRequest> :: [] + m == m;
  }

  /** In the other modes Escape counts before everything else; in the form Tab comes before Ctrl+S. */
  lemma OtherKeysTogether(p: State, k: Keys, c: Chance)
    requires p.visible && !p.mode.ListMode?
    ensures k.escape ==> Press(p, k, c) == Press(p, EscapeKey(), c)
    ensures !k.escape && !p.mode.EditMode? ==> Press(p, k, c) == Press(p, NoKeys().(enter := k.enter), c)
    ensures !k.escape && p.mode.EditMode? ==>
              var p1 := Press(p, NoKeys().(tab := k.tab, shift := k.shift), c).state;
              Press(p, k, c) == Press(p1, NoKeys().(ctrl := k.ctrl, s := k.s), c)
  {
    hide Build, CycleFocus;
  }

  // ---- The mouse -------------------------------------------------------------------------------

  /** The last of the first `n` rows of which `what` is true. */
  ghost predicate IsLast(rows: nat -> RowAction, n: nat, what: RowAction -> bool, i: nat) {
    i < n && what(rows(i)) && forall k: nat | i < k < n :: !what(rows(k))
  }

  ghost predicate Nowhere(rows: nat -> RowAction, n: nat, what: RowAction -> bool) {
    forall k: nat | k < n :: !what(rows(k))
  }

  /** What the mouse does to the rows is what the keys do to the row once it is highlighted: a cross is Ctrl+D,
      a pencil Ctrl+E, a click Enter. Of several the last counts, a cross before a pencil before a click. */
  lemma ClicksAreKeys(t: Tools, p: State, rows: nat -> RowAction, i: nat, c: Chance)
    requires p.visible && p.mode.ListMode?
    ensures var (n, drawn) := (|p.ranked|, DrawList(t, p, false, None, rows, c.now));
            var (crossed, pencilled, clicked) := ((r: RowAction) => r.deleted, (r: RowAction) => r.edited, (r: RowAction) => r.activated);
            && (IsLast(rows, n, crossed, i) ==> drawn == Press(p.(selected := i), CtrlD(), c))
            && (Nowhere(rows, n, crossed) && IsLast(rows, n, pencilled, i) ==> drawn == Press(p.(selected := i), CtrlE(), c))
            && (Nowhere(rows, n, crossed) && Nowhere(rows, n, pencilled) && IsLast(rows, n, clicked, i) ==>
                  drawn == Press(p.(selected := i), EnterKey(), c))
            && (Nowhere(rows, n, crossed) && Nowhere(rows, n, pencilled) && Nowhere(rows, n, clicked) ==> drawn == Stepped(p, []))
  {
    hide LastRow;
    var n := |p.ranked|;
    LastRowIsARow(rows, n, (r: RowAction) => r.deleted);
    LastRowIsARow(rows, n, (r: RowAction) => r.edited);
    LastRowIsARow(rows, n, (r: RowAction) => r.activated);
    assert forall m: seq<UiRequest> :: [] + m == m;
  }

  /** The Add button does what Ctrl+N does. */
  lemma AddIsCtrlN(t: Tools, p: State, typed: Option<string>, rows: nat -> RowAction, c: Chance)
    requires p.visible && p.mode.ListMode?
    ensures DrawList(t, p, true, typed, rows, c.now) == Press(p, CtrlN(), c)
  {
  }

  lemma NoRow(rows: nat -> RowAction, n: nat, what: RowAction -> bool)
    requires forall k: nat :: !what(rows(k))
    ensures LastRow(rows, n, what) == None
  {
    LastRowIsARow(rows, n, what);
  }

  /** Typing in the search box ranks what is held anew for the new text, from the top, and keeps the vault
      open. */
  lemma TypingSearches(t: Tools, p: State, text: string, now: int)
    requires p.visible && p.mode.ListMode?
    ensures var r := DrawList(t, p, false, Some(text), (k: nat) => RowAction(false, false, false), now);
            && r.sent == [TouchRequest]
            && r.state == p.(query := text, selected := 0, ranked := Fuzzy.Rank(t.searcher, p.secrets, text, p.context))
  {
    hide Fuzzy.Rank, LastRow;
    var rows := (k: nat) => RowAction(false, false, false);
    var n := |Fuzzy.Rank(t.searcher, p.secrets, text, p.context)|;
    NoRow(rows, n, (r: RowAction) => r.deleted);
    NoRow(rows, n, (r: RowAction) => r.edited);
    NoRow(rows, n, (r: RowAction) => r.activated);
    assert [TouchRequest] + [] == [TouchRequest];
  }

  // ---- The form --------------------------------------------------------------------------------

  /** The Save button does what Ctrl+S does, and the Cancel button what Escape does, to the form as typed. */
  lemma ButtonsAreKeys(p: State, form: Form, c: Chance)
    requires p.visible && p.mode.EditMode?
    ensures var p1 := p.(mode := EditMode(p.mode.editor.(form := form)));
            && DrawEdit(p, form, true, false, c) == Press(p1, CtrlS(), c)
            && DrawEdit(p, form, false, true, c) == Press(p1, EscapeKey(), c)
            && DrawEdit(p, form, false, false, c) == Stepped(p1, [])
  {
    hide Build, CycleFocus;
  }

  /** A form that is accepted is sent as it is built, as an update exactly when it is that of a stored
      secret, and closes; one that is refused stays open with the reason, and nothing is sent. */
  lemma SavingSends(p: State, c: Chance)
    requires p.visible && p.mode.EditMode?
    ensures var built := Build(p.mode.editor, c.newId, c.now);
            && (built.Ok? ==> Press(p, CtrlS(), c)
                              == Stepped(p.(mode := ListMode), [Save(built.value.0, built.value.1, p.mode.editor.id.Some?)]))
            && (built.Err? ==> Press(p, CtrlS(), c)
                               == Stepped(p.(mode := EditMode(p.mode.editor.(error := Some(built.error)))), []))
  {
    hide Build, CycleFocus;
  }

  /** Where a form on screen comes from: it was there before and is for the same secret, or it was just
      opened for a stored secret, or it is a new one, empty and dated now. */
  lemma FormsComeFrom(t: Tools, p: State, step: UiStep)
    requires Possible(p, step)
    ensures var p' := Step(t, p, step).state;
            p'.mode.EditMode? ==>
              || (p.mode.EditMode? && p'.mode.editor.id == p.mode.editor.id && p'.mode.editor.createdAt == p.mode.editor.createdAt)
              || (step.EventStep? && step.event.EditReady?
                  && p'.mode.editor == FromExisting(t.text, step.event.meta, step.event.payload)
                  && p'.mode.editor.id == Some(step.event.meta.id))
              || (p.mode.ListMode? && p'.mode.editor.id == None
                  && (step.TickStep? ==> p'.mode.editor == NewEditor(step.chance.now))
                  && (step.ListFrame? ==> p'.mode.editor == NewEditor(step.now)))
  {
    hide Fuzzy.Rank, Build, CycleFocus, LastRow, ActivateSelected;
    match step {
      case TickStep(keys, chance) => TickForms(p, keys, chance);
      case _ =>
    }
  }

  lemma TickForms(p: State, k: Keys, c: Chance)
    ensures var p' := Tick(p, k, c).state;
            p'.mode.EditMode? ==>
              || (p.mode.EditMode? && p'.mode.editor.id == p.mode.editor.id && p'.mode.editor.createdAt == p.mode.editor.createdAt)
              || (p.mode.ListMode? && p'.mode.editor == NewEditor(c.now))
  {
    hide Build, ActivateSelected;
  }

  /** Every form that any step sends is an update exactly when it is that of a stored secret, and then it
      names that secret; otherwise it names the fresh id. */
  lemma SavesExactly(t: Tools, p: State, step: UiStep, m: UiRequest)
    requires Possible(p, step) && m in Step(t, p, step).sent && m.Save?
    ensures p.mode.EditMode? && (step.TickStep? || step.EditFrame?)
    ensures m.isUpdate <==> p.mode.editor.id.Some?
    ensures Some(m.meta.id) == if m.isUpdate then p.mode.editor.id else Some(step.chance.newId)
    ensures m.meta.createdAt == p.mode.editor.createdAt && m.meta.updatedAt == step.chance.now
  {
    hide Fuzzy.Rank, CycleFocus, DrawRows, ListKeys;
    SentIsJustified(t, p, step);
    assert MaySend(p, Step(t, p, step).state, m);
    match step {
      case TickStep(keys, chance) => TickSaves(p, keys, chance, m);
      case EditFrame(form, _, _, chance) => BuildsFor(p.mode.editor.(form := form), chance);
      case ListFrame(_, typed, rows, _) => ListSavesNothing(t, p, step, m);
      case _ =>
    }
  }

  lemma ListSavesNothing(t: Tools, p: State, step: UiStep, m: UiRequest)
    requires Possible(p, step) && step.ListFrame? && m in Step(t, p, step).sent
    ensures !m.Save?
  {
    hide Fuzzy.Rank, LastRow;
  }

  lemma BuildsFor(e: Editor, c: Chance)
    ensures Build(e, c.newId, c.now).Ok? ==>
              var meta := Build(e, c.newId, c.now).value.0;
              meta.id == (if e.id.Some? then e.id.value else c.newId) && meta.createdAt == e.createdAt && meta.updatedAt == c.now
  {
  }

  lemma TickSaves(p: State, k: Keys, c: Chance, m: UiRequest)
    requires m in Tick(p, k, c).sent && m.Save? && p.mode.EditMode?
    ensures m.isUpdate <==> p.mode.editor.id.Some?
    ensures Some(m.meta.id) == if m.isUpdate then p.mode.editor.id else Some(c.newId)
    ensures m.meta.createdAt == p.mode.editor.createdAt && m.meta.updatedAt == c.now
  {
    hide Build;
    var e := if k.tab then CycleFocus(p.mode.editor, k.shift) else p.mode.editor;
    BuildsFor(e, c);
  }
}
