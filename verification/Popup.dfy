/** The popup's state machine (`ui/popup.rs`), without its drawing.

    Each step is a function on a state value that also returns the requests it sends, and a method of
    the class `Popup` that is proved to compute it. */
module Popups {
  import opened Common
  import opened Symbolic
  import opened Model
  import opened Editors
  import opened Fuzzy
  import opened Messages

  datatype Mode =
    | ListMode
    | EditMode(editor: Editor)
    | ConfirmDelete(id: Uuid, name: string)
    | PinMode(value: string, retry: bool)

  datatype Keys = Keys(escape: bool, up: bool, down: bool, enter: bool, tab: bool, shift: bool, ctrl: bool,
                       n: bool, e: bool, d: bool, s: bool)

  function NoKeys(): Keys {
    Keys(false, false, false, false, false, false, false, false, false, false, false)
  }

  /** What the user did to a row in one frame. */
  datatype RowAction = RowAction(activated: bool, edited: bool, deleted: bool)

  /** What a frame takes from outside: an id for a new secret, and the clock. */
  datatype Chance = Chance(newId: Uuid, now: int)

  datatype State = State(
    mode: Mode, secrets: seq<SecretMeta>, ranked: seq<Ranked>, context: SearchContext,
    query: string, selected: nat, lockState: UiLockState, visible: bool)

  /** A step's new state and what it sent. */
  datatype Stepped = Stepped(state: State, sent: seq<UiRequest>)

  /** The search, and the reading of buffers as text. */
  datatype Tools = Tools(searcher: Searcher, text: Bytes -> Option<string>)

  function Initial(): State {
    State(ListMode, [], [], SearchContext(None, None), "", 0, UiLocked, false)
  }

  function Rerank(t: Tools, p: State): State {
    var r := Rank(t.searcher, p.secrets, p.query, p.context);
    p.(ranked := r, selected := if p.selected < |r| then p.selected else if |r| == 0 then 0 else |r| - 1)
  }

  function HideIt(p: State): Stepped {
    if !p.visible then Stepped(p, [])
    else Stepped(p.(visible := false, mode := ListMode, secrets := [], ranked := [], query := ""), [Dismissed])
  }

  function HandleEvent(t: Tools, p: State, ev: DaemonEvent): Stepped {
    match ev
    case Show(secrets, host, application) =>
      var p1 := p.(secrets := secrets, context := SearchContext(host, application), query := "", selected := 0);
      Stepped(Rerank(t, p1).(mode := ListMode, visible := true), [])
    case Hide => HideIt(p)
    case LockChanged(state) => Stepped(p.(lockState := state), [])
    case Error(_) => Stepped(p, [])
    case Status(_) => Stepped(p, [])
    case EditReady(meta, payload) =>
      Stepped(p.(mode := EditMode(FromExisting(t.text, meta, payload)), visible := true), [])
    case Refresh(secrets) => Stepped(Rerank(t, p.(secrets := secrets)), [])
    case RequestPin(retry) => Stepped(p.(mode := PinMode("", retry), visible := true), [])
  }

  function Target(p: State): Option<SecretMeta> {
    if p.selected < |p.ranked| then Some(p.ranked[p.selected].meta) else None
  }

  function ActivateSelected(p: State): seq<UiRequest> {
    if Target(p).None? then []
    else
      match p.lockState
      case UiUnlocked(_) => [Use(Target(p).value.id)]
      case UiLocked => [UnlockRequest]
      case WaitingForTouch => []
  }

  /** The popup's own keys: the second result says whether to close it. */
  function ListKeys(p: State, k: Keys, now: int): (Stepped, bool) {
    if k.escape then (Stepped(p, []), true)
    else if k.ctrl && k.n then (Stepped(p.(mode := EditMode(NewEditor(now))), []), false)
    else if k.ctrl && k.e then
      (Stepped(p, if Target(p).Some? then [BeginEdit(Target(p).value.id)] else []), false)
    else if k.ctrl && k.d then
      (Stepped(if Target(p).Some? then p.(mode := ConfirmDelete(Target(p).value.id, Target(p).value.name)) else p, []), false)
    else
      var touched := if k.up || k.down then [TouchRequest] else [];
      var p1 := if k.up && p.selected > 0 then p.(selected := p.selected - 1) else p;
      var p2 := if k.down && p1.selected + 1 < |p1.ranked| then p1.(selected := p1.selected + 1) else p1;
      (Stepped(p2, touched + if k.enter then ActivateSelected(p2) else []), false)
  }

  function SaveEditor(p: State, c: Chance): Stepped
    requires p.mode.EditMode?
  {
    match Build(p.mode.editor, c.newId, c.now)
    case Ok((meta, payload)) => Stepped(p.(mode := ListMode), [Save(meta, payload, p.mode.editor.id.Some?)])
    case Err(message) => Stepped(p.(mode := EditMode(p.mode.editor.(error := Some(message)))), [])
  }

  function EditKeys(p: State, k: Keys, c: Chance): Stepped
    requires p.mode.EditMode?
  {
    if k.escape then Stepped(p.(mode := ListMode), [])
    else
      var p1 := if k.tab then p.(mode := EditMode(CycleFocus(p.mode.editor, k.shift))) else p;
      if k.ctrl && k.s then SaveEditor(p1, c) else Stepped(p1, [])
  }

  function ConfirmKeys(p: State, k: Keys): Stepped
    requires p.mode.ConfirmDelete?
  {
    if k.escape then Stepped(p.(mode := ListMode), [])
    else if k.enter then Stepped(p.(mode := ListMode), [DeleteRequest(p.mode.id)])
    else Stepped(p, [])
  }

  function PinKeys(p: State, k: Keys): Stepped
    requires p.mode.PinMode?
  {
    if k.escape then Stepped(p.(mode := ListMode), [PinResponse(None)])
    else if k.enter && p.mode.value != "" then Stepped(p.(mode := ListMode), [PinResponse(Some(p.mode.value))])
    else Stepped(p, [])
  }

  function HandleKeys(p: State, k: Keys, c: Chance): (Stepped, bool) {
    match p.mode
    case ListMode => ListKeys(p, k, c.now)
    case EditMode(_) => (EditKeys(p, k, c), false)
    case ConfirmDelete(_, _) => (ConfirmKeys(p, k), false)
    case PinMode(_, _) => (PinKeys(p, k), false)
  }

  function Tick(p: State, k: Keys, c: Chance): Stepped {
    if !p.visible then Stepped(p, [])
    else
      var (r, close) := HandleKeys(p, k, c);
      if close then Stepped(HideIt(r.state).state, r.sent + HideIt(r.state).sent) else r
  }

  /** The last row below `n` that the user edited, deleted or activated. */
  function LastRow(rows: nat -> RowAction, n: nat, what: RowAction -> bool): Option<nat> {
    if n == 0 then None else if what(rows(n - 1)) then Some(n - 1) else LastRow(rows, n - 1, what)
  }

  /** The effects of drawing the rows: deletion before editing before activation. */
  function DrawRows(p: State, rows: nat -> RowAction): Stepped {
    var n := |p.ranked|;
    var deleted := LastRow(rows, n, (r: RowAction) => r.deleted);
    var edited := LastRow(rows, n, (r: RowAction) => r.edited);
    var clicked := LastRow(rows, n, (r: RowAction) => r.activated);
    if deleted.Some? && deleted.value < n then
      var meta := p.ranked[deleted.value].meta;
      Stepped(p.(selected := deleted.value, mode := ConfirmDelete(meta.id, meta.name)), [])
    else if edited.Some? && edited.value < n then
      Stepped(p.(selected := edited.value), [BeginEdit(p.ranked[edited.value].meta.id)])
    else if clicked.Some? then
      Stepped(p.(selected := clicked.value), ActivateSelected(p.(selected := clicked.value)))
    else Stepped(p, [])
  }

  /** A frame of the list: the Add button, the search box with its new text if it changed, the rows. */
  function DrawList(t: Tools, p: State, add: bool, typed: Option<string>, rows: nat -> RowAction, now: int): Stepped {
    if add then Stepped(p.(mode := EditMode(NewEditor(now))), [])
    else
      var p1 := if typed.Some? then Rerank(t, p.(query := typed.value, selected := 0)) else p;
      var sent := if typed.Some? then [TouchRequest] else [];
      var r := DrawRows(p1, rows);
      Stepped(r.state, sent + r.sent)
  }

  /** A frame of the form: the text as the user left it, and the two buttons. */
  function DrawEdit(p: State, form: Form, save: bool, cancel: bool, c: Chance): Stepped
    requires p.mode.EditMode?
  {
    var p1 := p.(mode := EditMode(p.mode.editor.(form := form)));
    if cancel then Stepped(p1.(mode := ListMode), [])
    else if save then SaveEditor(p1, c)
    else Stepped(p1, [])
  }

  function DrawPin(p: State, value: string): Stepped
    requires p.mode.PinMode?
  {
    Stepped(p.(mode := PinMode(value, p.mode.retry)), [])
  }

  // ---- All steps -----------------------------------------------------------------------

  datatype UiStep =
    | EventStep(event: DaemonEvent)
    | TickStep(keys: Keys, chance: Chance)
    | ListFrame(add: bool, typed: Option<string>, rows: nat -> RowAction, now: int)
    | EditFrame(form: Form, save: bool, cancel: bool, chance: Chance)
    | PinFrame(value: string)
    | ForceHide

  /** A frame is drawn only while the popup is visible, in the mode it is in. */
  predicate Possible(p: State, step: UiStep) {
    match step
    case ListFrame(_, _, _, _) => p.visible && p.mode.ListMode?
    case EditFrame(_, _, _, _) => p.visible && p.mode.EditMode?
    case PinFrame(_) => p.visible && p.mode.PinMode?
    case _ => true
  }

  function Step(t: Tools, p: State, step: UiStep): Stepped
    requires Possible(p, step)
  {
    match step
    case EventStep(event) => HandleEvent(t, p, event)
    case TickStep(keys, chance) => Tick(p, keys, chance)
    case ListFrame(add, typed, rows, now) => DrawList(t, p, add, typed, rows, now)
    case EditFrame(form, save, cancel, chance) => DrawEdit(p, form, save, cancel, chance)
    case PinFrame(value) => DrawPin(p, value)
    case ForceHide => HideIt(p)
  }

  // ---- What every step keeps --------------------------------------------------------------

  /** The ranked view is the ranking of what is held, for the query and the context in force; the
      selection points into it. */
  ghost predicate Consistent(t: Tools, p: State) {
    && p.ranked == Rank(t.searcher, p.secrets, p.query, p.context)
    && (p.ranked != [] ==> p.selected < |p.ranked|)
  }

  /** The secret of the highlighted row. */
  predicate Highlights(p: State, id: Uuid) {
    p.selected < |p.ranked| && p.ranked[p.selected].meta.id == id
  }

  ghost predicate ListsAs(p: State, id: Uuid, name: string) {
    exists i | 0 <= i < |p.ranked| :: p.ranked[i].meta.id == id && p.ranked[i].meta.name == name
  }

  /** What may be sent by a step from `p` to `p'`: a secret is used only while unlocked, and what is used
      or edited is the highlighted row of the list; a deletion is what the confirmation on screen asks for, and takes it off. */
  ghost predicate MaySend(p: State, p': State, m: UiRequest) {
    && (m.Use? ==> p.lockState.UiUnlocked? && p'.lockState == p.lockState && Highlights(p', m.id))
    && (m.UnlockRequest? ==> p.lockState.UiLocked?)
    && (m.BeginEdit? ==> Highlights(p', m.id))
    && (m.DeleteRequest? ==> p.mode.ConfirmDelete? && p.mode.id == m.id && p'.mode.ListMode?)
    && (m.PinResponse? ==> p.mode.PinMode? && p'.mode.ListMode?)
    && (m.Save? ==> p.mode.EditMode? && p'.mode.ListMode?)
  }

  lemma NothingRanked(t: Tools, query: string, ctx: SearchContext)
    ensures Rank(t.searcher, [], query, ctx) == []
  {
    NarrowingNeverEmpties(t.searcher, [], query, ctx);
  }

  lemma InitialIsConsistent(t: Tools)
    ensures Consistent(t, Initial())
  {
    NothingRanked(t, "", SearchContext(None, None));
  }

  lemma HideIsConsistent(t: Tools, p: State)
    requires Consistent(t, p)
    ensures Consistent(t, HideIt(p).state)
  {
    hide Rank;
    NothingRanked(t, "", p.context);
  }

  lemma {:induction false} LastRowIsARow(rows: nat -> RowAction, n: nat, what: RowAction -> bool)
    ensures LastRow(rows, n, what).Some? ==> LastRow(rows, n, what).value < n && what(rows(LastRow(rows, n, what).value))
    ensures LastRow(rows, n, what).None? <==> forall i: nat | i < n :: !what(rows(i))
    ensures LastRow(rows, n, what).Some? ==> forall i: nat | LastRow(rows, n, what).value < i < n :: !what(rows(i))
    decreases n
  {
    if n > 0 {
      LastRowIsARow(rows, n - 1, what);
    }
  }

  lemma DrawRowsConsistent(t: Tools, p: State, rows: nat -> RowAction)
    requires Consistent(t, p)
    ensures Consistent(t, DrawRows(p, rows).state)
  {
    hide Rank;
    LastRowIsARow(rows, |p.ranked|, (r: RowAction) => r.activated);
  }

  /** The ranked view agrees with what it ranks after every event, key press and frame. */
  lemma StepKeepsConsistent(t: Tools, p: State, step: UiStep)
    requires Consistent(t, p) && Possible(p, step)
    ensures Consistent(t, Step(t, p, step).state)
  {
    hide Rank, Build, CycleFocus, FromExisting, DrawRows;
    match step {
      case EventStep(event) =>
        hide LastRow;
        HideIsConsistent(t, p);
      case TickStep(keys, chance) =>
        TickKeepsConsistent(t, p, keys, chance);
      case ListFrame(add, typed, rows, now) =>
        var p1 := if typed.Some? then Rerank(t, p.(query := typed.value, selected := 0)) else p;
        DrawRowsConsistent(t, p1, rows);
      case EditFrame(_, _, _, _) =>
      case PinFrame(_) =>
      case ForceHide => HideIsConsistent(t, p);
    }
  }

  lemma TickKeepsConsistent(t: Tools, p: State, k: Keys, c: Chance)
    requires Consistent(t, p)
    ensures Consistent(t, Tick(p, k, c).state)
  {
    hide Rank, Build, CycleFocus;
    HideIsConsistent(t, p);
  }

  lemma ActivatedIsListed(p: State)
    ensures forall m | m in ActivateSelected(p) :: MaySend(p, p, m)
  {
  }

  lemma ListKeysSend(p: State, k: Keys, now: int)
    requires p.mode.ListMode?
    ensures forall m | m in ListKeys(p, k, now).0.sent :: MaySend(p, ListKeys(p, k, now).0.state, m)
  {
    ActivatedIsListed(ListKeys(p, k, now).0.state);
  }

  lemma DrawRowsSend(p: State, rows: nat -> RowAction)
    ensures forall m | m in DrawRows(p, rows).sent :: MaySend(p, DrawRows(p, rows).state, m)
  {
    ActivatedIsListed(DrawRows(p, rows).state);
  }

  /** Every request that any step sends is justified by what is on screen. */
  lemma SentIsJustified(t: Tools, p: State, step: UiStep)
    requires Possible(p, step)
    ensures forall m | m in Step(t, p, step).sent :: MaySend(p, Step(t, p, step).state, m)
  {
    hide Rank, Build, CycleFocus, FromExisting, DrawRows, ListKeys, ActivateSelected;
    match step {
      case TickStep(keys, chance) =>
        if p.visible && p.mode.ListMode? {
          ListKeysSend(p, keys, chance.now);
          EscapeSendsNothing(p, keys, chance.now);
        }
      case ListFrame(add, typed, rows, now) =>
        var p1 := if typed.Some? then Rerank(t, p.(query := typed.value, selected := 0)) else p;
        DrawRowsSend(p1, rows);
      case _ =>
    }
  }

  lemma EscapeSendsNothing(p: State, k: Keys, now: int)
    ensures ListKeys(p, k, now).1 ==> ListKeys(p, k, now).0 == Stepped(p, [])
  {
  }

  /** A confirmation is opened only from the list, for the row that is highlighted, with its name. */
  lemma ConfirmationsAreOpenedFromTheList(t: Tools, p: State, step: UiStep)
    requires Possible(p, step)
    ensures var p' := Step(t, p, step).state;
            p'.mode.ConfirmDelete? && p'.mode != p.mode ==>
              p.mode.ListMode? && Highlights(p', p'.mode.id) && ListsAs(p', p'.mode.id, p'.mode.name)
  {
    hide Rank, Build, CycleFocus, FromExisting, ActivateSelected, LastRow;
    match step {
      case TickStep(keys, chance) =>
        if Target(p).Some? {
          assert p.ranked[p.selected].meta == Target(p).value;
        }
      case ListFrame(add, typed, rows, now) =>
        var p1 := if typed.Some? then Rerank(t, p.(query := typed.value, selected := 0)) else p;
        RowsConfirmListed(p1, rows);
      case _ =>
    }
  }

  lemma RowsConfirmListed(p: State, rows: nat -> RowAction)
    requires p.mode.ListMode?
    ensures var p' := DrawRows(p, rows).state; p'.mode.ConfirmDelete? ==> Highlights(p', p'.mode.id) && ListsAs(p', p'.mode.id, p'.mode.name)
  {
    hide LastRow, ActivateSelected;
    var deleted := LastRow(rows, |p.ranked|, (r: RowAction) => r.deleted);
    if deleted.Some? && deleted.value < |p.ranked| {
      assert p.ranked[deleted.value].meta.id == DrawRows(p, rows).state.mode.id;
    }
  }

  /** Each step sends at most one deletion and at most one PIN. */
  lemma AtMostOneDelete(t: Tools, p: State, step: UiStep)
    requires Possible(p, step)
    ensures (exists m | m in Step(t, p, step).sent :: Asks(m)) ==> |Step(t, p, step).sent| == 1
  {
    hide Rank, Build, CycleFocus, FromExisting, DrawRows, ListKeys, Rerank;
    match step {
      case TickStep(keys, chance) =>
        if p.visible && p.mode.ListMode? {
          ListKeysAskNothing(p, keys, chance.now);
        }
      case ListFrame(add, typed, rows, now) =>
        var p1 := if typed.Some? then Rerank(t, p.(query := typed.value, selected := 0)) else p;
        RowsAskNothing(p1, rows);
      case _ =>
    }
  }

  predicate Asks(m: UiRequest) {
    m.DeleteRequest? || m.PinResponse?
  }

  lemma ListKeysAskNothing(p: State, k: Keys, now: int)
    ensures forall m | m in ListKeys(p, k, now).0.sent :: !Asks(m)
  {
  }

  lemma RowsAskNothing(p: State, rows: nat -> RowAction)
    ensures forall m | m in DrawRows(p, rows).sent :: !Asks(m)
  {
    hide LastRow;
  }

  /** A hidden popup holds no metadata. */
  predicate HeldOnlyWhileShown(p: State) {
    !p.visible ==> p.secrets == []
  }

  /** Metadata that arrives for a hidden popup. */
  predicate RefreshesHidden(p: State, step: UiStep) {
    step.EventStep? && step.event.Refresh? && !p.visible && step.event.secrets != []
  }

  /** A step leaves metadata in a hidden popup exactly when it delivers some to it. */
  lemma HeldOnlyExactly(t: Tools, p: State, step: UiStep)
    requires Possible(p, step) && HeldOnlyWhileShown(p)
    ensures HeldOnlyWhileShown(Step(t, p, step).state) <==> !RefreshesHidden(p, step)
  {
    hide Rank, Build, CycleFocus, FromExisting, LastRow, ActivateSelected;
  }

  // ---- The object ---------------------------------------------------------------------------

  class Popup {
    const tools: Tools
    /** Everything sent to the worker so far. */
    var sent: seq<UiRequest>
    var mode: Mode
    var secrets: seq<SecretMeta>
    var ranked: seq<Ranked>
    var context: SearchContext
    var query: string
    var selected: nat
    var lockState: UiLockState
    var visible: bool

    function View(): State
      reads this
    {
      State(mode, secrets, ranked, context, query, selected, lockState, visible)
    }

    constructor (tools: Tools)
      ensures this.tools == tools && View() == Initial() && sent == []
      ensures Consistent(tools, View())
    {
      this.tools := tools;
      sent := [];
      mode := ListMode;
      secrets := [];
      ranked := [];
      context := SearchContext(None, None);
      query := "";
      selected := 0;
      lockState := UiLocked;
      visible := false;
      new;
      InitialIsConsistent(tools);
    }

    method Send(m: UiRequest)
      modifies `sent
      ensures sent == old(sent) + [m]
    {
      sent := sent + [m];
    }

    method DoRerank()
      modifies `ranked, `selected
      ensures View() == Rerank(tools, old(View()))
    {
      ranked := RankSecrets(tools.searcher, secrets, query, context);
      if selected >= |ranked| {
        selected := if |ranked| == 0 then 0 else |ranked| - 1;
      }
    }

    method DoHide()
      modifies this
      ensures View() == HideIt(old(View())).state && sent == old(sent) + HideIt(old(View())).sent
    {
      if !visible {
        return;
      }
      visible := false;
      mode := ListMode;
      secrets := [];
      ranked := [];
      query := "";
      Send(Dismissed);
    }

    method DoHandleEvent(ev: DaemonEvent)
      modifies this
      ensures View() == HandleEvent(tools, old(View()), ev).state
      ensures sent == old(sent) + HandleEvent(tools, old(View()), ev).sent
      ensures old(Consistent(tools, View())) ==> Consistent(tools, View())
    {
      hide Rank, FromExisting, Consistent;
      ghost var before := View();
      match ev {
        case Show(metas, host, application) =>
          secrets := metas;
          context := SearchContext(host, application);
          query := "";
          selected := 0;
          DoRerank();
          mode := ListMode;
          visible := true;
        case Hide => DoHide();
        case LockChanged(state) => lockState := state;
        case Error(_) =>
        case Status(_) =>
        case EditReady(meta, payload) =>
          mode := EditMode(FromExisting(tools.text, meta, payload));
          visible := true;
        case Refresh(metas) =>
          secrets := metas;
          DoRerank();
        case RequestPin(retry) =>
          mode := PinMode("", retry);
          visible := true;
      }
      if Consistent(tools, before) {
        StepKeepsConsistent(tools, before, EventStep(ev));
      }
    }

    method DoActivateSelected()
      modifies `sent
      ensures sent == old(sent) + ActivateSelected(View())
    {
      if selected >= |ranked| {
        return;
      }
      match lockState {
        case UiUnlocked(_) => Send(Use(ranked[selected].meta.id));
        case UiLocked => Send(UnlockRequest);
        case WaitingForTouch =>
      }
    }

    method DoListKeys(k: Keys, now: int) returns (close: bool)
      modifies this
      ensures View() == ListKeys(old(View()), k, now).0.state && sent == old(sent) + ListKeys(old(View()), k, now).0.sent
      ensures close == ListKeys(old(View()), k, now).1
    {
      if k.escape {
        return true;
      }
      if k.ctrl && k.n {
        mode := EditMode(NewEditor(now));
        return false;
      }
      if k.ctrl && k.e {
        if selected < |ranked| {
          Send(BeginEdit(ranked[selected].meta.id));
        }
        return false;
      }
      if k.ctrl && k.d {
        if selected < |ranked| {
          mode := ConfirmDelete(ranked[selected].meta.id, ranked[selected].meta.name);
        }
        return false;
      }
      if k.up || k.down {
        Send(TouchRequest);
      }
      if k.up && selected > 0 {
        selected := selected - 1;
      }
      if k.down && selected + 1 < |ranked| {
        selected := selected + 1;
      }
      if k.enter {
        DoActivateSelected();
      }
      close := false;
    }

    method DoSaveEditor(c: Chance)
      requires mode.EditMode?
      modifies this
      ensures View() == SaveEditor(old(View()), c).state && sent == old(sent) + SaveEditor(old(View()), c).sent
    {
      var isUpdate := mode.editor.id.Some?;
      match Build(mode.editor, c.newId, c.now) {
        case Ok((meta, payload)) =>
          Send(Save(meta, payload, isUpdate));
          mode := ListMode;
        case Err(message) =>
          mode := EditMode(mode.editor.(error := Some(message)));
      }
    }

    method DoEditKeys(k: Keys, c: Chance)
      requires mode.EditMode?
      modifies this
      ensures View() == EditKeys(old(View()), k, c).state && sent == old(sent) + EditKeys(old(View()), k, c).sent
    {
      if k.escape {
        mode := ListMode;
        return;
      }
      if k.tab {
        mode := EditMode(CycleFocus(mode.editor, k.shift));
      }
      if k.ctrl && k.s {
        DoSaveEditor(c);
      }
    }

    method DoConfirmKeys(k: Keys)
      requires mode.ConfirmDelete?
      modifies this
      ensures View() == ConfirmKeys(old(View()), k).state && sent == old(sent) + ConfirmKeys(old(View()), k).sent
    {
      if k.escape {
        mode := ListMode;
        return;
      }
      if k.enter {
        Send(DeleteRequest(mode.id));
        mode := ListMode;
      }
    }

    method DoPinKeys(k: Keys)
      requires mode.PinMode?
      modifies this
      ensures View() == PinKeys(old(View()), k).state && sent == old(sent) + PinKeys(old(View()), k).sent
    {
      if k.escape {
        Send(PinResponse(None));
        mode := ListMode;
        return;
      }
      if k.enter {
        if mode.value == "" {
          return;
        }
        Send(PinResponse(Some(mode.value)));
        mode := ListMode;
      }
    }

    method DoTick(k: Keys, c: Chance) returns (shown: bool)
      modifies this
      ensures View() == Tick(old(View()), k, c).state && sent == old(sent) + Tick(old(View()), k, c).sent
      ensures shown == visible
      ensures old(Consistent(tools, View())) ==> Consistent(tools, View())
    {
      hide Consistent, HideIt;
      ghost var before := View();
      if visible {
        var close := false;
        match mode {
          case ListMode => close := DoListKeys(k, c.now);
          case EditMode(_) => DoEditKeys(k, c);
          case ConfirmDelete(_, _) => DoConfirmKeys(k);
          case PinMode(_, _) => DoPinKeys(k);
        }
        if close {
          DoHide();
        }
      }
      shown := visible;
      if Consistent(tools, before) {
        StepKeepsConsistent(tools, before, TickStep(k, c));
      }
    }

    method DoDrawRows(rows: nat -> RowAction)
      modifies this
      ensures View() == DrawRows(old(View()), rows).state && sent == old(sent) + DrawRows(old(View()), rows).sent
    {
      var clicked, edited, deleted: Option<nat> := None, None, None;
      for i := 0 to |ranked|
        invariant clicked == LastRow(rows, i, (r: RowAction) => r.activated)
        invariant edited == LastRow(rows, i, (r: RowAction) => r.edited)
        invariant deleted == LastRow(rows, i, (r: RowAction) => r.deleted)
        invariant View() == old(View()) && sent == old(sent)
      {
        var row := rows(i);
        if row.activated {
          clicked := Some(i);
        }
        if row.edited {
          edited := Some(i);
        }
        if row.deleted {
          deleted := Some(i);
        }
      }
      if deleted.Some? && deleted.value < |ranked| {
        selected := deleted.value;
        mode := ConfirmDelete(ranked[deleted.value].meta.id, ranked[deleted.value].meta.name);
      } else if edited.Some? && edited.value < |ranked| {
        selected := edited.value;
        Send(BeginEdit(ranked[edited.value].meta.id));
      } else if clicked.Some? {
        selected := clicked.value;
        DoActivateSelected();
      }
    }

    method DoDrawList(add: bool, typed: Option<string>, rows: nat -> RowAction, now: int)
      requires visible && mode.ListMode?
      modifies this
      ensures View() == DrawList(tools, old(View()), add, typed, rows, now).state
      ensures sent == old(sent) + DrawList(tools, old(View()), add, typed, rows, now).sent
      ensures old(Consistent(tools, View())) ==> Consistent(tools, View())
    {
      hide Rank, DrawRows, LastRow, Consistent;
      ghost var before := View();
      if add {
        mode := EditMode(NewEditor(now));
      } else {
        if typed.Some? {
          query := typed.value;
          selected := 0;
          DoRerank();
          Send(TouchRequest);
        }
        DoDrawRows(rows);
      }
      if Consistent(tools, before) {
        StepKeepsConsistent(tools, before, ListFrame(add, typed, rows, now));
      }
    }

    method DoDrawEdit(form: Form, save: bool, cancel: bool, c: Chance)
      requires visible && mode.EditMode?
      modifies this
      ensures View() == DrawEdit(old(View()), form, save, cancel, c).state
      ensures sent == old(sent) + DrawEdit(old(View()), form, save, cancel, c).sent
    {
      mode := EditMode(mode.editor.(form := form));
      if cancel {
        mode := ListMode;
      } else if save {
        DoSaveEditor(c);
      }
    }

    method DoDrawPin(value: string)
      requires visible && mode.PinMode?
      modifies this
      ensures View() == DrawPin(old(View()), value).state && sent == old(sent)
    {
      mode := PinMode(value, mode.retry);
    }
  }
}
