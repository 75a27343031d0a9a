/**
 * The frontend's global store (the Recoil atoms) and the view context of one function
 * view, with the updaters the UI applies to them: setting and clearing a lineage's edit
 * state, forking, composing a new message, applying or discarding an edit, the view's
 * move to the end of its lineage, and the reducers of the socket events.
 */
module FrontendStore {
  import opened Wrappers
  import opened ChatTypes

  /** `IError`. */
  datatype ErrorRecord = ErrorRecord(lineageId: string, error: string)

  /** `IInterrupt`; the socket's acknowledgement callback is an opaque handle. */
  datatype Interrupt = Interrupt(funcName: string, ack: nat)

  type ForkTable = map<string, map<nat, seq<string>>>

  /** The atoms `stateHistoryByLineage`, `toolCallsToLineageIds`, `editState`,
      `forksByMessageIndex`, `running`, `error` and `interrupt`. */
  datatype Store = Store(
    history: map<string, seq<LooplitState>>,
    toolCallsToLineageIds: map<string, string>,
    editState: map<string, LooplitState>,
    forks: ForkTable,
    running: bool,
    error: Option<ErrorRecord>,
    interrupt: Option<Interrupt>)

  /** `IFunctionViewContext` without its setters: which view this is (`'root'` or the
      tool-call id of a nested view), its function, and where in the history it looks. */
  datatype View = View(id: string, name: string, currentLineageId: string, currentStateIndex: int)

  /** The payload of `callStatefulFunction`. */
  datatype StatefulCall = StatefulCall(funcName: string, lineageId: string, state: LooplitState)

  /** `useCurrentLineage`. */
  function CurrentLineage(s: Store, v: View): Option<seq<LooplitState>> {
    if v.currentLineageId in s.history then Some(s.history[v.currentLineageId]) else None
  }

  /** `useCurrentEditState`. */
  function CurrentEditState(s: Store, v: View): Option<LooplitState> {
    if v.currentLineageId in s.editState then Some(s.editState[v.currentLineageId]) else None
  }

  /** `useCurrentState`: the edit state if there is one, else the state at the index
      (`undefined` outside the lineage). */
  function CurrentState(s: Store, v: View): (r: Option<LooplitState>) {
    match CurrentEditState(s, v)
    case Some(e) => Some(e)
    case None =>
      match CurrentLineage(s, v)
      case None => None
      case Some(l) => if 0 <= v.currentStateIndex < |l| then Some(l[v.currentStateIndex]) else None
  }

  // ---------------------------------------------------------------- edit state

  /** `useSetEditState()(state)` for the lineage `lid`: a state (always truthy) is
      stored, `undefined` removes the key. */
  function SetEditState(prev: map<string, LooplitState>, lid: string, state: Option<LooplitState>): map<string, LooplitState> {
    match state
    case Some(st) => prev[lid := st]
    case None => prev - {lid}
  }

  /** The updater as written: a copy of `prev`, then one assignment or `delete` on it. */
  method SetEditStateUpdate(prev: map<string, LooplitState>, lid: string, state: Option<LooplitState>)
    returns (next: map<string, LooplitState>)
    ensures next == SetEditState(prev, lid, state)
  {
    next := prev;
    if state.Some? {
      next := next[lid := state.value];
    } else {
      next := next - {lid};
    }
  }

  /** Only `lid`'s entry changes: it holds the given state or is gone. Clearing after
      setting, or clearing twice, is the same as clearing once. */
  lemma {:induction false} SetEditStateSpec(prev: map<string, LooplitState>, lid: string, state: Option<LooplitState>, st: LooplitState)
    ensures var next := SetEditState(prev, lid, state);
            && (state.Some? ==> lid in next && next[lid] == state.value)
            && (state.None? ==> lid !in next)
            && (forall k :: k != lid ==> (k in next <==> k in prev))
            && (forall k :: k != lid && k in prev ==> next[k] == prev[k])
    ensures SetEditState(SetEditState(prev, lid, Some(st)), lid, None) == SetEditState(prev, lid, None)
    ensures SetEditState(SetEditState(prev, lid, None), lid, None) == SetEditState(prev, lid, None)
  {
  }

  // ---------------------------------------------------------------- forking

  /** The forks updater: `forks[id][messageIndex]` starts as `[currentLineageId]` when
      it does not exist yet, then the new lineage is appended. */
  function AddFork(prev: ForkTable, id: string, messageIndex: nat, current: string, newId: string): ForkTable {
    var inner := if id in prev then prev[id] else map[];
    var list := if messageIndex in inner then inner[messageIndex] else [current];
    prev[id := inner[messageIndex := list + [newId]]]
  }

  /** The updater as written: copy the table, create the view's entry and the index's
      list if missing, then replace the list by a copy with the new id. */
  method AddForkUpdate(prev: ForkTable, id: string, messageIndex: nat, current: string, newId: string)
    returns (updated: ForkTable)
    ensures updated == AddFork(prev, id, messageIndex, current, newId)
  {
    ghost var inner0 := if id in prev then prev[id] else map[];
    ghost var list0 := if messageIndex in inner0 then inner0[messageIndex] else [current];
    updated := prev;
    if id !in updated {
      updated := updated[id := map[]];
    }
    var inner: map<nat, seq<string>> := updated[id];
    if messageIndex !in inner {
      inner := inner[messageIndex := [current]];
      updated := updated[id := inner];
    }
    inner := updated[id];
    assert inner == inner0[messageIndex := list0];
    inner := inner[messageIndex := inner[messageIndex] + [newId]];
    assert inner == inner0[messageIndex := list0 + [newId]];
    updated := updated[id := inner];
  }

  /** The list at `(id, messageIndex)` gains the new lineage at its end; the first fork
      there gives `[current, new]`; every other list of the table is untouched. */
  lemma {:induction false} AddForkSpec(prev: ForkTable, id: string, messageIndex: nat, current: string, newId: string)
    ensures var t := AddFork(prev, id, messageIndex, current, newId);
            && id in t && messageIndex in t[id]
            && (id in prev && messageIndex in prev[id] ==>
                  t[id][messageIndex] == prev[id][messageIndex] + [newId])
            && (!(id in prev && messageIndex in prev[id]) ==> t[id][messageIndex] == [current, newId])
            && (forall k :: k in t <==> k in prev || k == id)
            && (forall k :: k in prev && k != id ==> t[k] == prev[k])
            && (forall n :: n in t[id] <==> n == messageIndex || (id in prev && n in prev[id]))
            && (forall n :: id in prev && n in prev[id] && n != messageIndex ==> t[id][n] == prev[id][n])
  {
  }

  /** `useForkState()(state, messageIndex)` with `newId` the fresh uuid: the state is
      copied under the new id as the only state of a new lineage, the fork is recorded,
      the view switches to the new lineage at index 0, and the function is called on it;
      `callStatefulFunction` clears the error atom before it emits the call.
      Returns the new store and view, the call made, and the id returned. */
  function Fork(s: Store, v: View, state: LooplitState, messageIndex: nat, newId: string): (Store, View, StatefulCall, string) {
    var newState := state.(id := newId);
    (s.(history := s.history[newId := [newState]],
        forks := AddFork(s.forks, v.id, messageIndex, v.currentLineageId, newId),
        error := None),
     v.(currentLineageId := newId, currentStateIndex := 0),
     StatefulCall(v.name, newId, newState),
     newId)
  }

  /** After a fork with a fresh id the history has exactly one more lineage, holding
      only the state under its new id; the others are unchanged; the view shows that
      state; the call runs the view's function on it; the error is cleared, so no view
      shows an alert; the edit states, the running flag, the interrupt and the tool-call
      table are untouched. */
  lemma {:induction false} ForkSpec(s: Store, v: View, state: LooplitState, messageIndex: nat, newId: string)
    requires newId !in s.history
    ensures var (s', v', call, r) := Fork(s, v, state, messageIndex, newId);
            var newState := state.(id := newId);
            && r == newId && newState.messages == state.messages && newState.tools == state.tools
            && s'.history.Keys == s.history.Keys + {newId}
            && s'.history[newId] == [newState]
            && (forall k :: k in s.history ==> s'.history[k] == s.history[k])
            && s'.forks == AddFork(s.forks, v.id, messageIndex, v.currentLineageId, newId)
            && v'.currentLineageId == newId && v'.currentStateIndex == 0
            && v'.id == v.id && v'.name == v.name
            && CurrentState(s', v') == (if newId in s.editState then Some(s.editState[newId]) else Some(newState))
            && call == StatefulCall(v.name, newId, newState)
            && s'.editState == s.editState && s'.toolCallsToLineageIds == s.toolCallsToLineageIds
            && s'.running == s.running && s'.error == None && s'.interrupt == s.interrupt
            && forall w :: !ErrorShown(s', w)
  {
  }

  // ---------------------------------------------------------------- composing

  /** JavaScript truthiness of a message's content: `''` and `undefined` are falsy, any
      array (even empty) is truthy. */
  predicate Truthy(c: Content) {
    match c
    case NoContent => false
    case TextContent(t) => t != ""
    case Parts(_) => true
  }

  /** `arr.splice(start)` keeps the elements before `start`; a negative start counts
      from the end. */
  function SpliceKeep<T>(s: seq<T>, start: int): (r: seq<T>)
    ensures r <= s
  {
    if start >= 0 then Take(s, start)
    else if |s| + start >= 0 then s[..|s| + start]
    else []
  }

  /** The history updater of `addMessage` as written: copy the lineage (or `[]`),
      `splice` it after the current index, `push` the new state. */
  method TruncateAndPush(prev: map<string, seq<LooplitState>>, lid: string, index: int, newState: LooplitState)
    returns (next: map<string, seq<LooplitState>>)
    ensures next == prev[lid := SpliceKeep(if lid in prev then prev[lid] else [], index + 1) + [newState]]
  {
    var lineage := if lid in prev then prev[lid] else [];
    lineage := SpliceKeep(lineage, index + 1);
    lineage := lineage + [newState];
    next := prev[lid := lineage];
  }

  /** What `addMessage(send)` leaves behind. */
  datatype Composed = Composed(store: Store, view: View, composer: UiMessage, call: Option<StatefulCall>)

  /** `addMessage`'s guard: nothing runs, the composer has content, no edit state. */
  predicate ComposerDisabled(s: Store, v: View, composer: UiMessage) {
    s.running || !Truthy(composer.content) || CurrentEditState(s, v).Some?
  }

  /** The state `addMessage` creates: the current one (or nothing) under a fresh id,
      with a copy of its tools (or none) and the composer message appended. */
  function ComposedState(current: Option<LooplitState>, composer: UiMessage, newId: string): LooplitState {
    match current
    case None => LooplitState(newId, [composer], Some([]))
    case Some(c) => LooplitState(newId, c.messages + [composer], Some(c.tools.GetOr([])))
  }

  /** `addMessage(send)` with `newId` the fresh uuid; sending goes through
      `callStatefulFunction`, which clears the error atom. */
  function AddMessage(s: Store, v: View, composer: UiMessage, send: bool, newId: string): Composed {
    if ComposerDisabled(s, v, composer) then Composed(s, v, composer, None)
    else
      var newState := ComposedState(CurrentState(s, v), composer, newId);
      var lid := v.currentLineageId;
      var before := if lid in s.history then s.history[lid] else [];
      Composed(
        s.(history := s.history[lid := SpliceKeep(before, v.currentStateIndex + 1) + [newState]],
           error := if send then None else s.error),
        v.(currentStateIndex := v.currentStateIndex + 1),
        UiMessage(composer.role, TextContent(""), None, None, None),
        if send then Some(StatefulCall(v.name, lid, newState)) else None)
  }

  /** A disabled composer changes nothing and calls nothing. */
  lemma {:induction false} AddMessageDisabled(s: Store, v: View, composer: UiMessage, send: bool, newId: string)
    requires ComposerDisabled(s, v, composer)
    ensures AddMessage(s, v, composer, send, newId) == Composed(s, v, composer, None)
  {
  }

  /** The new state keeps the current conversation and adds the composer's message at
      its end, under the fresh id, with the current tools (or an empty list). */
  lemma {:induction false} ComposedStateSpec(current: Option<LooplitState>, composer: UiMessage, newId: string)
    ensures var st := ComposedState(current, composer, newId);
            && st.id == newId
            && st.messages == (if current.Some? then current.value.messages else []) + [composer]
            && st.messages[|st.messages| - 1] == composer
            && st.tools == Some(if current.Some? && current.value.tools.Some? then current.value.tools.value else [])
  {
  }

  /** An enabled composer: the current lineage becomes its states up to the current
      index followed by the state composed from the current one; every other lineage is
      kept; the index moves up by one; the composer keeps its role and is emptied; the
      function is called, on the current lineage with the new state, iff `send`; a send
      clears the error, and every other atom is kept. */
  lemma {:induction false} AddMessageSpec(s: Store, v: View, composer: UiMessage, send: bool, newId: string)
    requires !ComposerDisabled(s, v, composer)
    ensures var r := AddMessage(s, v, composer, send, newId);
            var lid := v.currentLineageId;
            var before := if lid in s.history then s.history[lid] else [];
            var newState := ComposedState(CurrentState(s, v), composer, newId);
            && lid in r.store.history
            && |r.store.history[lid]| >= 1
            && r.store.history[lid][|r.store.history[lid]| - 1] == newState
            && r.store.history[lid][..|r.store.history[lid]| - 1] <= before
            && (forall k :: k in s.history && k != lid ==> k in r.store.history && r.store.history[k] == s.history[k])
            && r.store.history.Keys == s.history.Keys + {lid}
            && r.store.(history := s.history, error := s.error) == s
            && r.store.error == (if send then None else s.error)
            && (send ==> forall w :: !ErrorShown(r.store, w))
            && r.view == v.(currentStateIndex := v.currentStateIndex + 1)
            && r.composer.role == composer.role && r.composer.content == TextContent("")
            && (r.call.Some? <==> send)
            && (send ==> r.call == Some(StatefulCall(v.name, lid, newState)))
  {
    var r := AddMessage(s, v, composer, send, newId);
    var lid := v.currentLineageId;
    var before := if lid in s.history then s.history[lid] else [];
    var newState := ComposedState(CurrentState(s, v), composer, newId);
    var kept := SpliceKeep(before, v.currentStateIndex + 1);
    var nl := kept + [newState];
    assert r.store.history == s.history[lid := nl];
    assert nl[..|nl| - 1] == kept;
  }

  /** From a position inside the lineage the new state lands right after it, the
      states up to it are kept, and the view's new index shows the new state. */
  lemma {:induction false} AddMessageShowsNewState(s: Store, v: View, composer: UiMessage, send: bool, newId: string)
    requires !ComposerDisabled(s, v, composer)
    requires v.currentLineageId in s.history
    requires 0 <= v.currentStateIndex < |s.history[v.currentLineageId]|
    ensures var r := AddMessage(s, v, composer, send, newId);
            var l := s.history[v.currentLineageId];
            && r.store.history[v.currentLineageId] == l[..v.currentStateIndex + 1] + [ComposedState(Some(l[v.currentStateIndex]), composer, newId)]
            && CurrentState(r.store, r.view) == Some(ComposedState(Some(l[v.currentStateIndex]), composer, newId))
  {
  }

  // ---------------------------------------------------------------- edit mode

  /** The edit-mode controls are shown for a lineage that has an edit state. */
  predicate EditControlsShown(s: Store, v: View) {
    CurrentEditState(s, v).Some?
  }

  /** "Remove changes": the edit state is cleared. */
  function Discard(s: Store, v: View): Store {
    s.(editState := SetEditState(s.editState, v.currentLineageId, None))
  }

  /** "Apply changes": the edit state is cleared and appended to the END of the current
      lineage, and the index moves up by one. Spreading a missing lineage throws. */
  function Apply(s: Store, v: View): (r: Result<(Store, View), string>)
    requires EditControlsShown(s, v)
  {
    var lid := v.currentLineageId;
    if lid !in s.history then Err("TypeError")
    else Ok((s.(editState := SetEditState(s.editState, lid, None),
                history := s.history[lid := s.history[lid] + [s.editState[lid]]]),
             v.(currentStateIndex := v.currentStateIndex + 1)))
  }

  /** Discarding keeps the history and all other edit states and leaves the view on
      the lineage's own state; applying appends the edited state, keeps every other
      lineage and leaves no edit state behind. */
  lemma {:induction false} EditModeSpec(s: Store, v: View)
    requires EditControlsShown(s, v)
    ensures var d := Discard(s, v);
            && d.history == s.history && !EditControlsShown(d, v)
            && (forall k :: k != v.currentLineageId ==> (k in d.editState <==> k in s.editState))
            && CurrentState(d, v) == (match CurrentLineage(s, v)
                                      case None => None
                                      case Some(l) => if 0 <= v.currentStateIndex < |l| then Some(l[v.currentStateIndex]) else None)
    ensures Apply(s, v).Err? <==> v.currentLineageId !in s.history
    ensures Apply(s, v).Ok? ==>
              var (a, w) := Apply(s, v).value;
              var lid := v.currentLineageId;
              && a.history[lid] == s.history[lid] + [s.editState[lid]]
              && (forall k :: k in s.history && k != lid ==> a.history[k] == s.history[k])
              && a.history.Keys == s.history.Keys
              && !EditControlsShown(a, w)
              && w.currentStateIndex == v.currentStateIndex + 1
              && a.forks == s.forks && a.running == s.running
  {
  }

  /** The function view's effect (views/function/index.tsx): whenever its lineage
      changes, the index moves to the lineage's last state. */
  function Settle(s: Store, v: View): View {
    match CurrentLineage(s, v)
    case None => v
    case Some(l) => v.(currentStateIndex := |l| - 1)
  }

  /** After the view settles, an applied edit is what is shown, even when the edit was
      made on an older state; the index `apply` itself sets points at it only when the
      edit was made on the last state. */
  lemma {:induction false} ApplyThenSettle(s: Store, v: View)
    requires EditControlsShown(s, v) && Apply(s, v).Ok?
    ensures var (a, w) := Apply(s, v).value;
            && CurrentState(a, Settle(a, w)) == Some(s.editState[v.currentLineageId])
            && (0 <= v.currentStateIndex < |s.history[v.currentLineageId]| ==>
                  (CurrentState(a, w) == Some(s.editState[v.currentLineageId])
                     <== v.currentStateIndex == |s.history[v.currentLineageId]| - 1))
            && (0 <= v.currentStateIndex < |s.history[v.currentLineageId]| - 1 ==>
                  CurrentState(a, w) == Some(s.history[v.currentLineageId][v.currentStateIndex + 1]))
  {
  }

  /** Settling after composing does not move the view: the new state is already the
      last one whenever the index was inside the lineage. */
  lemma {:induction false} ComposeSettled(s: Store, v: View, composer: UiMessage, send: bool, newId: string)
    requires !ComposerDisabled(s, v, composer)
    requires v.currentLineageId in s.history
    requires 0 <= v.currentStateIndex < |s.history[v.currentLineageId]|
    ensures var r := AddMessage(s, v, composer, send, newId);
            Settle(r.store, r.view) == r.view
  {
  }

  // ---------------------------------------------------------------- socket events

  /** The events the frontend listens to that change the store. */
  datatype SocketEvent =
    | StartEvent
    | EndEvent
    | ErrorEvent(record: ErrorRecord)
    | InterruptEvent(funcName: string, ack: nat)
    | OutputStateEvent(funcName: string, lineageId: string, state: LooplitState)
    | MapTcToLidEvent(tc: string, lid: string)

  /** The listeners' updaters. */
  function Receive(s: Store, e: SocketEvent): Store {
    match e
    case StartEvent => s.(running := true)
    case EndEvent => s.(running := false)
    case ErrorEvent(r) => s.(error := Some(r))
    case InterruptEvent(f, ack) => s.(interrupt := Some(Interrupt(f, ack)))
    case OutputStateEvent(_, lid, st) =>
      s.(history := s.history[lid := (if lid in s.history then s.history[lid] else []) + [st]])
    case MapTcToLidEvent(tc, lid) => s.(toolCallsToLineageIds := s.toolCallsToLineageIds[tc := lid])
  }

  /** Each event touches one atom: running, the error, the interrupt, one lineage's
      list (which gains the state at its end, or is created as `[state]`), or one
      tool-call mapping (which is overwritten). */
  lemma {:induction false} ReceiveSpec(s: Store, e: SocketEvent)
    ensures var r := Receive(s, e);
            && (e.StartEvent? ==> r == s.(running := true))
            && (e.EndEvent? ==> r == s.(running := false))
            && (e.ErrorEvent? ==> r.error == Some(e.record) && r.(error := s.error) == s)
            && (e.InterruptEvent? ==> r.interrupt == Some(Interrupt(e.funcName, e.ack)) && r.(interrupt := s.interrupt) == s)
            && (e.OutputStateEvent? ==>
                  && r.history[e.lineageId] == (if e.lineageId in s.history then s.history[e.lineageId] else []) + [e.state]
                  && (e.lineageId !in s.history ==> r.history[e.lineageId] == [e.state])
                  && (forall k :: k in s.history && k != e.lineageId ==> r.history[k] == s.history[k])
                  && r.history.Keys == s.history.Keys + {e.lineageId}
                  && r.(history := s.history) == s)
            && (e.MapTcToLidEvent? ==>
                  && r.toolCallsToLineageIds[e.tc] == e.lid
                  && (forall k :: k in s.toolCallsToLineageIds && k != e.tc ==> r.toolCallsToLineageIds[k] == s.toolCallsToLineageIds[k])
                  && r.(toolCallsToLineageIds := s.toolCallsToLineageIds) == s)
  {
  }

  /** Events in order. */
  function ReceiveAll(s: Store, es: seq<SocketEvent>): Store
    decreases |es|
  {
    if es == [] then s else Receive(ReceiveAll(s, es[..|es| - 1]), es[|es| - 1])
  }

  /** The states one event sequence outputs for a lineage, in order. */
  function OutputsFor(es: seq<SocketEvent>, lid: string): (r: seq<LooplitState>)
    ensures |r| <= |es|
    decreases |es|
  {
    if es == [] then []
    else OutputsFor(es[..|es| - 1], lid)
         + (match es[|es| - 1] case OutputStateEvent(_, l, st) => if l == lid then [st] else [] case _ => [])
  }

  /** Over a run, a lineage's history is its old list followed by every state output
      for it, in the order they arrived; a lineage nothing was output for is untouched. */
  lemma {:induction false} ReceiveAllHistory(s: Store, es: seq<SocketEvent>, lid: string)
    ensures var r := ReceiveAll(s, es);
            && (lid in r.history <==> lid in s.history || OutputsFor(es, lid) != [])
            && (lid in r.history ==>
                  r.history[lid] == (if lid in s.history then s.history[lid] else []) + OutputsFor(es, lid))
    decreases |es|
  {
    if es != [] {
      var init := es[..|es| - 1];
      var e := es[|es| - 1];
      ReceiveAllHistory(s, init, lid);
      var mid := ReceiveAll(s, init);
      assert ReceiveAll(s, es) == Receive(mid, e);
      if e.OutputStateEvent? && e.lineageId == lid {
        assert OutputsFor(es, lid) == OutputsFor(init, lid) + [e.state];
      } else {
        assert OutputsFor(es, lid) == OutputsFor(init, lid);
        assert e.OutputStateEvent? ==> Receive(mid, e).history == mid.history[e.lineageId := (if e.lineageId in mid.history then mid.history[e.lineageId] else []) + [e.state]];
        assert !e.OutputStateEvent? ==> Receive(mid, e).history == mid.history;
      }
    }
  }

  /** After a run started from nothing running, the store is running exactly when the
      last `start`/`end` event was a `start`. */
  predicate LastStartEnd(es: seq<SocketEvent>, running: bool)
    decreases |es|
  {
    if es == [] then running
    else if es[|es| - 1].StartEvent? then true
    else if es[|es| - 1].EndEvent? then false
    else LastStartEnd(es[..|es| - 1], running)
  }

  lemma {:induction false} ReceiveAllRunning(s: Store, es: seq<SocketEvent>)
    ensures ReceiveAll(s, es).running == LastStartEnd(es, s.running)
    decreases |es|
  {
    if es != [] {
      var init := es[..|es| - 1];
      ReceiveAllRunning(s, init);
      assert ReceiveAll(s, es) == Receive(ReceiveAll(s, init), es[|es| - 1]);
    }
  }

  /** An output for the lineage a view shows moves it, once settled, to the new state
      (unless the lineage has an edit state, which stays in front). */
  lemma {:induction false} OutputFollowed(s: Store, v: View, f: string, st: LooplitState)
    requires v.currentLineageId !in s.editState
    ensures var r := Receive(s, OutputStateEvent(f, v.currentLineageId, st));
            CurrentState(r, Settle(r, v)) == Some(st)
  {
  }

  /** The chat body's error alert: shown when the stored error belongs to the lineage
      the view is on. */
  predicate ErrorShown(s: Store, v: View) {
    s.error.Some? && s.error.value.lineageId == v.currentLineageId
  }

  /** The error record the last `error` event of a run carried, or `prior` without one. */
  function LastError(es: seq<SocketEvent>, prior: Option<ErrorRecord>): Option<ErrorRecord>
    decreases |es|
  {
    if es == [] then prior
    else match es[|es| - 1]
      case ErrorEvent(r) => Some(r)
      case _ => LastError(es[..|es| - 1], prior)
  }

  /** No socket event clears an error: after a run the store holds the last error
      received, and the alert shows on exactly the views of that error's lineage. Only a
      new call (a send or a fork) clears it. */
  lemma {:induction false} ReceiveAllError(s: Store, es: seq<SocketEvent>, v: View)
    ensures ReceiveAll(s, es).error == LastError(es, s.error)
    ensures ErrorShown(ReceiveAll(s, es), v)
            <==> LastError(es, s.error).Some? && LastError(es, s.error).value.lineageId == v.currentLineageId
    decreases |es|
  {
    if es != [] {
      var init := es[..|es| - 1];
      ReceiveAllError(s, init, v);
      assert ReceiveAll(s, es) == Receive(ReceiveAll(s, init), es[|es| - 1]);
    }
  }

  /** An error for the viewed lineage shows its alert; composing without sending keeps
      it, while sending hides it. */
  lemma {:induction false} SendClearsError(s: Store, v: View, e: ErrorRecord, composer: UiMessage, newId: string)
    requires e.lineageId == v.currentLineageId
    requires !ComposerDisabled(Receive(s, ErrorEvent(e)), v, composer)
    ensures ErrorShown(Receive(s, ErrorEvent(e)), v)
    ensures var a := AddMessage(Receive(s, ErrorEvent(e)), v, composer, false, newId);
            ErrorShown(a.store, a.view)
    ensures var a := AddMessage(Receive(s, ErrorEvent(e)), v, composer, true, newId);
            !ErrorShown(a.store, a.view)
  {
  }
}
