/**
 * Moving through the history: the state header's undo/redo of the current index, the
 * fork button under a message, and the fork navigator that switches between the
 * lineages forked at one message.
 */
module Navigation {
  import opened Wrappers
  import opened ChatTypes
  import opened FrontendStore

  // ---------------------------------------------------------------- lineage navigation

  /** A key press as the handler reads it: `event.key`, whether Cmd or Ctrl is held, and
      whether Shift is held. */
  datatype KeyPress = KeyPress(key: string, command: bool, shift: bool)

  /** One step through the lineage: a redo goes forward while below the last state, an
      undo back while above 0. Reading the length of a missing lineage throws. */
  function Step(index: int, lineage: Option<nat>, redo: bool): Result<int, string> {
    if redo then
      match lineage
      case None => Err("TypeError")
      case Some(len) => Ok(if index < len - 1 then index + 1 else index)
    else Ok(if index > 0 then index - 1 else index)
  }

  /** The shortcut test as written: Cmd or Ctrl with `event.key === 'z'`, case-sensitive. */
  predicate IsShortcut(k: KeyPress) {
    k.command && k.key == "z"
  }

  /** The handler as written: in edit mode, and for any key that fails the shortcut test,
      nothing moves; otherwise Shift makes the step a redo. */
  function KeyDown(index: int, lineage: Option<nat>, editing: bool, k: KeyPress): Result<int, string> {
    if editing || !IsShortcut(k) then Ok(index) else Step(index, lineage, k.shift)
  }

  /** Whether the handler calls `preventDefault`. */
  predicate DefaultPrevented(editing: bool, k: KeyPress) {
    !editing && IsShortcut(k)
  }

  /** The shortcut its comments name, Cmd/Ctrl+Z and Cmd/Ctrl+Shift+Z, with the letter in
      either case: browsers report `'Z'` while Shift or Caps Lock is on. */
  predicate IsShortcutIntended(k: KeyPress) {
    k.command && (k.key == "z" || k.key == "Z")
  }

  function KeyDownIntended(index: int, lineage: Option<nat>, editing: bool, k: KeyPress): Result<int, string> {
    if editing || !IsShortcutIntended(k) then Ok(index) else Step(index, lineage, k.shift)
  }

  const Undo := KeyPress("z", true, false)
  const Redo := KeyPress("z", true, true)

  /** The "previous state" button is enabled unless at 0 or in edit mode. */
  predicate PrevEnabled(index: int, editing: bool) {
    !(index == 0 || editing)
  }

  /** The "next state" button is enabled unless at the last state or in edit mode. */
  predicate NextEnabled(index: int, len: nat, editing: bool) {
    !(index == len - 1 || editing)
  }

  /** The counter `index + 1 / length`. */
  function Counter(index: int, len: nat): (int, nat) {
    (index + 1, len)
  }

  /** From an index inside a lineage every navigation the header allows, by key or
      button, stays inside it, both as written and as intended; in edit mode nothing
      moves; the counter then reads between `1/len` and `len/len`. */
  lemma {:induction false} LineageNavInRange(index: int, len: nat, editing: bool, k: KeyPress)
    requires 0 <= index < len
    ensures KeyDown(index, Some(len), editing, k).Ok?
    ensures 0 <= KeyDown(index, Some(len), editing, k).value < len
    ensures KeyDownIntended(index, Some(len), editing, k).Ok?
    ensures 0 <= KeyDownIntended(index, Some(len), editing, k).value < len
    ensures editing ==> (KeyDown(index, Some(len), editing, k).value == index
                         && KeyDownIntended(index, Some(len), editing, k).value == index
                         && !PrevEnabled(index, editing) && !NextEnabled(index, len, editing))
    ensures PrevEnabled(index, editing) ==> 0 <= index - 1 < len
    ensures NextEnabled(index, len, editing) ==> 0 <= index + 1 < len
    ensures 1 <= Counter(index, len).0 <= Counter(index, len).1
  {
  }

  /** Undo and redo are inverse away from the bounds, and stop at them. */
  lemma {:induction false} UndoRedoInverse(index: int, len: nat)
    requires 0 <= index < len
    ensures index > 0 ==> KeyDown(KeyDown(index, Some(len), false, Undo).value, Some(len), false, Redo) == Ok(index)
    ensures index < len - 1 ==> KeyDown(KeyDown(index, Some(len), false, Redo).value, Some(len), false, Undo) == Ok(index)
    ensures index == 0 ==> KeyDown(index, Some(len), false, Undo) == Ok(0)
    ensures index == len - 1 ==> KeyDown(index, Some(len), false, Redo) == Ok(len - 1)
  {
  }

  /** As written, a key press moves the index only when `event.key` is exactly `'z'`:
      Ctrl+Shift+Z reported as `'Z'` neither redoes nor prevents the default action,
      where the intended handler redoes. */
  lemma {:induction false} RedoNeedsLowercase(index: int, len: nat)
    requires 0 <= index < len - 1
    ensures KeyDown(index, Some(len), false, KeyPress("Z", true, true)) == Ok(index)
    ensures !DefaultPrevented(false, KeyPress("Z", true, true))
    ensures KeyDownIntended(index, Some(len), false, KeyPress("Z", true, true)) == Ok(index + 1)
    ensures KeyDown(index, Some(len), false, Redo) == Ok(index + 1)
  {
  }

  /** The intended handler agrees with the written one on every key the written one
      recognises, and on every key the two reject; they differ only on `'Z'`. */
  lemma {:induction false} KeyDownIntendedAgrees(index: int, lineage: Option<nat>, editing: bool, k: KeyPress)
    ensures k.key != "Z" ==> KeyDownIntended(index, lineage, editing, k) == KeyDown(index, lineage, editing, k)
    ensures k.key == "Z" ==> KeyDown(index, lineage, editing, k) == Ok(index)
    ensures k.key == "Z" ==>
              KeyDownIntended(index, lineage, editing, k) == KeyDown(index, lineage, editing, k.(key := "z"))
  {
  }

  /** The buttons compare with `===`: below 0 the "previous" button stays enabled, so
      the bound holds only from inside the lineage. An empty lineage, which the view
      settles at index -1, shows this. */
  lemma {:induction false} ButtonsOutsideRange()
    ensures PrevEnabled(-1, false) && !NextEnabled(-1, 0, false) && Counter(-1, 0) == (0, 0)
  {
  }

  // ---------------------------------------------------------------- fork button

  /** Whether the fork button shows under message `index`: the view has a lineage and a
      current state, some state of the lineage ends at that message, and the message is
      a user or tool message. (The chat body only renders it under existing messages.) */
  predicate ForkShown(s: Store, v: View, index: nat) {
    && CurrentLineage(s, v).Some?
    && CurrentState(s, v).Some?
    && (exists k :: 0 <= k < |CurrentLineage(s, v).value|
                    && |CurrentLineage(s, v).value[k].messages| - 1 == index)
    && index < |CurrentState(s, v).value.messages|
    && CurrentState(s, v).value.messages[index].role in ["user", "tool"]
  }

  /** The state the button forks: a copy of the current state cut after `index`. */
  function ForkedState(current: LooplitState, index: nat): LooplitState {
    current.(messages := Take(current.messages, index + 1))
  }

  /** The click: nothing while hidden or running; otherwise the lineage's edit state is
      cleared and the truncated current state is forked at `index`. */
  function ForkClick(s: Store, v: View, index: nat, newId: string): Option<(Store, View, StatefulCall, string)> {
    if !ForkShown(s, v, index) || s.running then None
    else
      var state := ForkedState(CurrentState(s, v).value, index);
      var cleared := s.(editState := SetEditState(s.editState, v.currentLineageId, None));
      Some(Fork(cleared, v, state, index, newId))
  }

  /** The forked state holds the current conversation up to and including message
      `index`, which is a user or tool message, with the same tools, under the new id; the
      old lineage's edit state is gone (an edited state is what gets forked); the fork is
      recorded at `index`, the view moves to the new lineage, and the error is cleared. */
  lemma {:induction false} ForkClickSpec(s: Store, v: View, index: nat, newId: string)
    requires ForkShown(s, v, index) && !s.running && newId !in s.history
    ensures var c := CurrentState(s, v).value;
            var r := ForkClick(s, v, index, newId);
            && r.Some?
            && var (s', v', call, id) := r.value;
            && id == newId
            && s'.history[newId] == [call.state]
            && call.state.messages == c.messages[..index + 1]
            && call.state.messages[index].role in ["user", "tool"]
            && call.state.tools == c.tools && call.state.id == newId
            && v.currentLineageId !in s'.editState
            && (forall k :: k != v.currentLineageId && k in s.editState ==> k in s'.editState)
            && s'.forks == AddFork(s.forks, v.id, index, v.currentLineageId, newId)
            && v'.currentLineageId == newId && v'.currentStateIndex == 0
            && s'.error == None && !ErrorShown(s', v')
  {
  }

  // ---------------------------------------------------------------- fork navigation

  /** `forksByMessage[id]?.[index]`. */
  function ForksAt(t: ForkTable, id: string, index: nat): Option<seq<string>> {
    if id in t && index in t[id] then Some(t[id][index]) else None
  }

  /** `Array.prototype.findIndex` for equality: the first position, or -1. */
  function FindIndex(fs: seq<string>, x: string): (r: int)
    ensures -1 <= r < |fs|
    decreases |fs|
  {
    if fs == [] then -1
    else if fs[0] == x then 0
    else var k := FindIndex(fs[1..], x); if k == -1 then -1 else k + 1
  }

  /** `findIndex` answers the first position holding the value, and -1 exactly when
      the value is absent. */
  lemma {:induction false} FindIndexSpec(fs: seq<string>, x: string)
    ensures FindIndex(fs, x) == -1 <==> x !in fs
    ensures FindIndex(fs, x) >= 0 ==> (fs[FindIndex(fs, x)] == x
                                       && forall j :: 0 <= j < FindIndex(fs, x) ==> fs[j] != x)
    decreases |fs|
  {
    if fs != [] && fs[0] != x {
      FindIndexSpec(fs[1..], x);
      if x in fs {
        var j :| 0 <= j < |fs| && fs[j] == x;
        assert fs[1..][j - 1] == x;
      }
      if FindIndex(fs, x) >= 0 {
        forall j | 0 <= j < FindIndex(fs, x) ensures fs[j] != x {
          if j > 0 { assert fs[j] == fs[1..][j - 1]; }
        }
      }
    }
  }

  /** What the navigator renders: nothing, or the position with its counter and which
      of its two buttons is enabled. */
  datatype ForkNavView = Hidden | Shown(position: int, count: nat, prevEnabled: bool, nextEnabled: bool)

  /** The navigator as written: hidden without forks; the position is `findIndex`; the
      guard `currentForkIndex === undefined` never holds, so -1 is rendered. */
  function ForkNavAsWritten(t: ForkTable, id: string, index: nat, current: string, editing: bool): ForkNavView {
    match ForksAt(t, id, index)
    case None => Hidden
    case Some(fs) =>
      if |fs| == 0 then Hidden
      else
        var pos := FindIndex(fs, current);
        Shown(pos, |fs|, !(pos == 0 || editing), !(pos == |fs| - 1 || editing))
  }

  /** The navigator with the guard the code evidently means: hidden as well when the
      current lineage is not among the forks. */
  function ForkNav(t: ForkTable, id: string, index: nat, current: string, editing: bool): ForkNavView {
    match ForksAt(t, id, index)
    case None => Hidden
    case Some(fs) =>
      var pos := FindIndex(fs, current);
      if |fs| == 0 || pos == -1 then Hidden
      else Shown(pos, |fs|, !(pos == 0 || editing), !(pos == |fs| - 1 || editing))
  }

  /** A button's click: the neighbouring lineage, at its last state. Reading a
      position outside the list gives `undefined`, and the length of its history throws;
      so does a lineage without history. */
  function GoTo(fs: seq<string>, target: int, history: map<string, seq<LooplitState>>): Result<(string, int), string> {
    if !(0 <= target < |fs|) || fs[target] !in history then Err("TypeError")
    else Ok((fs[target], |history[fs[target]]| - 1))
  }

  /** As written, a current lineage missing from a non-empty fork list is shown at
      position -1: the counter reads `0/n`, "previous" is enabled although nothing comes
      before, and clicking it reads position -2 and fails. */
  lemma {:induction false} ForkNavAsWrittenMissing(t: ForkTable, id: string, index: nat, current: string,
                                                   history: map<string, seq<LooplitState>>)
    requires ForksAt(t, id, index).Some? && |ForksAt(t, id, index).value| > 0
    requires current !in ForksAt(t, id, index).value
    ensures var view := ForkNavAsWritten(t, id, index, current, false);
            && view.Shown? && view.position == -1 && view.position + 1 == 0
            && view.prevEnabled
            && GoTo(ForksAt(t, id, index).value, view.position - 1, history).Err?
  {
    FindIndexSpec(ForksAt(t, id, index).value, current);
  }

  /** Two forks reach that case: fork at message 2 while on `root`, then fork again at
      message 4 while on the new lineage; on the second new lineage message 2's navigator
      lists `root` and the first fork only. */
  lemma {:induction false} ForkTwiceLosesPosition()
    ensures var t1 := AddFork(map[], "root", 2, "root", "L1");
            var t2 := AddFork(t1, "root", 4, "L1", "L2");
            && ForksAt(t2, "root", 2) == Some(["root", "L1"])
            && ForkNavAsWritten(t2, "root", 2, "L2", false) == Shown(-1, 2, true, true)
            && ForkNav(t2, "root", 2, "L2", false) == Hidden
  {
    var t1 := AddFork(map[], "root", 2, "root", "L1");
    var t2 := AddFork(t1, "root", 4, "L1", "L2");
    assert t2["root"][2] == ["root", "L1"];
    assert FindIndex(["root", "L1"], "L2") == -1 by {
      FindIndexSpec(["root", "L1"], "L2");
    }
  }

  /** The guarded navigator is shown only on a lineage that is in the list, at its
      position; each enabled button leads to an existing neighbour; the counter reads
      between `1/n` and `n/n`; in edit mode both buttons are disabled. */
  lemma {:induction false} ForkNavSpec(t: ForkTable, id: string, index: nat, current: string, editing: bool)
    ensures var view := ForkNav(t, id, index, current, editing);
            && (view.Shown? <==> ForksAt(t, id, index).Some? && current in ForksAt(t, id, index).value)
            && (view.Shown? ==>
                  var fs := ForksAt(t, id, index).value;
                  && view.count == |fs| && 0 <= view.position < |fs| && fs[view.position] == current
                  && 1 <= view.position + 1 <= view.count
                  && (view.prevEnabled ==> 0 <= view.position - 1 < |fs|)
                  && (view.nextEnabled ==> 0 <= view.position + 1 < |fs|)
                  && (editing ==> !view.prevEnabled && !view.nextEnabled))
  {
    if ForksAt(t, id, index).Some? {
      FindIndexSpec(ForksAt(t, id, index).value, current);
    }
  }

  /** The guard changes only the missing case: whenever the current lineage is listed,
      the guarded navigator renders exactly what the written one does. */
  lemma {:induction false} ForkNavAgrees(t: ForkTable, id: string, index: nat, current: string, editing: bool)
    requires ForksAt(t, id, index).Some? ==> current in ForksAt(t, id, index).value
    ensures ForkNav(t, id, index, current, editing) == ForkNavAsWritten(t, id, index, current, editing)
  {
    if ForksAt(t, id, index).Some? {
      FindIndexSpec(ForksAt(t, id, index).value, current);
    }
  }

  /** Navigating from a shown position goes to the neighbouring lineage at its last
      state, as long as that lineage has a history. */
  lemma {:induction false} ForkNavGoTo(t: ForkTable, id: string, index: nat, current: string,
                                       history: map<string, seq<LooplitState>>, step: int)
    requires ForkNav(t, id, index, current, false).Shown?
    requires step == -1 || step == 1
    requires var view := ForkNav(t, id, index, current, false);
             if step == -1 then view.prevEnabled else view.nextEnabled
    requires forall l :: l in ForksAt(t, id, index).value ==> l in history
    ensures var fs := ForksAt(t, id, index).value;
            var view := ForkNav(t, id, index, current, false);
            var target := view.position + step;
            && 0 <= target < |fs|
            && GoTo(fs, target, history) == Ok((fs[target], |history[fs[target]]| - 1))
  {
    var fs := ForksAt(t, id, index).value;
    FindIndexSpec(fs, current);
    ForkNavSpec(t, id, index, current, false);
    var target := ForkNav(t, id, index, current, false).position + step;
    assert fs[target] in fs;
  }

  /** Right after a fork with a fresh id, the navigator at the forked message shows the
      new lineage last: `n/n`, with "next" disabled and "previous" enabled. */
  lemma {:induction false} ForkShowsNewLast(t: ForkTable, id: string, index: nat, current: string, newId: string)
    requires newId != current
    requires ForksAt(t, id, index).Some? ==> newId !in ForksAt(t, id, index).value && ForksAt(t, id, index).value != []
    ensures var t' := AddFork(t, id, index, current, newId);
            var n := |ForksAt(t', id, index).value|;
            && n >= 2
            && ForkNav(t', id, index, newId, false) == Shown(n - 1, n, true, false)
  {
    var t' := AddFork(t, id, index, current, newId);
    var fs := ForksAt(t', id, index).value;
    var before := if ForksAt(t, id, index).Some? then ForksAt(t, id, index).value else [current];
    assert fs == before + [newId];
    FindIndexSpec(fs, newId);
    assert FindIndex(fs, newId) == |fs| - 1;
  }
}
