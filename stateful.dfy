/**
 * The `stateful` decorator: how a wrapped call picks its lineage id, tracks itself on
 * the session's call stack, records context switches in `FUNCS_TO_LINEAGE_IDS`,
 * reports its input, result or error to the client, and how decoration registers the
 * function in `STATEFUL_FUNCS`.
 *
 * A call is split at the points where other code runs: `Enter` is everything before
 * the `try` block, `Prepare` the two table updates at its start, and `Complete` what
 * follows the user's function (its outcome is a parameter), through the `finally`
 * block. Nested stateful calls made by the user's function run between `Prepare` and
 * `Complete`.
 */
module Stateful {
  import opened Wrappers
  import opened ListDicts
  import opened ToolCalls
  import opened Sessions

  /** One `STATEFUL_FUNCS` entry: which wrapper was chosen, and the initial state. */
  datatype FuncDef = FuncDef(isAsync: bool, initState: State)

  /** How the user's function ended. */
  datatype Outcome = Returned(result: State) | Raised(error: string) | Cancelled

  /** Everything a wrapped call reads or writes: the session's call-tracking fields and
      the three module tables. */
  datatype World = World(
    callStack: seq<Frame>,
    initialLineageId: string,
    interrupt: bool,
    sent: seq<Event>,
    lineageIds: ListDict,
    toolCalls: ListDict,
    funcs: map<string, FuncDef>)

  /** `os.getenv("LOOPLIT_DEBUG")` is truthy: set and non-empty. */
  predicate DebugEnabled(env: Option<string>) {
    env.Some? && env.value != ""
  }

  /** Decoration: without the debug variable nothing is registered; with it the name is
      (re)bound to the new wrapper. */
  function Register(funcs: map<string, FuncDef>, env: Option<string>, name: string,
                    isAsync: bool, initState: State): (r: map<string, FuncDef>)
    ensures !DebugEnabled(env) ==> r == funcs
    ensures DebugEnabled(env) ==> name in r && r[name] == FuncDef(isAsync, initState)
                                  && forall n :: n != name ==> ((n in r <==> n in funcs)
                                                                && (n in funcs ==> r[n] == funcs[n]))
  {
    if DebugEnabled(env) then funcs[name := FuncDef(isAsync, initState)] else funcs
  }

  predicate IsRootCall(stack: seq<Frame>) {
    |stack| == 0
  }

  predicate IsContextSwitch(stack: seq<Frame>, name: string) {
    !IsRootCall(stack) && stack[|stack| - 1].funcName != name
  }

  /** The lineage id of a new call; `newId` stands for `str(uuid4())`. */
  function ChooseLineage(stack: seq<Frame>, initial: string, name: string, newId: string): string {
    if IsRootCall(stack) then initial
    else if IsContextSwitch(stack, name) then newId
    else stack[|stack| - 1].lineageId
  }

  /** Lines 53-86: choose the lineage, record a context switch, push the frame, send the
      input state (not for a root call), an interrupt when one is requested, and start. */
  function EnterStep(w: World, name: string, input: State, newId: string): World {
    var root := IsRootCall(w.callStack);
    var lid := ChooseLineage(w.callStack, w.initialLineageId, name, newId);
    w.(lineageIds := if IsContextSwitch(w.callStack, name) then w.lineageIds.Append(name, lid) else w.lineageIds,
       callStack := w.callStack + [Frame(name, lid)],
       sent := w.sent
               + (if root then [] else [OutputState(name, lid, input)])
               + (if !root && w.interrupt then [Interrupt(name)] else [])
               + [Start(name)])
  }

  /** Lines 89-93: `map_tool_calls` over the input's messages and the registered names,
      then `sync_tool_calls`. The error is the one `map_tool_calls` raises, if any. */
  function PrepareStep(w: World, input: State): (World, Option<string>) {
    match LastCalls(input.messages)
    case Err(e) => (w, Some(e))
    case Ok(last) =>
      var tc := if last.Some? then Record(w.toolCalls, last.value, w.funcs.Keys) else w.toolCalls;
      (w.(toolCalls := tc, sent := w.sent + SyncEvents(tc.keys, tc, w.lineageIds)), None)
  }

  /** The message of the `AttributeError` raised by reading an undeclared attribute. */
  function NoMetadataError(className: string): string {
    "'" + className + "' object has no attribute 'metadata'"
  }

  /** Lines 104-107: reading `result.metadata` raises when the result's class declares no
      such field; otherwise falsy metadata (`None` or empty) is replaced by `{}`, then
      `func_name` is set. The timing entries come from the clock and are left out. */
  function WithFuncName(s: State, name: string): Result<State, string> {
    match s.metadata
    case Undeclared(className) => Err(NoMetadataError(className))
    case Declared(md) =>
      var m := if md.None? || md.value == map[] then map[] else md.value;
      Ok(s.(metadata := Declared(Some(m["func_name" := name]))))
  }

  /** The state as the library evidently means it to be, declaring
      `metadata: Optional[dict] = None`: the frontend already drops a `metadata` entry
      from the states it shows. */
  function DeclareMetadata(s: State): State {
    if s.metadata.Undeclared? then s.(metadata := Declared(None)) else s
  }

  /** Completion with an intended state class: a returned result is never lost. */
  function CompleteStepIntended(w: World, name: string, lid: string, outcome: Outcome): (World, Option<State>) {
    CompleteStep(w, name, lid, if outcome.Returned? then Returned(DeclareMetadata(outcome.result)) else outcome)
  }

  /** Lines 104-129 for an outcome of the user's function (or a `map_tool_calls` error):
      send the result or the error, pop the top frame if there is one, and end. */
  function CompleteStep(w: World, name: string, lid: string, outcome: Outcome): (World, Option<State>) {
    var (sent, result) :=
      match outcome
      case Returned(r) =>
        (match WithFuncName(r, name)
         case Ok(r') => (w.sent + [OutputState(name, lid, r')], Some(r'))
         case Err(e) => (w.sent + [Error(lid, e)], None))
      case Raised(e) => (w.sent + [Error(lid, e)], None)
      case Cancelled => (w.sent, None);
    var stack := if w.callStack != [] then w.callStack[..|w.callStack| - 1] else w.callStack;
    (w.(callStack := stack, sent := sent + [End(name)]), result)
  }

  /** The call stack explains every lineage on it: the bottom frame runs on the initial
      lineage; a frame on top of one for the same function inherits its lineage; a
      frame on top of another function's runs on a lineage recorded for its own. */
  ghost predicate StackExplained(w: World) {
    forall i :: 0 <= i < |w.callStack| ==> FrameExplained(w, i)
  }

  ghost predicate FrameExplained(w: World, i: nat)
    requires i < |w.callStack|
  {
    var f := w.callStack[i];
    && (i == 0 ==> f.lineageId == w.initialLineageId)
    && (0 < i && f.funcName == w.callStack[i - 1].funcName ==> f.lineageId == w.callStack[i - 1].lineageId)
    && (0 < i && f.funcName != w.callStack[i - 1].funcName ==> f.lineageId in w.lineageIds.Get(f.funcName))
  }

  ghost predicate Inv(w: World) {
    w.lineageIds.Valid() && w.toolCalls.Valid() && StackExplained(w)
  }

  /** Lineage choice and its record: a root call runs on the initial lineage and records
      nothing; a context switch runs on the new id and appends it to the function's
      lineages; a nested call of the same function inherits the caller's lineage. */
  lemma {:induction false} EnterLineage(w: World, name: string, input: State, newId: string)
    requires w.lineageIds.Valid()
    ensures var w' := EnterStep(w, name, input, newId);
            var top := w'.callStack[|w'.callStack| - 1];
            && w'.callStack[..|w.callStack|] == w.callStack && top.funcName == name
            && (IsRootCall(w.callStack) ==> top.lineageId == w.initialLineageId && w'.lineageIds == w.lineageIds)
            && (IsContextSwitch(w.callStack, name) ==>
                  top.lineageId == newId && w'.lineageIds.Get(name) == w.lineageIds.Get(name) + [newId]
                  && forall n :: n != name ==> w'.lineageIds.Get(n) == w.lineageIds.Get(n))
            && (!IsRootCall(w.callStack) && !IsContextSwitch(w.callStack, name) ==>
                  top.lineageId == w.callStack[|w.callStack| - 1].lineageId && w'.lineageIds == w.lineageIds)
  {
    var w' := EnterStep(w, name, input, newId);
    assert w'.callStack[..|w.callStack|] == w.callStack;
    if IsContextSwitch(w.callStack, name) {
      AppendSpec(w.lineageIds, name, newId);
    }
  }

  /** Entering keeps the invariant. */
  lemma {:induction false} EnterKeepsInv(w: World, name: string, input: State, newId: string)
    requires Inv(w)
    ensures Inv(EnterStep(w, name, input, newId))
  {
    var w' := EnterStep(w, name, input, newId);
    EnterLineage(w, name, input, newId);
    var n := |w.callStack|;
    forall i | 0 <= i < |w'.callStack| ensures FrameExplained(w', i) {
      if i < n {
        assert FrameExplained(w, i);
        assert w'.callStack[i] == w.callStack[i];
        if 0 < i {
          assert w'.callStack[i - 1] == w.callStack[i - 1];
          var f := w.callStack[i].funcName;
          assert w.lineageIds.Get(f) <= w'.lineageIds.Get(f);
        }
      } else if 0 < i {
        assert w'.callStack[i - 1] == w.callStack[n - 1];
      }
    }
  }

  /** Preparing touches neither the stack nor the lineage table, and keeps the invariant. */
  lemma {:induction false} PrepareKeepsInv(w: World, input: State)
    requires Inv(w)
    ensures var w' := PrepareStep(w, input).0;
            Inv(w') && w'.callStack == w.callStack && w'.lineageIds == w.lineageIds
            && w'.funcs == w.funcs
  {
    var w' := PrepareStep(w, input).0;
    match LastCalls(input.messages)
    case Err(_) =>
    case Ok(last) =>
      if last.Some? {
        RecordValid(w.toolCalls, last.value, w.funcs.Keys);
      }
      forall i | 0 <= i < |w'.callStack| ensures FrameExplained(w', i) {
        assert FrameExplained(w, i);
      }
  }

  /** Completing pops exactly one frame, leaves the tables alone, and keeps the invariant. */
  lemma {:induction false} CompleteKeepsInv(w: World, name: string, lid: string, outcome: Outcome)
    requires Inv(w)
    ensures var w' := CompleteStep(w, name, lid, outcome).0;
            && Inv(w')
            && (w.callStack != [] ==> w'.callStack == w.callStack[..|w.callStack| - 1])
            && w'.lineageIds == w.lineageIds && w'.toolCalls == w.toolCalls && w'.funcs == w.funcs
  {
    var w' := CompleteStep(w, name, lid, outcome).0;
    forall i | 0 <= i < |w'.callStack| ensures FrameExplained(w', i) {
      assert FrameExplained(w, i);
      assert w'.callStack[i] == w.callStack[i];
      if 0 < i {
        assert w'.callStack[i - 1] == w.callStack[i - 1];
      }
    }
  }

  /** A completed call leaves the stack as it found it: once whatever ran inside has
      restored the stack to the caller's plus this call's frame, completing pops back to
      the caller's. */
  lemma {:induction false} CallRestoresStack(w: World, name: string, input: State, newId: string,
                                             inner: World, outcome: Outcome)
    requires inner.callStack == EnterStep(w, name, input, newId).callStack
    ensures CompleteStep(inner, name, ChooseLineage(w.callStack, w.initialLineageId, name, newId), outcome).0.callStack
            == w.callStack
  {
    assert inner.callStack[..|inner.callStack| - 1] == w.callStack;
  }

  /** What the client sees at the start of a call: the input state (unless the call is a
      root), an interrupt only when requested on a non-root call, then `start`. */
  lemma {:induction false} EnterEvents(w: World, name: string, input: State, newId: string)
    ensures var lid := ChooseLineage(w.callStack, w.initialLineageId, name, newId);
            var sent := EnterStep(w, name, input, newId).sent;
            && (IsRootCall(w.callStack) ==> sent == w.sent + [Start(name)])
            && (!IsRootCall(w.callStack) && !w.interrupt ==>
                  sent == w.sent + [OutputState(name, lid, input), Start(name)])
            && (!IsRootCall(w.callStack) && w.interrupt ==>
                  sent == w.sent + [OutputState(name, lid, input), Interrupt(name), Start(name)])
  {
  }

  /** What the client sees at the end: the result under the call's lineage, or the error
      tagged with it, or (when cancelled) nothing; `end` in every case. Only a returned
      result whose class declares `metadata` is handed back, with `func_name` in its
      metadata; any other result turns into the `AttributeError`, reported like an error
      of the user's function. */
  lemma {:induction false} CompleteEvents(w: World, name: string, lid: string, outcome: Outcome)
    ensures var (w', result) := CompleteStep(w, name, lid, outcome);
            && (outcome.Returned? && outcome.result.metadata.Declared? ==>
                  WithFuncName(outcome.result, name).Ok?
                  && result == Some(WithFuncName(outcome.result, name).value)
                  && w'.sent == w.sent + [OutputState(name, lid, result.value), End(name)])
            && (outcome.Returned? && outcome.result.metadata.Undeclared? ==>
                  result == None
                  && w'.sent == w.sent + [Error(lid, NoMetadataError(outcome.result.metadata.className)), End(name)])
            && (outcome.Raised? ==> result == None && w'.sent == w.sent + [Error(lid, outcome.error), End(name)])
            && (outcome.Cancelled? ==> result == None && w'.sent == w.sent + [End(name)])
  {
  }

  /** On a class that declares `metadata`, falsy metadata becomes exactly
      `{"func_name": name}`; otherwise `func_name` is set and every other entry kept. On
      a class that does not, the read raises. */
  lemma {:induction false} WithFuncNameSpec(s: State, name: string)
    ensures s.metadata.Undeclared? <==> WithFuncName(s, name).Err?
    ensures s.metadata.Undeclared? ==> WithFuncName(s, name).error == NoMetadataError(s.metadata.className)
    ensures s.metadata.Declared? ==>
              var r := WithFuncName(s, name).value;
              && r.metadata.Declared? && r.metadata.value.Some?
              && var m := r.metadata.value.value;
              && "func_name" in m && m["func_name"] == name
              && (s.metadata.value.None? || s.metadata.value.value == map[] ==> m == map["func_name" := name])
              && (s.metadata.value.Some? ==> forall k :: k in s.metadata.value.value && k != "func_name" ==>
                                                   k in m && m[k] == s.metadata.value.value[k])
              && r.messages == s.messages && r.id == s.id
  {
  }

  /** The library's own `State` loses every result: the call reports the
      `AttributeError` and hands back nothing. */
  lemma {:induction false} PlainStateLost(w: World, name: string, lid: string, r: State)
    requires r.metadata == Undeclared("State")
    ensures var (w', result) := CompleteStep(w, name, lid, Returned(r));
            && result == None
            && w'.sent == w.sent + [Error(lid, NoMetadataError("State")), End(name)]
  {
  }

  /** With the field declared, every returned result is sent under the call's lineage
      and handed back, tagged with the function's name, whatever its class. */
  lemma {:induction false} CompleteIntendedEvents(w: World, name: string, lid: string, r: State)
    ensures var (w', result) := CompleteStepIntended(w, name, lid, Returned(r));
            && result.Some? && result.value.id == r.id && result.value.messages == r.messages
            && result.value.metadata.Declared? && result.value.metadata.value.Some?
            && "func_name" in result.value.metadata.value.value
            && result.value.metadata.value.value["func_name"] == name
            && w'.sent == w.sent + [OutputState(name, lid, result.value), End(name)]
  {
    WithFuncNameSpec(DeclareMetadata(r), name);
  }

  /** The module tables and the decorator. */
  class Runtime {
    /** `FUNCS_TO_LINEAGE_IDS`. */
    var lineageIds: ListDict
    /** `FUNCS_TO_TOOL_CALLS`, kept by `utils.py`. */
    const toolCallTable: ToolCallTable
    /** `STATEFUL_FUNCS`. */
    var funcs: map<string, FuncDef>

    ghost predicate Valid()
      reads this, toolCallTable
    {
      lineageIds.Valid() && toolCallTable.Valid()
    }

    /** The world as seen by a call running in session `s`. */
    function WorldOf(s: Session): World
      reads this, toolCallTable, s
    {
      World(s.callStack, s.initialLineageId, s.interrupt, s.sent, lineageIds, toolCallTable.table, funcs)
    }

    constructor (toolCallTable: ToolCallTable)
      requires toolCallTable.Valid()
      ensures Valid() && this.toolCallTable == toolCallTable
      ensures lineageIds == Empty && funcs == map[]
    {
      this.toolCallTable := toolCallTable;
      lineageIds := Empty;
      funcs := map[];
    }

    /** `stateful(init_state)(function)`: `wrapped` tells whether the wrapper was
        returned rather than the function itself. */
    method Decorate(env: Option<string>, name: string, isAsync: bool, initState: State)
      returns (wrapped: bool)
      modifies this
      ensures wrapped == DebugEnabled(env)
      ensures funcs == Register(old(funcs), env, name, isAsync, initState)
      ensures lineageIds == old(lineageIds)
    {
      if !DebugEnabled(env) {
        return false;
      }
      funcs := funcs[name := FuncDef(isAsync, initState)];
      wrapped := true;
    }

    /** The wrapper up to the `try` block; answers the call's lineage id. */
    method Enter(s: Session, name: string, input: State, newId: string) returns (lid: string)
      modifies this, s
      ensures lid == ChooseLineage(old(s.callStack), old(s.initialLineageId), name, newId)
      ensures WorldOf(s) == EnterStep(old(WorldOf(s)), name, input, newId)
      ensures s.socketId == old(s.socketId) && s.restored == old(s.restored)
    {
      var root := |s.callStack| == 0;
      var isSwitch := !root && s.callStack[|s.callStack| - 1].funcName != name;
      lid := if root then s.initialLineageId else if isSwitch then newId
             else s.callStack[|s.callStack| - 1].lineageId;
      if isSwitch {
        if name !in lineageIds.lists {
          lineageIds := ListDict(lineageIds.keys + [name], lineageIds.lists[name := []]);
        }
        lineageIds := ListDict(lineageIds.keys, lineageIds.lists[name := lineageIds.lists[name] + [lid]]);
        assert lineageIds.lists == old(lineageIds).Append(name, lid).lists by {
          if name !in old(lineageIds).lists {
            assert [] + [lid] == [lid];
          }
        }
      }
      s.callStack := s.callStack + [Frame(name, lid)];
      if !root {
        s.sent := s.sent + [OutputState(name, lid, input)];
      }
      if !root && s.interrupt {
        s.sent := s.sent + [Interrupt(name)];
      }
      s.sent := s.sent + [Start(name)];
    }

    /** The first two statements of the `try` block; answers the error raised, if any. */
    method Prepare(s: Session, input: State) returns (err: Option<string>)
      requires Valid()
      modifies s, toolCallTable
      ensures Valid()
      ensures (WorldOf(s), err) == PrepareStep(old(WorldOf(s)), input)
      ensures s.socketId == old(s.socketId) && s.restored == old(s.restored)
    {
      var r := toolCallTable.MapToolCalls(input.messages, funcs.Keys);
      if r.Err? {
        return Some(r.error);
      }
      s.SyncToolCalls(toolCallTable.table, lineageIds);
      err := None;
    }

    /** From the user's function's outcome through the `finally` block; answers what the
        wrapper returns. */
    method Complete(s: Session, name: string, lid: string, outcome: Outcome) returns (result: Option<State>)
      modifies s
      ensures (WorldOf(s), result) == CompleteStep(old(WorldOf(s)), name, lid, outcome)
      ensures s.socketId == old(s.socketId) && s.restored == old(s.restored)
    {
      match outcome {
        case Returned(r) =>
          match r.metadata {
            case Undeclared(className) =>
              s.sent := s.sent + [Error(lid, NoMetadataError(className))];
              result := None;
            case Declared(md) =>
              var m := if md.None? || md.value == map[] then map[] else md.value;
              var r' := r.(metadata := Declared(Some(m["func_name" := name])));
              s.sent := s.sent + [OutputState(name, lid, r')];
              result := Some(r');
          }
        case Raised(e) =>
          s.sent := s.sent + [Error(lid, e)];
          result := None;
        case Cancelled =>
          result := None;
      }
      if s.callStack != [] {
        s.callStack := s.callStack[..|s.callStack| - 1];
      }
      s.sent := s.sent + [End(name)];
    }

    /** A whole call of a function that makes no stateful calls of its own. */
    method Call(s: Session, name: string, input: State, newId: string, outcome: Outcome)
      returns (result: Option<State>)
      requires Valid() && Inv(WorldOf(s))
      modifies this, s, toolCallTable
      ensures Valid() && Inv(WorldOf(s))
      ensures s.callStack == old(s.callStack)
      ensures var w1 := EnterStep(old(WorldOf(s)), name, input, newId);
              var (w2, err) := PrepareStep(w1, input);
              var lid := ChooseLineage(old(s.callStack), old(s.initialLineageId), name, newId);
              (WorldOf(s), result) == CompleteStep(w2, name, lid, if err.Some? then Raised(err.value) else outcome)
    {
      ghost var w0 := WorldOf(s);
      EnterKeepsInv(w0, name, input, newId);
      var lid := Enter(s, name, input, newId);
      ghost var w1 := WorldOf(s);
      PrepareKeepsInv(w1, input);
      var err := Prepare(s, input);
      ghost var w2 := WorldOf(s);
      var effective := if err.Some? then Raised(err.value) else outcome;
      CompleteKeepsInv(w2, name, lid, effective);
      CallRestoresStack(w0, name, input, newId, w2, effective);
      result := Complete(s, name, lid, effective);
    }
  }
}
