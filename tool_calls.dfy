/**
 * `map_tool_calls`: which tool-call ids of the conversation are attributed to which
 * stateful function, recorded in the module table `FUNCS_TO_TOOL_CALLS`.
 */
module ToolCalls {
  import opened Wrappers
  import opened Text
  import opened ListDicts

  /** One entry of an assistant message's `tool_calls`: its `id` and `function.name`. */
  datatype ToolCall = ToolCall(id: string, name: string)

  /** The `"tool_calls"` entry of a message dict: no such key, `None`, or a list. */
  datatype ToolCallsField = Absent | Null | Calls(calls: seq<ToolCall>)

  /** A chat message as a dict (pydantic messages are dumped to one first). */
  datatype Message = Message(role: string, toolCalls: ToolCallsField)

  /** `m["role"] == "assistant" and m["tool_calls"]`: a list is truthy when non-empty. */
  predicate Considered(m: Message) {
    m.role == "assistant" && m.toolCalls.Calls? && m.toolCalls.calls != []
  }

  /** Evaluating the condition on `m` raises `KeyError('tool_calls')`. */
  predicate RaisesKeyError(m: Message) {
    m.role == "assistant" && m.toolCalls.Absent?
  }

  /** `str(KeyError('tool_calls'))`. */
  const MissingToolCalls := "'tool_calls'"

  /** The list comprehension `with_tool_calls`, evaluated front to back. */
  function Select(ms: seq<Message>): (r: Result<seq<Message>, string>)
    ensures r.Ok? ==> forall i :: 0 <= i < |r.value| ==> Considered(r.value[i])
  {
    if ms == [] then Ok([])
    else if RaisesKeyError(ms[0]) then Err(MissingToolCalls)
    else match Select(ms[1..])
      case Err(e) => Err(e)
      case Ok(rest) => Ok((if Considered(ms[0]) then [ms[0]] else []) + rest)
  }

  /** `last`: the tool calls of the last selected message, if there is one. */
  function LastCalls(ms: seq<Message>): Result<Option<seq<ToolCall>>, string> {
    match Select(ms)
    case Err(e) => Err(e)
    case Ok(sel) => Ok(if sel == [] then None else Some(sel[|sel| - 1].toolCalls.calls))
  }

  /** The comprehension fails, with `KeyError('tool_calls')`, exactly when some assistant
      message lacks the key. */
  lemma {:induction false} SelectErr(ms: seq<Message>)
    ensures Select(ms).Err? <==> exists i :: 0 <= i < |ms| && RaisesKeyError(ms[i])
    ensures Select(ms).Err? ==> Select(ms).error == MissingToolCalls
  {
    if ms != [] && !RaisesKeyError(ms[0]) {
      var tail := ms[1..];
      SelectErr(tail);
      if exists i :: 0 <= i < |ms| && RaisesKeyError(ms[i]) {
        var i :| 0 <= i < |ms| && RaisesKeyError(ms[i]);
        assert tail[i - 1] == ms[i];
      }
    }
  }

  /** Every considered message is selected. */
  lemma {:induction false} SelectKeeps(ms: seq<Message>, i: nat)
    requires Select(ms).Ok? && i < |ms| && Considered(ms[i])
    ensures ms[i] in Select(ms).value
  {
    if i > 0 {
      var tail := ms[1..];
      assert tail[i - 1] == ms[i];
      SelectKeeps(tail, i - 1);
    }
  }

  /** The last selected message is the last considered one of the conversation. */
  lemma {:induction false} SelectLast(ms: seq<Message>)
    requires Select(ms).Ok? && Select(ms).value != []
    ensures var sel := Select(ms).value;
            exists k :: 0 <= k < |ms| && ms[k] == sel[|sel| - 1]
                        && forall j :: k < j < |ms| ==> !Considered(ms[j])
  {
    var tail := ms[1..];
    var sel := Select(ms).value;
    var rest := Select(tail).value;
    if rest != [] {
      SelectLast(tail);
      var k :| 0 <= k < |tail| && tail[k] == rest[|rest| - 1]
               && forall j :: k < j < |tail| ==> !Considered(tail[j]);
      assert sel[|sel| - 1] == rest[|rest| - 1];
      assert ms[k + 1] == tail[k];
      forall j | k + 1 < j < |ms| ensures !Considered(ms[j]) {
        assert ms[j] == tail[j - 1];
      }
    } else {
      assert sel == [ms[0]];
      forall j | 0 < j < |ms| ensures !Considered(ms[j]) {
        assert ms[j] == tail[j - 1];
        if Considered(ms[j]) {
          SelectKeeps(tail, j - 1);
        }
      }
    }
  }

  /** Only the last considered message is used; with none there is nothing to do. */
  lemma {:induction false} LastCallsSpec(ms: seq<Message>)
    requires forall i :: 0 <= i < |ms| ==> !RaisesKeyError(ms[i])
    ensures LastCalls(ms).Ok?
    ensures LastCalls(ms).value.None? <==> forall i :: 0 <= i < |ms| ==> !Considered(ms[i])
    ensures LastCalls(ms).value.Some? ==>
              exists k :: 0 <= k < |ms| && Considered(ms[k])
                          && ms[k].toolCalls.calls == LastCalls(ms).value.value
                          && forall j :: k < j < |ms| ==> !Considered(ms[j])
  {
    SelectErr(ms);
    var sel := Select(ms).value;
    if sel != [] {
      SelectLast(ms);
    } else {
      forall i | 0 <= i < |ms| ensures !Considered(ms[i]) {
        if Considered(ms[i]) { SelectKeeps(ms, i); }
      }
    }
  }

  /** `tool_call["function"]["name"].removeprefix("call_")`. */
  function FuncName(c: ToolCall): string {
    RemovePrefix(c.name, "call_")
  }

  /** The loop over `last["tool_calls"]`: each call whose name (prefix removed) is a
      stateful function has its id appended to that function's list. */
  function Record(d: ListDict, calls: seq<ToolCall>, names: set<string>): ListDict
    decreases |calls|
  {
    if calls == [] then d
    else
      var d' := Record(d, calls[..|calls| - 1], names);
      var c := calls[|calls| - 1];
      if FuncName(c) in names then d'.Append(FuncName(c), c.id) else d'
  }

  /** The ids of the calls attributed to `f`, in call order: an independent, order-only
      statement of what `Record` appends. */
  function IdsFor(calls: seq<ToolCall>, f: string): (r: seq<string>)
    ensures |r| <= |calls|
  {
    if calls == [] then []
    else IdsFor(calls[..|calls| - 1], f)
         + (if FuncName(calls[|calls| - 1]) == f then [calls[|calls| - 1].id] else [])
  }

  /** After recording, the table is still well formed. */
  lemma {:induction false} RecordValid(d: ListDict, calls: seq<ToolCall>, names: set<string>)
    requires d.Valid()
    ensures Record(d, calls, names).Valid()
    decreases |calls|
  {
    if calls != [] {
      var init := calls[..|calls| - 1];
      var c := calls[|calls| - 1];
      RecordValid(d, init, names);
      if FuncName(c) in names {
        AppendSpec(Record(d, init, names), FuncName(c), c.id);
      }
    }
  }

  /** What the table holds after recording: a stateful function's list is its old list
      followed by the ids attributed to it; every other list is untouched; a key is
      present only when it was before or got an id. */
  lemma {:induction false} RecordSpec(d: ListDict, calls: seq<ToolCall>, names: set<string>, f: string)
    requires d.Valid()
    ensures var r := Record(d, calls, names);
            && r.Get(f) == d.Get(f) + (if f in names then IdsFor(calls, f) else [])
            && (f in r.lists <==> f in d.lists || (f in names && IdsFor(calls, f) != []))
    decreases |calls|
  {
    if calls != [] {
      var init := calls[..|calls| - 1];
      var c := calls[|calls| - 1];
      RecordSpec(d, init, names, f);
      RecordValid(d, init, names);
      if FuncName(c) in names {
        AppendSpec(Record(d, init, names), FuncName(c), c.id);
      }
    }
  }

  /** Recording never shortens a list: every old list is a prefix of its new one. */
  lemma {:induction false} RecordOnlyGrows(d: ListDict, calls: seq<ToolCall>, names: set<string>, f: string)
    requires d.Valid()
    ensures d.Get(f) <= Record(d, calls, names).Get(f)
  {
    RecordSpec(d, calls, names, f);
  }

  /** Recording the same calls twice appends the attributed ids twice: the operation is
      not idempotent. */
  lemma {:induction false} RecordTwice(d: ListDict, calls: seq<ToolCall>, names: set<string>, f: string)
    requires d.Valid() && f in names && IdsFor(calls, f) != []
    ensures var once := Record(d, calls, names);
            var twice := Record(once, calls, names);
            twice.Get(f) == d.Get(f) + IdsFor(calls, f) + IdsFor(calls, f)
            && twice != once
  {
    var once := Record(d, calls, names);
    RecordSpec(d, calls, names, f);
    RecordValid(d, calls, names);
    RecordSpec(once, calls, names, f);
    var twice := Record(once, calls, names);
    assert |twice.Get(f)| > |once.Get(f)|;
  }

  /** The module table `FUNCS_TO_TOOL_CALLS`. */
  class ToolCallTable {
    var table: ListDict

    ghost predicate Valid()
      reads this
    {
      table.Valid()
    }

    constructor ()
      ensures Valid() && table == Empty
    {
      table := Empty;
    }

    /** `map_tool_calls(messages, stateful_func_names)`. */
    method MapToolCalls(messages: seq<Message>, names: set<string>) returns (r: Result<(), string>)
      requires Valid()
      modifies this
      ensures Valid()
      ensures match LastCalls(messages)
              case Err(e) => r == Err(e) && table == old(table)
              case Ok(None) => r == Ok(()) && table == old(table)
              case Ok(Some(calls)) => r == Ok(()) && table == Record(old(table), calls, names)
    {
      var last := LastCalls(messages);
      if last.Err? {
        return Err(last.error);
      }
      r := Ok(());
      if last.value.None? {
        return;
      }
      var calls := last.value.value;
      var i := 0;
      while i < |calls|
        invariant 0 <= i <= |calls|
        invariant table == Record(old(table), calls[..i], names)
        invariant table.Valid()
      {
        var c := calls[i];
        assert calls[..i + 1][..i] == calls[..i];
        ghost var before := table;
        var f := RemovePrefix(c.name, "call_");
        if f in names {
          if f !in table.lists {
            table := ListDict(table.keys + [f], table.lists[f := []]);
          }
          table := ListDict(table.keys, table.lists[f := table.lists[f] + [c.id]]);
          assert table.lists == before.Append(f, c.id).lists by {
            if f !in before.lists {
              assert [] + [c.id] == [c.id];
            }
          }
          AppendSpec(before, f, c.id);
        }
        i := i + 1;
      }
      assert calls[..i] == calls;
    }
  }
}
