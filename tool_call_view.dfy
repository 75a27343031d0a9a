/**
 * How the chat body renders one tool call of an assistant message: the tool message
 * that answers it, the loading spinner, the name shown, and whether it opens the nested
 * view of the stateful function the call ran.
 */
module ToolCallView {
  import opened Wrappers
  import opened Text
  import opened ChatTypes
  import opened FrontendStore
  import ToolCalls

  /** `m.role === 'tool' && m.tool_call_id === call.id`. */
  predicate Answers(m: UiMessage, callId: string) {
    m.role == "tool" && m.toolCallId == Some(callId)
  }

  /** `messages.find(...)`: the first answering message. */
  function Response(ms: seq<UiMessage>, callId: string): Option<UiMessage>
    decreases |ms|
  {
    if ms == [] then None
    else if Answers(ms[0], callId) then Some(ms[0])
    else Response(ms[1..], callId)
  }

  /** The response is the first tool message answering the call, and there is none
      exactly when no message answers it. */
  lemma {:induction false} ResponseSpec(ms: seq<UiMessage>, callId: string)
    ensures Response(ms, callId).None? <==> forall k :: 0 <= k < |ms| ==> !Answers(ms[k], callId)
    ensures Response(ms, callId).Some? ==>
              exists k :: 0 <= k < |ms| && ms[k] == Response(ms, callId).value && Answers(ms[k], callId)
                          && forall j :: 0 <= j < k ==> !Answers(ms[j], callId)
    decreases |ms|
  {
    if ms != [] && !Answers(ms[0], callId) {
      var tail := ms[1..];
      ResponseSpec(tail, callId);
      if Response(tail, callId).Some? {
        var k :| 0 <= k < |tail| && tail[k] == Response(tail, callId).value && Answers(tail[k], callId)
                 && forall j :: 0 <= j < k ==> !Answers(tail[j], callId);
        assert ms[k + 1] == tail[k];
        forall j | 0 <= j < k + 1 ensures !Answers(ms[j], callId) {
          if j > 0 { assert ms[j] == tail[j - 1]; }
        }
      } else {
        forall k | 0 <= k < |ms| ensures !Answers(ms[k], callId) {
          if k > 0 { assert ms[k] == tail[k - 1]; }
        }
      }
    }
  }

  /** The lineage mapped to a call, when truthy (an empty id counts as none). */
  function MappedLineage(tcToLid: map<string, string>, callId: string): Option<string> {
    if callId in tcToLid && tcToLid[callId] != "" then Some(tcToLid[callId]) else None
  }

  /** What the component renders for a call. */
  datatype Rendered = Rendered(name: string, loading: bool, nested: Option<string>)

  /** `ToolCall({call, messages})`: the spinner shows while running without a response;
      the name loses its `call_` prefix only for a call with a lineage; that lineage
      opens the nested function view. */
  function Render(s: Store, ms: seq<UiMessage>, call: ToolCallRef): Rendered {
    var lid := MappedLineage(s.toolCallsToLineageIds, call.id);
    Rendered(
      if lid.Some? && StartsWith(call.name, "call_") then call.name[|"call_"|..] else call.name,
      s.running && Response(ms, call.id).None?,
      lid)
  }

  /** Loading holds iff running and nothing answers the call; a nested view is opened
      iff a lineage is mapped to the call; the name is the function's name, and loses
      exactly one leading `call_`, only for a mapped call. */
  lemma {:induction false} RenderSpec(s: Store, ms: seq<UiMessage>, call: ToolCallRef)
    ensures var r := Render(s, ms, call);
            && (r.loading <==> s.running && forall k :: 0 <= k < |ms| ==> !Answers(ms[k], call.id))
            && (r.nested.Some? <==> call.id in s.toolCallsToLineageIds && s.toolCallsToLineageIds[call.id] != "")
            && (r.nested.Some? ==> r.nested.value == s.toolCallsToLineageIds[call.id])
            && (r.nested.Some? && StartsWith(call.name, "call_") ==> "call_" + r.name == call.name)
            && (r.nested.None? || !StartsWith(call.name, "call_") ==> r.name == call.name)
  {
    ResponseSpec(ms, call.id);
    var r := Render(s, ms, call);
    if r.nested.Some? && StartsWith(call.name, "call_") {
      assert call.name == call.name[..5] + call.name[5..];
    }
  }

  /** For a call with a lineage, the name shown is the name the backend looked up when
      it attributed the call to a stateful function (`removeprefix("call_")`). */
  lemma {:induction false} RenderNameMatchesBackend(s: Store, ms: seq<UiMessage>, call: ToolCallRef)
    requires MappedLineage(s.toolCallsToLineageIds, call.id).Some?
    ensures Render(s, ms, call).name == ToolCalls.FuncName(ToolCalls.ToolCall(call.id, call.name))
  {
  }

  /** Once the `map_tc_to_lid` event for a call has arrived with a non-empty lineage,
      the call opens that lineage's nested view. */
  lemma {:induction false} MappedAfterEvent(s: Store, ms: seq<UiMessage>, call: ToolCallRef, lid: string)
    requires lid != ""
    ensures Render(Receive(s, MapTcToLidEvent(call.id, lid)), ms, call).nested == Some(lid)
  {
  }
}
