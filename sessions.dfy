/**
 * `session.py`: the serialiser applied to outgoing states, the two module tables
 * that find a session by socket id and by session id, the per-session call-tracking
 * fields, and the pairing of recorded tool-call ids with lineage ids.
 */
module Sessions {
  import opened Wrappers
  import opened ListDicts
  import ToolCalls

  // ---------------------------------------------------------------------------
  // ensure_values_serializable

  /** The Python values the serialiser distinguishes. Floats are opaque tokens; a set
      or tuple is given by its elements in iteration order; a pydantic model by what
      `model_dump` returns for it; any other object by its `str()`. */
  datatype PyValue =
    | PStr(s: string)
    | PInt(i: int)
    | PFloat(token: int)
    | PBool(b: bool)
    | PNone
    | PDict(entries: seq<PyEntry>)
    | PList(items: seq<PyValue>)
    | PTuple(elems: seq<PyValue>)
    | PSet(members: seq<PyValue>)
    | PModel(dump: PyValue)
    | PObject(str: string)

  datatype PyEntry = PyEntry(key: PyValue, value: PyValue)

  /** `ensure_values_serializable`. A tuple or set goes through `list(data)` and then the
      list case, which is the element-wise conversion written out here. */
  function Serialize(v: PyValue): PyValue {
    match v
    case PModel(d) => Serialize(d)
    case PDict(es) =>
      PDict(seq(|es|, i requires 0 <= i < |es| => PyEntry(es[i].key, Serialize(es[i].value))))
    case PList(xs) => PList(seq(|xs|, i requires 0 <= i < |xs| => Serialize(xs[i])))
    case PTuple(xs) => PList(seq(|xs|, i requires 0 <= i < |xs| => Serialize(xs[i])))
    case PSet(xs) => PList(seq(|xs|, i requires 0 <= i < |xs| => Serialize(xs[i])))
    case PObject(r) => PStr(r)
    case _ => v
  }

  /** JSON-ready: only scalars, lists and dicts, all the way down (dict keys are not
      looked at, as the serialiser leaves them alone). */
  predicate JsonReady(v: PyValue) {
    match v
    case PDict(es) => forall i :: 0 <= i < |es| ==> JsonReady(es[i].value)
    case PList(xs) => forall i :: 0 <= i < |xs| ==> JsonReady(xs[i])
    case PTuple(_) => false
    case PSet(_) => false
    case PModel(_) => false
    case PObject(_) => false
    case _ => true
  }

  /** Whatever goes in, what comes out is JSON-ready. */
  lemma {:induction false} SerializeJsonReady(v: PyValue)
    ensures JsonReady(Serialize(v))
  {
    match v
    case PModel(d) => SerializeJsonReady(d);
    case PDict(es) =>
      forall i | 0 <= i < |es| ensures JsonReady(Serialize(v).entries[i].value) {
        SerializeJsonReady(es[i].value);
      }
    case PList(xs) =>
      forall i | 0 <= i < |xs| ensures JsonReady(Serialize(v).items[i]) { SerializeJsonReady(xs[i]); }
    case PTuple(xs) =>
      forall i | 0 <= i < |xs| ensures JsonReady(Serialize(v).items[i]) { SerializeJsonReady(xs[i]); }
    case PSet(xs) =>
      forall i | 0 <= i < |xs| ensures JsonReady(Serialize(v).items[i]) { SerializeJsonReady(xs[i]); }
    case _ =>
  }

  /** A JSON-ready value comes back unchanged: scalars as they are, dicts with the same
      keys, lists with the same elements. */
  lemma {:induction false} SerializeFixesJsonReady(v: PyValue)
    requires JsonReady(v)
    ensures Serialize(v) == v
  {
    match v
    case PDict(es) =>
      forall i | 0 <= i < |es| ensures PyEntry(es[i].key, Serialize(es[i].value)) == es[i] {
        SerializeFixesJsonReady(es[i].value);
      }
      assert Serialize(v).entries == es;
    case PList(xs) =>
      forall i | 0 <= i < |xs| ensures Serialize(xs[i]) == xs[i] { SerializeFixesJsonReady(xs[i]); }
      assert Serialize(v).items == xs;
    case _ =>
  }

  lemma {:induction false} SerializeIdempotent(v: PyValue)
    ensures Serialize(Serialize(v)) == Serialize(v)
  {
    SerializeJsonReady(v);
    SerializeFixesJsonReady(Serialize(v));
  }

  /** Containers keep their size: a dict its keys in order, a list, tuple or set its
      element count (the latter two as lists). */
  lemma {:induction false} SerializeShape(v: PyValue)
    ensures v.PDict? ==> Serialize(v).PDict? && |Serialize(v).entries| == |v.entries|
                         && forall i :: 0 <= i < |v.entries| ==> Serialize(v).entries[i].key == v.entries[i].key
    ensures v.PList? ==> Serialize(v).PList? && |Serialize(v).items| == |v.items|
    ensures v.PTuple? ==> Serialize(v) == Serialize(PList(v.elems))
    ensures v.PSet? ==> Serialize(v) == Serialize(PList(v.members))
    ensures v.PObject? ==> Serialize(v) == PStr(v.str)
  {
  }

  // ---------------------------------------------------------------------------
  // Session registry and per-session state

  /** One entry of `call_stack`. */
  datatype Frame = Frame(funcName: string, lineageId: string)

  /** The `metadata` attribute of a state object. The library's `State` declares no such
      field, so reading it raises `AttributeError` naming the object's class; a subclass
      may declare it, unset (`None`) or holding a dictionary. */
  datatype Metadata = Undeclared(className: string) | Declared(value: Option<map<string, string>>)

  /** A state object: its id, its messages and its metadata attribute. */
  datatype State = State(id: string, messages: seq<ToolCalls.Message>, metadata: Metadata)

  /** What a session emits to its client, by event name. */
  datatype Event =
    | Start(name: string)
    | End(name: string)
    | Error(lineageId: string, error: string)
    | Interrupt(funcName: string)
    | OutputState(funcName: string, lineageId: string, state: State)
    | MapTcToLid(tc: string, lid: string)

  /** The module tables `sessions_sid` and `sessions_id`. */
  class Registry {
    var bySid: map<string, Session>
    var byId: map<string, Session>

    constructor ()
      ensures bySid == map[] && byId == map[]
    {
      bySid, byId := map[], map[];
    }

    /** Each socket key names a session whose current socket id it is, and each id key
        the session with that id. */
    ghost predicate Consistent()
      reads this, bySid.Values
    {
      (forall sid :: sid in bySid ==> bySid[sid].socketId == sid)
      && (forall id :: id in byId ==> byId[id].id == id)
    }

    /** `Session.get(socket_id)`. */
    function Get(sid: string): (r: Option<Session>)
      reads this
      ensures r.Some? <==> sid in bySid
    {
      if sid in bySid then Some(bySid[sid]) else None
    }

    /** `Session.get_by_id(session_id)`. */
    function GetById(id: string): (r: Option<Session>)
      reads this
      ensures r.Some? <==> id in byId
    {
      if id in byId then Some(byId[id]) else None
    }

    /** `Session.require(socket_id)`: a session object is always truthy, so this fails
        exactly when there is none. */
    function Require(sid: string): (r: Result<Session, string>)
      reads this
      ensures r.Ok? <==> sid in bySid
      ensures r.Ok? ==> Get(sid) == Some(r.value)
      ensures r.Err? ==> r.error == "Session not found"
    {
      match Get(sid)
      case Some(s) => Ok(s)
      case None => Err("Session not found")
    }
  }

  class Session {
    const registry: Registry
    const id: string
    var socketId: string
    var restored: bool
    var callStack: seq<Frame>
    var initialLineageId: string
    var interrupt: bool
    /** The events emitted so far, oldest first. */
    var sent: seq<Event>

    /** `Session(socket_id, emit, emit_call)`; `freshId` stands for `str(uuid.uuid4())`. */
    constructor (registry: Registry, socketId: string, freshId: string)
      requires registry.Consistent()
      modifies registry
      ensures registry.Consistent()
      ensures this.registry == registry && id == freshId && this.socketId == socketId
      ensures !restored && callStack == [] && !interrupt && sent == []
      ensures registry.byId == old(registry.byId)[freshId := this]
      ensures registry.bySid == old(registry.bySid)[socketId := this]
      ensures registry.Get(socketId) == Some(this) && registry.GetById(freshId) == Some(this)
    {
      this.registry := registry;
      id := freshId;
      this.socketId := socketId;
      restored := false;
      callStack := [];
      initialLineageId := "";
      interrupt := false;
      sent := [];
      new;
      registry.byId := registry.byId[freshId := this];
      registry.bySid := registry.bySid[socketId := this];
    }

    /** `restore(new_socket_id)`: the old socket key goes, whichever session it named. */
    method Restore(newSid: string)
      requires registry.Consistent()
      modifies this, registry
      ensures registry.Consistent()
      ensures registry.bySid == (old(registry.bySid) - {old(socketId)})[newSid := this]
      ensures registry.byId == old(registry.byId)
      ensures socketId == newSid && restored
      ensures callStack == old(callStack) && sent == old(sent) && interrupt == old(interrupt)
      ensures initialLineageId == old(initialLineageId)
      ensures registry.Get(newSid) == Some(this)
      ensures old(socketId) != newSid ==> registry.Get(old(socketId)) == None
    {
      registry.bySid := registry.bySid - {socketId};
      registry.bySid := registry.bySid[newSid := this];
      socketId := newSid;
      restored := true;
    }

    /** `delete()`: both keys go; afterwards neither lookup finds anything under them. */
    method Delete()
      requires registry.Consistent()
      modifies registry
      ensures registry.Consistent()
      ensures registry.bySid == old(registry.bySid) - {socketId}
      ensures registry.byId == old(registry.byId) - {id}
      ensures registry.Get(socketId) == None && registry.GetById(id) == None
    {
      registry.bySid := registry.bySid - {socketId};
      registry.byId := registry.byId - {id};
    }

    /** `sync_tool_calls(funcs_to_tool_calls, funcs_to_lineage_ids)`. */
    method SyncToolCalls(toolCalls: ListDict, lineageIds: ListDict)
      modifies this
      ensures sent == old(sent) + SyncEvents(toolCalls.keys, toolCalls, lineageIds)
      ensures socketId == old(socketId) && restored == old(restored)
      ensures callStack == old(callStack) && interrupt == old(interrupt)
      ensures initialLineageId == old(initialLineageId)
    {
      var funcs := toolCalls.keys;
      var out := [];
      var i := 0;
      while i < |funcs|
        invariant 0 <= i <= |funcs|
        invariant out == SyncEvents(funcs[..i], toolCalls, lineageIds)
      {
        var func := funcs[i];
        var tcs := toolCalls.Get(func);
        var lids := lineageIds.Get(func);
        ghost var before := out;
        var k := 0;
        while k < |tcs| && k < |lids|
          invariant 0 <= k <= |tcs| && k <= |lids|
          invariant out == before + ZipEvents(tcs, lids, k)
        {
          var tc, lid := tcs[k], lids[k];
          if tc != "" && lid != "" {
            out := out + [MapTcToLid(tc, lid)];
          }
          k := k + 1;
        }
        assert out == before + FuncEvents(func, toolCalls, lineageIds);
        assert funcs[..i + 1][..i] == funcs[..i];
        assert SyncEvents(funcs[..i + 1], toolCalls, lineageIds)
               == SyncEvents(funcs[..i], toolCalls, lineageIds) + FuncEvents(func, toolCalls, lineageIds);
        i := i + 1;
      }
      assert funcs[..i] == funcs;
      sent := sent + out;
    }
  }

  // ---------------------------------------------------------------------------
  // Pairing tool calls with lineages

  function Min(a: nat, b: nat): nat {
    if a <= b then a else b
  }

  /** The events of `zip(tcs, lids)` over its first `n` pairs: empty ids are skipped. */
  function ZipEvents(tcs: seq<string>, lids: seq<string>, n: nat): seq<Event>
    requires n <= |tcs| && n <= |lids|
  {
    if n == 0 then []
    else ZipEvents(tcs, lids, n - 1)
         + (if tcs[n - 1] != "" && lids[n - 1] != "" then [MapTcToLid(tcs[n - 1], lids[n - 1])] else [])
  }

  /** The events for one function: its lists zipped, the longer one's extras dropped. */
  function FuncEvents(f: string, toolCalls: ListDict, lineageIds: ListDict): seq<Event> {
    var tcs, lids := toolCalls.Get(f), lineageIds.Get(f);
    ZipEvents(tcs, lids, Min(|tcs|, |lids|))
  }

  /** The events for the functions `funcs`, in that order. */
  function SyncEvents(funcs: seq<string>, toolCalls: ListDict, lineageIds: ListDict): seq<Event> {
    if funcs == [] then []
    else SyncEvents(funcs[..|funcs| - 1], toolCalls, lineageIds)
         + FuncEvents(funcs[|funcs| - 1], toolCalls, lineageIds)
  }

  /** The k-th tool call goes with the k-th lineage: a pair is sent exactly when it sits
      at one position of both lists, below both lengths, with neither id empty; and only
      pairing events are sent. */
  lemma {:induction false} ZipEventsSpec(tcs: seq<string>, lids: seq<string>, n: nat, tc: string, lid: string)
    requires n <= |tcs| && n <= |lids|
    ensures MapTcToLid(tc, lid) in ZipEvents(tcs, lids, n)
            <==> exists k :: 0 <= k < n && tcs[k] == tc && lids[k] == lid && tc != "" && lid != ""
    ensures forall e :: e in ZipEvents(tcs, lids, n) ==> e.MapTcToLid?
  {
    if n > 0 {
      ZipEventsSpec(tcs, lids, n - 1, tc, lid);
    }
  }

  /** With no empty ids, the events are the zip itself, position by position. */
  lemma {:induction false} ZipEventsAll(tcs: seq<string>, lids: seq<string>, n: nat)
    requires n <= |tcs| && n <= |lids|
    requires forall k :: 0 <= k < n ==> tcs[k] != "" && lids[k] != ""
    ensures ZipEvents(tcs, lids, n) == seq(n, k requires 0 <= k < n => MapTcToLid(tcs[k], lids[k]))
  {
    if n > 0 {
      ZipEventsAll(tcs, lids, n - 1);
    }
  }

  /** A pairing event is sent exactly when some listed function pairs it. */
  lemma {:induction false} SyncEventsSpec(funcs: seq<string>, toolCalls: ListDict, lineageIds: ListDict, e: Event)
    ensures e in SyncEvents(funcs, toolCalls, lineageIds)
            <==> exists i :: 0 <= i < |funcs| && e in FuncEvents(funcs[i], toolCalls, lineageIds)
  {
    if funcs != [] {
      var init, last := funcs[..|funcs| - 1], funcs[|funcs| - 1];
      SyncEventsSpec(init, toolCalls, lineageIds, e);
      var before := SyncEvents(init, toolCalls, lineageIds);
      assert SyncEvents(funcs, toolCalls, lineageIds) == before + FuncEvents(last, toolCalls, lineageIds);
      if e in before {
        var i :| 0 <= i < |init| && e in FuncEvents(init[i], toolCalls, lineageIds);
        assert funcs[i] == init[i];
      } else if e !in FuncEvents(last, toolCalls, lineageIds) {
        forall i | 0 <= i < |funcs| ensures e !in FuncEvents(funcs[i], toolCalls, lineageIds) {
          if i < |init| {
            assert funcs[i] == init[i];
          }
        }
      }
    }
  }

  /** A function with tool calls but no lineages yet (or the reverse) sends nothing. */
  lemma {:induction false} FuncEventsNeedBoth(f: string, toolCalls: ListDict, lineageIds: ListDict)
    requires toolCalls.Get(f) == [] || lineageIds.Get(f) == []
    ensures FuncEvents(f, toolCalls, lineageIds) == []
  {
  }
}
