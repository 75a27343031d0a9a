/**
 * The YAML editor's two value transforms and its change-suppression protocol.
 *
 * Before a value is rendered as YAML every single-line string gets a trailing
 * newline, so that the YAML dumper writes it as a literal block; after the user's
 * YAML is parsed back, one trailing newline is taken off every string again.
 * When the value shown changes from outside, the editor text is overwritten and the
 * change event that this overwrite fires is swallowed by a one-shot flag.
 */
module YamlEditor {
  import opened Wrappers

  /** The JSON-like values YAML loads into and is dumped from. Numbers are opaque
      tokens: the transforms never look inside them. A `JDate` is the `Date` object that
      js-yaml's default schema builds for a timestamp such as `2024-01-01`; it has no
      own enumerable entries. */
  datatype Json =
    | JNull
    | JBool(b: bool)
    | JNumber(n: int)
    | JString(s: string)
    | JArray(items: seq<Json>)
    | JObject(members: seq<Member>)
    | JDate(iso: string)

  /** One `[key, value]` pair of `Object.entries`, in insertion order. */
  datatype Member = Member(key: string, value: Json)

  predicate EndsWithNewline(s: string) {
    |s| > 0 && s[|s| - 1] == '\n'
  }

  /** `convertToMultiline`: a string without a newline gets one appended; arrays and
      objects are rebuilt entry by entry, so a date, having no entries, becomes `{}`;
      every other value is returned as it is. */
  function Convert(v: Json): Json {
    match v
    case JString(s) => if '\n' in s then v else JString(s + "\n")
    case JArray(items) => JArray(seq(|items|, i requires 0 <= i < |items| => Convert(items[i])))
    case JObject(ms) =>
      JObject(seq(|ms|, i requires 0 <= i < |ms| => Member(ms[i].key, Convert(ms[i].value))))
    case JDate(_) => JObject([])
    case _ => v
  }

  /** `cleanupMultiline`: `s.replace(/\n$/, '')` on strings (without the `m` flag, `$`
      matches only at the very end), recursion through arrays and objects; a date
      becomes `{}`. */
  function Cleanup(v: Json): Json {
    match v
    case JString(s) => if EndsWithNewline(s) then JString(s[..|s| - 1]) else v
    case JArray(items) => JArray(seq(|items|, i requires 0 <= i < |items| => Cleanup(items[i])))
    case JObject(ms) =>
      JObject(seq(|ms|, i requires 0 <= i < |ms| => Member(ms[i].key, Cleanup(ms[i].value))))
    case JDate(_) => JObject([])
    case _ => v
  }

  /** `a` and `b` have the same shape — same array lengths, same object keys in the same
      order, identical non-string scalars, a date in `a` where `b` has an empty object —
      and at each string leaf `rel` holds of the two strings. */
  predicate Pointwise(a: Json, b: Json, rel: (string, string) -> bool) {
    match a
    case JString(s) => b.JString? && rel(s, b.s)
    case JArray(x) =>
      b.JArray? && |x| == |b.items|
      && forall i :: 0 <= i < |x| ==> Pointwise(x[i], b.items[i], rel)
    case JObject(x) =>
      b.JObject? && |x| == |b.members|
      && forall i :: 0 <= i < |x| ==>
           x[i].key == b.members[i].key && Pointwise(x[i].value, b.members[i].value, rel)
    case JDate(_) => b == JObject([])
    case _ => a == b
  }

  /** Every string leaf of `v` satisfies `p`. */
  predicate AllStrings(v: Json, p: string -> bool) {
    match v
    case JString(s) => p(s)
    case JArray(x) => forall i :: 0 <= i < |x| ==> AllStrings(x[i], p)
    case JObject(x) => forall i :: 0 <= i < |x| ==> AllStrings(x[i].value, p)
    case _ => true
  }

  /** `v` holds no date. */
  predicate Plain(v: Json) {
    match v
    case JDate(_) => false
    case JArray(x) => forall i :: 0 <= i < |x| ==> Plain(x[i])
    case JObject(x) => forall i :: 0 <= i < |x| ==> Plain(x[i].value)
    case _ => true
  }

  /** What the first transform does to one string. */
  predicate MadeMultiline(s: string, t: string) {
    if '\n' in s then t == s else t == s + "\n"
  }

  /** What the second transform does to one string: exactly one trailing newline gone,
      or nothing when there is none. */
  predicate OneNewlineDropped(s: string, t: string) {
    if EndsWithNewline(s) then s == t + "\n" else t == s
  }

  /** `convertToMultiline` keeps the shape and makes each string multi-line. */
  lemma {:induction false} ConvertPointwise(v: Json)
    ensures Pointwise(v, Convert(v), MadeMultiline)
  {
    match v
    case JString(s) =>
    case JArray(x) =>
      forall i | 0 <= i < |x| ensures Pointwise(x[i], Convert(v).items[i], MadeMultiline) {
        ConvertPointwise(x[i]);
      }
    case JObject(x) =>
      forall i | 0 <= i < |x|
        ensures x[i].key == Convert(v).members[i].key
        ensures Pointwise(x[i].value, Convert(v).members[i].value, MadeMultiline)
      {
        ConvertPointwise(x[i].value);
      }
    case _ =>
  }

  /** `cleanupMultiline` keeps the shape and drops one trailing newline per string. */
  lemma {:induction false} CleanupPointwise(v: Json)
    ensures Pointwise(v, Cleanup(v), OneNewlineDropped)
  {
    match v
    case JString(s) =>
      if EndsWithNewline(s) {
        assert s == s[..|s| - 1] + "\n";
      }
    case JArray(x) =>
      forall i | 0 <= i < |x| ensures Pointwise(x[i], Cleanup(v).items[i], OneNewlineDropped) {
        CleanupPointwise(x[i]);
      }
    case JObject(x) =>
      forall i | 0 <= i < |x|
        ensures x[i].key == Cleanup(v).members[i].key
        ensures Pointwise(x[i].value, Cleanup(v).members[i].value, OneNewlineDropped)
      {
        CleanupPointwise(x[i].value);
      }
    case _ =>
  }

  /** After `convertToMultiline` every string holds a newline, and no date is left. */
  lemma {:induction false} ConvertAllMultiline(v: Json)
    ensures AllStrings(Convert(v), s => '\n' in s)
    ensures Plain(Convert(v))
  {
    match v
    case JString(s) =>
      if '\n' !in s {
        assert (s + "\n")[|s|] == '\n';
      }
    case JArray(x) =>
      forall i | 0 <= i < |x|
        ensures AllStrings(Convert(v).items[i], s => '\n' in s) && Plain(Convert(v).items[i])
      {
        ConvertAllMultiline(x[i]);
      }
    case JObject(x) =>
      forall i | 0 <= i < |x|
        ensures AllStrings(Convert(v).members[i].value, s => '\n' in s) && Plain(Convert(v).members[i].value)
      {
        ConvertAllMultiline(x[i].value);
      }
    case _ =>
  }

  /** A value without dates whose strings all hold a newline is left alone by
      `convertToMultiline`, so converting twice is converting once. */
  lemma {:induction false} ConvertFixesMultiline(v: Json)
    requires AllStrings(v, s => '\n' in s) && Plain(v)
    ensures Convert(v) == v
  {
    match v
    case JString(s) =>
    case JArray(x) =>
      forall i | 0 <= i < |x| ensures Convert(x[i]) == x[i] {
        ConvertFixesMultiline(x[i]);
      }
      assert Convert(v).items == x;
    case JObject(x) =>
      forall i | 0 <= i < |x| ensures Member(x[i].key, Convert(x[i].value)) == x[i] {
        ConvertFixesMultiline(x[i].value);
      }
      assert Convert(v).members == x;
    case _ =>
  }

  lemma {:induction false} ConvertIdempotent(v: Json)
    ensures Convert(Convert(v)) == Convert(v)
  {
    ConvertAllMultiline(v);
    ConvertFixesMultiline(Convert(v));
  }

  /** Cleaning up a converted value gives it back, provided it holds no date and no
      string of it already ended in a newline. */
  lemma {:induction false} CleanupConvert(v: Json)
    requires AllStrings(v, s => !EndsWithNewline(s)) && Plain(v)
    ensures Cleanup(Convert(v)) == v
  {
    match v
    case JString(s) =>
      if '\n' !in s {
        assert (s + "\n")[..|s|] == s;
      }
    case JArray(x) =>
      forall i | 0 <= i < |x| ensures Cleanup(Convert(x[i])) == x[i] {
        CleanupConvert(x[i]);
      }
      assert Cleanup(Convert(v)).items == x;
    case JObject(x) =>
      forall i | 0 <= i < |x| ensures Member(x[i].key, Cleanup(Convert(x[i].value))) == x[i] {
        CleanupConvert(x[i].value);
      }
      assert Cleanup(Convert(v)).members == x;
    case _ =>
  }

  /** The proviso of the round trip cannot be dropped: a string that already ends in a
      newline holds one, so it is not extended, yet it loses its newline on the way back. */
  lemma {:induction false} CleanupConvertNeedsProviso()
    ensures Cleanup(Convert(JString("a\n"))) == JString("a")
  {
    assert "a\n"[1] == '\n';
    assert "a\n"[..1] == "a";
  }

  /** A timestamp the user types reaches the parent as an empty object. */
  lemma {:induction false} TimestampBecomesEmptyObject(v: View, value: string, d: string)
    requires !v.preventNext && value != ""
    ensures ChangeStep(v, value, Ok(JObject([Member("at", JDate(d))]))).emitted
            == v.emitted + [JObject([Member("at", JObject([]))])]
  {
    assert Cleanup(JObject([Member("at", JDate(d))])) == JObject([Member("at", JObject([]))]);
  }

  /** What the editor component holds between events: whether Monaco is mounted, the
      editor's text, the suppression flag, the error shown, and the values handed to
      the parent's `onChange`, oldest first. */
  datatype View = View(
    mounted: bool,
    content: string,
    preventNext: bool,
    error: Option<string>,
    emitted: seq<Json>)

  /** The effect run when the rendered YAML changes: an unmounted editor is skipped;
      a mounted one whose text differs is overwritten and the flag raised. */
  function SyncStep(v: View, yaml: string): View {
    if v.mounted && v.content != yaml then v.(content := yaml, preventNext := true) else v
  }

  /** The editor's change event for new text `value`; `parsed` is what `yamlParse` makes
      of it, an error message when it throws. */
  function ChangeStep(v: View, value: string, parsed: Result<Json, string>): View {
    var v := v.(content := value);
    if v.preventNext then v.(preventNext := false)
    else if value == "" then v
    else match parsed
      case Ok(j) => v.(error := None, emitted := v.emitted + [Cleanup(j)])
      case Err(msg) => v.(error := Some(msg))
  }

  /** A sync that finds different text overwrites it and raises the flag; one that
      finds the same text, or no editor, changes nothing. */
  lemma {:induction false} SyncOverwrites(v: View, yaml: string)
    ensures var w := SyncStep(v, yaml);
            && (v.mounted && v.content != yaml ==> w.content == yaml && w.preventNext)
            && (!v.mounted || v.content == yaml ==> w == v)
            && w.emitted == v.emitted && w.error == v.error
  {
  }

  /** A flagged change event only lowers the flag: nothing reaches the parent and the
      error shown stays as it was. */
  lemma {:induction false} ChangeSuppressed(v: View, value: string, parsed: Result<Json, string>)
    requires v.preventNext
    ensures var w := ChangeStep(v, value, parsed);
            !w.preventNext && w.emitted == v.emitted && w.error == v.error
  {
  }

  /** An unflagged change event of non-empty text hands the cleaned-up value on, or
      shows the parse error; empty text is ignored. */
  lemma {:induction false} ChangePropagates(v: View, value: string, parsed: Result<Json, string>)
    requires !v.preventNext
    ensures var w := ChangeStep(v, value, parsed);
            && !w.preventNext
            && (value == "" ==> w.emitted == v.emitted && w.error == v.error)
            && (value != "" && parsed.Ok? ==>
                  w.emitted == v.emitted + [Cleanup(parsed.value)] && w.error == None)
            && (value != "" && parsed.Err? ==>
                  w.emitted == v.emitted && w.error == Some(parsed.error))
  {
  }

  /** Exactly one event is swallowed: after an overwriting sync, the change event the
      overwrite fires reaches nobody, and the next non-empty, parseable edit does. */
  lemma {:induction false} ExactlyOneSuppressed(v: View, yaml: string, p: Result<Json, string>,
                                                 edit: string, j: Json)
    requires v.mounted && v.content != yaml && edit != ""
    ensures var w1 := SyncStep(v, yaml);
            var w2 := ChangeStep(w1, yaml, p);
            var w3 := ChangeStep(w2, edit, Ok(j));
            && w2.emitted == v.emitted && w2.content == yaml
            && w3.emitted == v.emitted + [Cleanup(j)]
  {
    SyncOverwrites(v, yaml);
    ChangeSuppressed(SyncStep(v, yaml), yaml, p);
    ChangePropagates(ChangeStep(SyncStep(v, yaml), yaml, p), edit, Ok(j));
  }

  /** The component itself: Monaco's text and the `preventNextOnChange` ref are fields
      its event handlers update. */
  class YamlEditorView {
    var mounted: bool
    var content: string
    var preventNext: bool
    var error: Option<string>
    var emitted: seq<Json>

    function State(): View
      reads this
    {
      View(mounted, content, preventNext, error, emitted)
    }

    /** Before mount: no editor, flag down, no error, nothing handed on. */
    constructor ()
      ensures State() == View(false, "", false, None, [])
    {
      mounted, content, preventNext, error, emitted := false, "", false, None, [];
    }

    /** `onMount`: the editor starts out holding `defaultValue`, the rendered YAML. */
    method Mount(yaml: string)
      modifies this
      ensures State() == old(State()).(mounted := true, content := yaml)
    {
      mounted := true;
      content := yaml;
    }

    /** The effect on `[yamlString]`. */
    method Sync(yaml: string)
      modifies this
      ensures State() == SyncStep(old(State()), yaml)
    {
      if !mounted {
        return;
      }
      if content != yaml {
        preventNext := true;
        content := yaml;
      }
    }

    /** The `onChange` handler, fired with the editor's new text. */
    method OnChange(value: string, parsed: Result<Json, string>)
      modifies this
      ensures State() == ChangeStep(old(State()), value, parsed)
    {
      content := value;
      if preventNext {
        preventNext := false;
        return;
      }
      if value == "" {
        return;
      }
      error := None;
      match parsed {
        case Ok(j) =>
          emitted := emitted + [Cleanup(j)];
        case Err(msg) =>
          error := Some(msg);
      }
    }
  }
}
