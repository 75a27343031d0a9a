/**
 * Editing one chat message: the message editor's "add text block" and "add image"
 * actions, its role and content replacement, the content editor's per-block edits,
 * and the chat body's replacement of one message of the current state.
 */
module MessageEdits {
  import opened Wrappers
  import opened ChatTypes

  /** The content as a list of blocks: a string is one text block, no content none. */
  function Blocks(c: Content): seq<Part> {
    match c
    case NoContent => []
    case TextContent(s) => [TextPart(s)]
    case Parts(ps) => ps
  }

  /** The shared shape of `addText`/`addImage`: string content is promoted to a text
      block followed by the new one; list content (`content || []`) gets it appended. */
  function AddBlock(c: Content, b: Part): (r: Content) {
    match c
    case TextContent(s) => Parts([TextPart(s), b])
    case Parts(ps) => Parts(ps + [b])
    case NoContent => Parts([b])
  }

  /** Adding a block never loses what was there: the result is a list whose blocks are
      the old content's blocks followed by the new one. */
  lemma {:induction false} AddBlockAppends(c: Content, b: Part)
    ensures AddBlock(c, b).Parts?
    ensures Blocks(AddBlock(c, b)) == Blocks(c) + [b]
    ensures |Blocks(AddBlock(c, b))| == |Blocks(c)| + 1
  {
  }

  /** `addText` as intended: an empty text block is added to the message shown, as
      `addImage`, which depends on the whole message, does. */
  function AddText(m: UiMessage): UiMessage {
    m.(content := AddBlock(m.content, TextPart("")))
  }

  /** `addImage(url)`: an image block whose `image_url` is the object `{url}`. */
  function AddImage(m: UiMessage, url: string): UiMessage {
    m.(content := AddBlock(m.content, ImagePart(UrlObject(url))))
  }

  /** The URL the content editor displays for an image block. */
  function DisplayUrl(u: ImageUrl): (r: string) {
    match u
    case UrlString(s) => s
    case UrlObject(o) => o
  }

  /** Both actions keep every field but `content`, keep the old blocks, and add exactly
      one block at the end: an empty text block, or an image the editor then shows under
      the given URL. */
  lemma {:induction false} AddActionsSpec(m: UiMessage, url: string)
    ensures var t := AddText(m);
            && t.role == m.role && t.name == m.name && t.toolCalls == m.toolCalls
            && t.toolCallId == m.toolCallId
            && Blocks(t.content) == Blocks(m.content) + [TextPart("")]
    ensures var i := AddImage(m, url);
            && i.role == m.role && i.name == m.name && i.toolCalls == m.toolCalls
            && i.toolCallId == m.toolCallId
            && Blocks(i.content) == Blocks(m.content) + [ImagePart(UrlObject(url))]
            && DisplayUrl(Blocks(i.content)[|Blocks(m.content)|].imageUrl) == url
  {
    AddBlockAppends(m.content, TextPart(""));
    AddBlockAppends(m.content, ImagePart(UrlObject(url)));
  }

  /** The message the memoised `addText` spreads. The callback depends on
      `[message.content, onChange]` only, so it is rebuilt, and captures the message of
      that render, only when the content or the handler changes. `renders` lists the
      messages of every render so far, oldest first. `stableHandler` says the parent
      passes the same `onChange` each time, as the composer does with its state setter;
      the chat body passes a new closure on every render. React compares the dependencies
      with `Object.is`, by reference; the model compares contents by value, which differs
      only when an equal but new content array is passed. */
  function Captured(renders: seq<UiMessage>, stableHandler: bool): UiMessage
    requires |renders| > 0
    decreases |renders|
  {
    var n := |renders| - 1;
    if n == 0 || !stableHandler || renders[n].content != renders[n - 1].content then renders[n]
    else Captured(renders[..n], stableHandler)
  }

  /** The "Add Text Block" action as written: the empty text block is added to the
      captured message. */
  function AddTextAsWritten(renders: seq<UiMessage>, stableHandler: bool): UiMessage
    requires |renders| > 0
  {
    AddText(Captured(renders, stableHandler))
  }

  /** The captured message is one of the renders since the content last changed. Its
      content is always the current one, and with a new handler on every render it is
      the current message. */
  lemma {:induction false} CapturedSpec(renders: seq<UiMessage>, stableHandler: bool)
    requires |renders| > 0
    ensures Captured(renders, stableHandler).content == renders[|renders| - 1].content
    ensures Captured(renders, stableHandler) in renders
    ensures !stableHandler ==> Captured(renders, stableHandler) == renders[|renders| - 1]
    decreases |renders|
  {
    var n := |renders| - 1;
    if n > 0 && stableHandler && renders[n].content == renders[n - 1].content {
      CapturedSpec(renders[..n], stableHandler);
      assert renders[..n][n - 1] == renders[n - 1];
    }
  }

  /** As written, the action adds the empty block to the current content, but it takes
      every other field from the captured message. It equals `AddText` of the current
      message exactly when the two agree on those fields. */
  lemma {:induction false} AddTextAsWrittenSpec(renders: seq<UiMessage>, stableHandler: bool)
    requires |renders| > 0
    ensures var last := renders[|renders| - 1];
            var r := AddTextAsWritten(renders, stableHandler);
            && r.content == AddText(last).content
            && r == Captured(renders, stableHandler).(content := r.content)
            && (r == AddText(last) <==> Captured(renders, stableHandler) == last)
            && (!stableHandler ==> r == AddText(last))
  {
    CapturedSpec(renders, stableHandler);
  }

  /** In the composer, picking a new role and then adding a text block brings the old
      role back, where `AddText` of the message shown keeps the new role. */
  lemma {:induction false} AddTextRevertsRole(m: UiMessage, role: string)
    requires role != m.role
    ensures AddTextAsWritten([m, SetRole(m, role)], true).role == m.role
    ensures AddText(SetRole(m, role)).role == role
  {
    var renders := [m, SetRole(m, role)];
    assert renders[1].content == renders[0].content;
    assert renders[..1] == [m];
    assert Captured(renders[..1], true) == m;
    assert Captured(renders, true) == m;
  }

  /** The role selector's change. */
  function SetRole(m: UiMessage, role: string): UiMessage {
    m.(role := role)
  }

  /** The content editor's change, passed up as `{...message, content}`. */
  function SetContent(m: UiMessage, c: Content): UiMessage {
    m.(content := c)
  }

  /** Role and content are independent fields: each replacement changes only its own
      field, the two commute, and a later replacement of the same field wins. */
  lemma {:induction false} ReplacementsIndependent(m: UiMessage, r1: string, r2: string, c1: Content, c2: Content)
    ensures SetRole(m, r1).content == m.content && SetRole(m, r1).role == r1
    ensures SetContent(m, c1).role == m.role && SetContent(m, c1).content == c1
    ensures SetRole(SetContent(m, c1), r1) == SetContent(SetRole(m, r1), c1)
    ensures SetRole(SetRole(m, r1), r2) == SetRole(m, r2)
    ensures SetContent(SetContent(m, c1), c2) == SetContent(m, c2)
    ensures SetRole(m, m.role) == m && SetContent(m, m.content) == m
  {
  }

  /** The content editor is given `message.content || ''`: a message without content
      is edited as an empty string. */
  function Shown(c: Content): Content {
    if c.NoContent? then TextContent("") else c
  }

  /** The content editor's `addImage` (used when an image is pasted). */
  function PasteImage(c: Content, url: string): Content
    requires !c.NoContent?
  {
    match c
    case TextContent(s) => Parts([TextPart(s), ImagePart(UrlObject(url))])
    case Parts(ps) => Parts(ps + [ImagePart(UrlObject(url))])
  }

  /** Pasting an image into content that is already a list appends it, as the dialog
      does; into a message without content the two differ: a paste leaves an empty text
      block in front of the image, the dialog does not. */
  lemma {:induction false} PasteVersusDialog(m: UiMessage, url: string)
    ensures m.content.Parts? || m.content.TextContent? ==>
              SetContent(m, PasteImage(Shown(m.content), url)) == AddImage(m, url)
    ensures m.content.NoContent? ==>
              Blocks(PasteImage(Shown(m.content), url)) == [TextPart(""), ImagePart(UrlObject(url))]
              && Blocks(AddImage(m, url).content) == [ImagePart(UrlObject(url))]
  {
  }

  /** Typing `text` into text block `i` (only text blocks have a text area). */
  function EditText(ps: seq<Part>, i: nat, text: string): (r: seq<Part>)
    requires i < |ps| && ps[i].TextPart?
  {
    seq(|ps|, j requires 0 <= j < |ps| => if j == i then ps[j].(text := text) else ps[j])
  }

  /** Only block `i` changes, and only in its text; the list keeps its length. Typing
      the old text back restores the list. */
  lemma {:induction false} EditTextSpec(ps: seq<Part>, i: nat, text: string)
    requires i < |ps| && ps[i].TextPart?
    ensures var r := EditText(ps, i, text);
            && |r| == |ps| && r[i] == TextPart(text)
            && (forall j :: 0 <= j < |ps| && j != i ==> r[j] == ps[j])
            && EditText(r, i, ps[i].text) == ps
  {
    var r := EditText(ps, i, text);
    assert EditText(r, i, ps[i].text) == ps;
  }

  /** `content.filter((_, j) => i !== j)`. */
  function Delete(ps: seq<Part>, i: nat): (r: seq<Part>)
    decreases |ps|
  {
    if ps == [] then []
    else if i == 0 then ps[1..]
    else [ps[0]] + Delete(ps[1..], i - 1)
  }

  /** Deleting block `i` removes exactly that block and keeps the others in order;
      putting it back gives the list again. An index past the end deletes nothing. */
  lemma {:induction false} DeleteSpec(ps: seq<Part>, i: nat)
    ensures i >= |ps| ==> Delete(ps, i) == ps
    ensures i < |ps| ==> Delete(ps, i) == ps[..i] + ps[i + 1..]
                         && |Delete(ps, i)| == |ps| - 1
                         && Delete(ps, i)[..i] + [ps[i]] + Delete(ps, i)[i..] == ps
    decreases |ps|
  {
    if ps != [] && i > 0 {
      DeleteSpec(ps[1..], i - 1);
      if i < |ps| {
        assert ps[1..][..i - 1] + ps[1..][i..] == ps[1..i] + ps[i + 1..];
        assert [ps[0]] + ps[1..i] == ps[..i];
      } else {
        assert [ps[0]] + ps[1..] == ps;
      }
    }
  }

  /** Whether block `i` offers a delete action: every image does, every text block but
      the first. */
  predicate CanDelete(ps: seq<Part>, i: nat)
    requires i < |ps|
  {
    ps[i].ImagePart? || i != 0
  }

  /** A content that starts with a text block keeps it through every delete the editor
      offers. */
  lemma {:induction false} FirstTextSurvives(ps: seq<Part>, i: nat)
    requires i < |ps| && CanDelete(ps, i) && ps[0].TextPart?
    ensures Delete(ps, i) != [] && Delete(ps, i)[0] == ps[0]
  {
    DeleteSpec(ps, i);
    assert i != 0;
  }

  /** `onMessageChange(m, i)`: the messages are `slice(0, i)`, then `m`, then
      `slice(i + 1)`; every other field of the state is kept. */
  function ChangeMessage(st: LooplitState, m: UiMessage, i: nat): LooplitState {
    st.(messages := Take(st.messages, i) + [m] + Skip(st.messages, i + 1))
  }

  /** For an index inside the conversation the message there is replaced and nothing
      else: the length is kept and so is every other message. Past the end the message is
      appended. */
  lemma {:induction false} ChangeMessageSpec(st: LooplitState, m: UiMessage, i: nat)
    ensures var r := ChangeMessage(st, m, i);
            && r.id == st.id && r.tools == st.tools
            && (i < |st.messages| ==>
                  |r.messages| == |st.messages| && r.messages[i] == m
                  && forall j :: 0 <= j < |st.messages| && j != i ==> r.messages[j] == st.messages[j])
            && (i >= |st.messages| ==> r.messages == st.messages + [m])
  {
    var r := ChangeMessage(st, m, i);
    if i < |st.messages| {
      forall j | 0 <= j < |st.messages| && j != i
        ensures r.messages[j] == st.messages[j]
      {
        if j < i {
          assert r.messages[j] == Take(st.messages, i)[j];
        } else {
          assert r.messages[j] == Skip(st.messages, i + 1)[j - i - 1];
        }
      }
    }
  }

  /** Putting back the message that was there is no change, and of two changes at the
      same index the later wins. */
  lemma {:induction false} ChangeMessageRestores(st: LooplitState, m1: UiMessage, m2: UiMessage, i: nat)
    requires i < |st.messages|
    ensures ChangeMessage(st, st.messages[i], i) == st
    ensures ChangeMessage(ChangeMessage(st, m1, i), m2, i) == ChangeMessage(st, m2, i)
  {
    assert Take(st.messages, i) + [st.messages[i]] + Skip(st.messages, i + 1) == st.messages;
    var once := ChangeMessage(st, m1, i);
    ChangeMessageSpec(st, m1, i);
    assert Take(once.messages, i) == Take(st.messages, i);
    assert Skip(once.messages, i + 1) == Skip(st.messages, i + 1);
  }

  /** The chat body passes an edit handler only while nothing is running; an edit then
      becomes the lineage's edit state. */
  function ChangeFromBody(running: bool, st: LooplitState, m: UiMessage, i: nat): (r: Option<LooplitState>)
    ensures r.None? <==> running
  {
    if running then None else Some(ChangeMessage(st, m, i))
  }
}
