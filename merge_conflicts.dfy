/**
 * The merge-conflict text model of the state merge editor
 * (frontend/src/components/StateMergeEditor.tsx).
 *
 * The editor buffer is a sequence of lines (the buffer text split on '\n').
 * Git-style markers at the start of a line delimit a conflict: a start
 * marker, an optional middle marker, an end marker. This module holds
 *   - the blank-line padding applied before display (`addBlankLines`),
 *   - the one-pass conflict scanner (`parseConflicts`),
 *   - the editor surface: highlight bands, one action widget per conflict,
 *     and the resolution of one conflict by a line splice (`makeEdit`).
 */
module MergeConflicts {
  import opened Wrappers
  import opened Text

  const START := "<<<<<<<"
  const MIDDLE := "======="
  const END := ">>>>>>>"

  predicate IsStart(line: string) { StartsWith(line, START) }
  predicate IsMiddle(line: string) { StartsWith(line, MIDDLE) }
  predicate IsEnd(line: string) { StartsWith(line, END) }

  /** A line that opens or closes a conflict block. */
  predicate IsDelimiter(line: string) { IsStart(line) || IsEnd(line) }

  /** The three markers begin with different characters, so a line is at most one of them;
      and a marker line is never blank. */
  lemma {:induction false} MarkersExclusive(line: string)
    ensures IsMiddle(line) ==> !IsStart(line) && !IsEnd(line)
    ensures IsStart(line) ==> !IsEnd(line)
    ensures IsStart(line) || IsMiddle(line) || IsEnd(line) ==> !IsBlank(line)
  {
    if IsStart(line) || IsMiddle(line) || IsEnd(line) {
      assert line[0] == '<' || line[0] == '=' || line[0] == '>';
      BlankIffAllWhitespace(line);
      assert !IsJsWhitespace(line[0]);
    }
  }

  // ---------------------------------------------------------------------------
  // Blank-line padding (`addBlankLines`)
  // ---------------------------------------------------------------------------

  /** `addBlankLines` puts a blank line before line `i`: a start marker that is not
      the first line and whose predecessor does not trim to nothing. */
  predicate NeedsPad(lines: seq<string>, i: nat)
    requires i < |lines|
  {
    IsStart(lines[i]) && i > 0 && !IsBlank(lines[i - 1])
  }

  /** The padded buffer, built one input line at a time as the source's loop does. */
  function Pad(lines: seq<string>): (r: seq<string>)
    ensures |r| == |lines| + CountPads(lines, |lines|)
  {
    if lines == [] then []
    else
      var n := |lines| - 1;
      CountPadsPrefix(lines, n, n);
      Pad(lines[..n]) + (if NeedsPad(lines, n) then ["", lines[n]] else [lines[n]])
  }

  /** How many of the first `n` lines get a blank line inserted before them. */
  function CountPads(lines: seq<string>, n: nat): (k: nat)
    requires n <= |lines|
    ensures k <= n
  {
    if n == 0 then 0 else CountPads(lines, n - 1) + (if NeedsPad(lines, n - 1) then 1 else 0)
  }

  lemma {:induction false} CountPadsPrefix(lines: seq<string>, m: nat, n: nat)
    requires n <= m <= |lines|
    ensures CountPads(lines[..m], n) == CountPads(lines, n)
  {
    if n > 0 {
      CountPadsPrefix(lines, m, n - 1);
      assert lines[..m][n - 1] == lines[n - 1];
      assert n - 1 > 0 ==> lines[..m][n - 2] == lines[n - 2];
    }
  }

  lemma {:induction false} CountPadsMono(lines: seq<string>, a: nat, b: nat)
    requires a <= b <= |lines|
    ensures CountPads(lines, a) <= CountPads(lines, b)
    decreases b - a
  {
    if a < b { CountPadsMono(lines, a, b - 1); }
  }

  /** Where input line `i` lands in the padded buffer. */
  function Slot(lines: seq<string>, i: nat): (p: nat)
    requires i < |lines|
    ensures i <= p < |lines| + CountPads(lines, |lines|)
  {
    CountPadsMono(lines, i + 1, |lines|);
    i + CountPads(lines, i + 1)
  }

  lemma {:induction false} PadAtLast(lines: seq<string>)
    requires lines != []
    ensures Pad(lines)[Slot(lines, |lines| - 1)] == lines[|lines| - 1]
    ensures NeedsPad(lines, |lines| - 1) ==> Pad(lines)[Slot(lines, |lines| - 1) - 1] == ""
  {
    var n := |lines| - 1;
    CountPadsPrefix(lines, n, n);
  }

  lemma {:induction false} PadAt(lines: seq<string>, i: nat)
    requires i < |lines|
    ensures Pad(lines)[Slot(lines, i)] == lines[i]
    ensures NeedsPad(lines, i) ==> Pad(lines)[Slot(lines, i) - 1] == ""
  {
    var n := |lines| - 1;
    if i < n {
      var pre := lines[..n];
      PadAt(pre, i);
      CountPadsPrefix(lines, n, i + 1);
      assert Slot(pre, i) == Slot(lines, i);
      assert NeedsPad(pre, i) == NeedsPad(lines, i) by {
        assert pre[i] == lines[i];
        assert i > 0 ==> pre[i - 1] == lines[i - 1];
      }
      assert Pad(lines)[..|Pad(pre)|] == Pad(pre);
    } else {
      PadAtLast(lines);
    }
  }

  /** The layout of the padded buffer: input line `i` sits at `Slot(lines, i)`, an inserted
      `""` sits right before each line that needs padding, and the buffer grows by exactly
      the number of inserted lines. */
  lemma {:induction false} PadLayout(lines: seq<string>)
    ensures |Pad(lines)| == |lines| + CountPads(lines, |lines|)
    ensures forall i :: 0 <= i < |lines| ==> Pad(lines)[Slot(lines, i)] == lines[i]
    ensures forall i :: 0 <= i < |lines| && NeedsPad(lines, i) ==> Pad(lines)[Slot(lines, i) - 1] == ""
  {
    forall i | 0 <= i < |lines|
      ensures Pad(lines)[Slot(lines, i)] == lines[i]
      ensures NeedsPad(lines, i) ==> Pad(lines)[Slot(lines, i) - 1] == ""
    {
      PadAt(lines, i);
    }
  }

  /** The last line of the padded buffer is the last input line. */
  lemma {:induction false} PadLast(lines: seq<string>)
    requires lines != []
    ensures |Pad(lines)| >= 1 && Pad(lines)[|Pad(lines)| - 1] == lines[|lines| - 1]
  {
  }

  /** Padding a buffer in which no line needs padding changes nothing. */
  lemma {:induction false} PadNoOp(lines: seq<string>)
    requires forall i :: 0 <= i < |lines| ==> !NeedsPad(lines, i)
    ensures Pad(lines) == lines
  {
    if lines != [] {
      var n := |lines| - 1;
      forall i | 0 <= i < n ensures !NeedsPad(lines[..n], i) {
        assert !NeedsPad(lines, i);
        assert lines[..n][i] == lines[i];
        assert i > 0 ==> lines[..n][i - 1] == lines[i - 1];
      }
      PadNoOp(lines[..n]);
      assert lines == lines[..n] + [lines[n]];
    }
  }

  /** In the padded buffer every start marker after line 0 already follows a blank line. */
  lemma {:induction false} PadLeavesNothingToPad(lines: seq<string>)
    ensures forall j :: 0 <= j < |Pad(lines)| ==> !NeedsPad(Pad(lines), j)
  {
    if lines != [] {
      var n := |lines| - 1;
      var p := Pad(lines[..n]);
      var out := Pad(lines);
      PadLeavesNothingToPad(lines[..n]);
      assert IsBlank("");
      assert out[..|p|] == p;
      forall j | 0 <= j < |out| ensures !NeedsPad(out, j) {
        if j < |p| {
          assert !NeedsPad(p, j);
          assert out[j] == p[j];
          assert j > 0 ==> out[j - 1] == p[j - 1];
        } else if NeedsPad(lines, n) {
          if j == |p| {
            assert out[j] == "";
          } else {
            assert out[j - 1] == "";
          }
        } else {
          assert j == |p| && out[j] == lines[n];
          if n > 0 {
            PadLast(lines[..n]);
            assert out[j - 1] == p[|p| - 1] == lines[n - 1];
          }
        }
      }
    }
  }

  /** Padding is idempotent. */
  lemma {:induction false} PadIdempotent(lines: seq<string>)
    ensures Pad(Pad(lines)) == Pad(lines)
  {
    PadLeavesNothingToPad(lines);
    PadNoOp(Pad(lines));
  }

  /** Padding adds only `""` lines, so it keeps the buffer free of '\n' and non-empty. */
  lemma {:induction false} PadKeepsLines(lines: seq<string>)
    requires NoNewlines(lines)
    ensures NoNewlines(Pad(lines))
    ensures |Pad(lines)| >= |lines|
  {
    if lines != [] {
      var n := |lines| - 1;
      assert NoNewlines(lines[..n]) by {
        forall i | 0 <= i < n ensures '\n' !in lines[..n][i] { assert lines[..n][i] == lines[i]; }
      }
      PadKeepsLines(lines[..n]);
    }
  }

  /** `addBlankLines(text)` as a function of the text. */
  function PaddedText(text: string): string {
    Join(Pad(Split(text)))
  }

  /** `addBlankLines` (StateMergeEditor.tsx:19-33): splits, pushes lines into a fresh
      list with a blank line before each start marker that needs one, joins. */
  method AddBlankLines(text: string) returns (r: string)
    ensures r == PaddedText(text)
  {
    var lines := Split(text);
    var newLines: seq<string> := [];
    for i := 0 to |lines|
      invariant newLines == Pad(lines[..i])
    {
      assert lines[..i + 1][..i] == lines[..i];
      if StartsWith(lines[i], START) && i > 0 && Trim(lines[i - 1]) != "" {
        newLines := newLines + [""];
      }
      newLines := newLines + [lines[i]];
    }
    assert lines[..|lines|] == lines;
    r := Join(newLines);
  }

  /** The buffer the editor shows for a text is its padded line sequence. */
  lemma {:induction false} PaddedTextLines(text: string)
    ensures Split(PaddedText(text)) == Pad(Split(text))
  {
    SplitNoNewlines(text);
    PadKeepsLines(Split(text));
    SplitJoin(Pad(Split(text)));
  }

  /** `addBlankLines` is idempotent on texts. */
  lemma {:induction false} PaddedTextIdempotent(text: string)
    ensures PaddedText(PaddedText(text)) == PaddedText(text)
  {
    PaddedTextLines(text);
    PadIdempotent(Split(text));
  }

  // ---------------------------------------------------------------------------
  // Conflict records and the scanner (`parseConflicts`)
  // ---------------------------------------------------------------------------

  /** The accumulator's phase: collecting the current side, or the incoming side. */
  datatype Marker = StartMarker | MiddleMarker

  /** A parsed conflict (StateMergeEditor.tsx:35-45); line numbers are 0-based.
      `separatorLine` is unset when the block has no middle marker. */
  datatype Conflict = Conflict(
    marker: Marker,
    current: seq<string>,
    incoming: seq<string>,
    startLine: nat,
    headerLine: nat,
    separatorLine: Option<nat>,
    footerLine: nat,
    endLine: nat,
    hasBlankLineBefore: bool)

  /** The open accumulator: a conflict whose end marker has not been seen yet. */
  datatype OpenConflict = OpenConflict(
    marker: Marker,
    current: seq<string>,
    incoming: seq<string>,
    startLine: nat,
    headerLine: nat,
    separatorLine: Option<nat>,
    hasBlankLineBefore: bool)

  /** The copy pushed when the end marker at `index` closes the accumulator. */
  function Close(o: OpenConflict, index: nat): Conflict {
    Conflict(o.marker, o.current, o.incoming, o.startLine, o.headerLine,
             o.separatorLine, index, index, o.hasBlankLineBefore)
  }

  /** The scanner's state between two lines. */
  datatype ScanState = ScanState(open: Option<OpenConflict>, found: seq<Conflict>)

  /** What the `forEach` body does with line `index`. */
  function Step(lines: seq<string>, index: nat, st: ScanState): ScanState
    requires index < |lines|
  {
    var line := lines[index];
    if IsStart(line) then
      ScanState(Some(OpenConflict(StartMarker, [], [], index, index, None,
                                  index > 0 && IsBlank(lines[index - 1]))), st.found)
    else if IsMiddle(line) && st.open.Some? then
      ScanState(Some(st.open.value.(marker := MiddleMarker, separatorLine := Some(index))), st.found)
    else if IsEnd(line) && st.open.Some? then
      ScanState(None, st.found + [Close(st.open.value, index)])
    else if st.open.Some? then
      var o := st.open.value;
      if o.marker == StartMarker then ScanState(Some(o.(current := o.current + [line])), st.found)
      else ScanState(Some(o.(incoming := o.incoming + [line])), st.found)
    else st
  }

  /** The scanner's state after the first `n` lines. */
  function Scan(lines: seq<string>, n: nat): ScanState
    requires n <= |lines|
  {
    if n == 0 then ScanState(None, []) else Step(lines, n - 1, Scan(lines, n - 1))
  }

  /** `parseConflicts` on a buffer given as lines. Every record lies inside the buffer. */
  function Parse(lines: seq<string>): (r: seq<Conflict>)
    ensures forall j :: 0 <= j < |r| ==> r[j].headerLine < r[j].footerLine < |lines|
  {
    ScanInvariant(lines, |lines|);
    Scan(lines, |lines|).found
  }

  /** `parseConflicts` (StateMergeEditor.tsx:47-81): one pass with one open accumulator. */
  method ParseConflicts(text: string) returns (conflicts: seq<Conflict>)
    ensures conflicts == Parse(Split(text))
  {
    var lines := Split(text);
    conflicts := [];
    var currentConflict: Option<OpenConflict> := None;
    for index := 0 to |lines|
      invariant ScanState(currentConflict, conflicts) == Scan(lines, index)
    {
      var line := lines[index];
      if StartsWith(line, START) {
        currentConflict := Some(OpenConflict(StartMarker, [], [], index, index, None,
                                             index > 0 && Trim(lines[index - 1]) == ""));
      } else if StartsWith(line, MIDDLE) && currentConflict.Some? {
        currentConflict := Some(currentConflict.value.(marker := MiddleMarker,
                                                       separatorLine := Some(index)));
      } else if StartsWith(line, END) && currentConflict.Some? {
        conflicts := conflicts + [Close(currentConflict.value, index)];
        currentConflict := None;
      } else if currentConflict.Some? {
        var o := currentConflict.value;
        if o.marker == StartMarker {
          currentConflict := Some(o.(current := o.current + [line]));
        } else {
          currentConflict := Some(o.(incoming := o.incoming + [line]));
        }
      }
    }
  }

  // ---------------------------------------------------------------------------
  // An independent description of what the scanner finds
  // ---------------------------------------------------------------------------

  /** A conflict block: a start marker at `h`, an end marker at `f`, and neither
      marker on any line strictly between them. */
  predicate IsBlock(lines: seq<string>, h: nat, f: nat) {
    h < f < |lines| && IsStart(lines[h]) && IsEnd(lines[f])
    && forall k :: h < k < f ==> !IsDelimiter(lines[k])
  }

  /** Position of the first middle marker in `body`, or `|body|` when there is none. */
  function FirstMiddle(body: seq<string>): (m: nat)
    ensures m <= |body|
    ensures m < |body| ==> IsMiddle(body[m])
    ensures forall k :: 0 <= k < m ==> !IsMiddle(body[k])
  {
    if body == [] then 0 else if IsMiddle(body[0]) then 0 else 1 + FirstMiddle(body[1..])
  }

  /** Position of the last middle marker in `body`, if any. */
  function LastMiddle(body: seq<string>): (m: Option<nat>)
    ensures m.Some? ==> m.value < |body| && IsMiddle(body[m.value])
                        && forall k :: m.value < k < |body| ==> !IsMiddle(body[k])
    ensures m.None? ==> forall k :: 0 <= k < |body| ==> !IsMiddle(body[k])
  {
    if body == [] then None
    else if IsMiddle(body[|body| - 1]) then Some(|body| - 1)
    else LastMiddle(body[..|body| - 1])
  }

  /** The lines of `s` that are not middle markers, in order. */
  function NonMiddle(s: seq<string>): (r: seq<string>)
    ensures |r| <= |s|
  {
    if s == [] then [] else (if IsMiddle(s[0]) then [] else [s[0]]) + NonMiddle(s[1..])
  }

  lemma {:induction false} NonMiddleConcat(a: seq<string>, b: seq<string>)
    ensures NonMiddle(a + b) == NonMiddle(a) + NonMiddle(b)
  {
    if a != [] {
      assert (a + b)[1..] == a[1..] + b;
      NonMiddleConcat(a[1..], b);
    } else {
      assert a + b == b;
    }
  }

  /** Every line `NonMiddle` keeps comes from its input. */
  lemma {:induction false} NonMiddleSubset(s: seq<string>)
    ensures forall x :: x in NonMiddle(s) ==> x in s
  {
    if s != [] {
      NonMiddleSubset(s[1..]);
    }
  }

  lemma {:induction false} NonMiddleNoMarkers(s: seq<string>)
    requires forall k :: 0 <= k < |s| ==> !IsMiddle(s[k])
    ensures NonMiddle(s) == s
  {
    if s != [] { NonMiddleNoMarkers(s[1..]); }
  }

  /** What the accumulator collects from the lines of a block body: the current side is
      everything before the first middle marker, the incoming side every line after it that
      is not itself a middle marker, and the separator is the last middle marker. */
  datatype Sides = Sides(marker: Marker, current: seq<string>, incoming: seq<string>, separator: Option<nat>)

  function Collect(body: seq<string>): Sides {
    var m := FirstMiddle(body);
    Sides(if m < |body| then MiddleMarker else StartMarker, body[..m], NonMiddle(body[m..]), LastMiddle(body))
  }

  /** The accumulator a start marker at `h` has built once lines `h+1 .. n-1` are read. */
  function OpenOf(lines: seq<string>, h: nat, n: nat): OpenConflict
    requires h < n <= |lines|
  {
    var c := Collect(lines[h + 1..n]);
    OpenConflict(c.marker, c.current, c.incoming, h, h,
                 if c.separator.Some? then Some(h + 1 + c.separator.value) else None,
                 h > 0 && IsBlank(lines[h - 1]))
  }

  /** The conflict the block `h .. f` describes. */
  function BlockConflict(lines: seq<string>, h: nat, f: nat): Conflict
    requires h < f < |lines|
  {
    Close(OpenOf(lines, h, f), f)
  }

  /** The last delimiter line before line `n`, if any. */
  function LastDelimiter(lines: seq<string>, n: nat): (d: Option<nat>)
    requires n <= |lines|
    ensures d.Some? ==> d.value < n && IsDelimiter(lines[d.value])
                        && forall k :: d.value < k < n ==> !IsDelimiter(lines[k])
    ensures d.None? ==> forall k :: 0 <= k < n ==> !IsDelimiter(lines[k])
  {
    if n == 0 then None
    else if IsDelimiter(lines[n - 1]) then Some(n - 1)
    else LastDelimiter(lines, n - 1)
  }

  /** The accumulator that is open after `n` lines: the one started by the last delimiter,
      when that delimiter is a start marker. */
  function PendingOpen(lines: seq<string>, n: nat): Option<OpenConflict>
    requires n <= |lines|
  {
    var d := LastDelimiter(lines, n);
    if d.Some? && IsStart(lines[d.value]) then Some(OpenOf(lines, d.value, n)) else None
  }

  /** `c` is the record of a block of the buffer. */
  predicate Sound(lines: seq<string>, c: Conflict) {
    IsBlock(lines, c.headerLine, c.footerLine) && c == BlockConflict(lines, c.headerLine, c.footerLine)
  }

  /** Some record in `found` spans lines `h .. f`. */
  predicate Reported(found: seq<Conflict>, h: nat, f: nat) {
    exists j :: 0 <= j < |found| && found[j].headerLine == h && found[j].footerLine == f
  }

  /** Every record found before line `n` is the record of a block. */
  ghost predicate FoundSound(lines: seq<string>, n: nat, found: seq<Conflict>) {
    forall j :: 0 <= j < |found| ==> found[j].footerLine < n && Sound(lines, found[j])
  }

  /** The records follow one another in the buffer without overlapping. */
  predicate FoundOrdered(found: seq<Conflict>) {
    forall j :: 0 <= j < |found| - 1 ==> found[j].footerLine < found[j + 1].headerLine
  }

  /** Every block that ends before line `n` has been found. */
  ghost predicate FoundComplete(lines: seq<string>, n: nat, found: seq<Conflict>) {
    forall h: nat, f: nat :: f < n && IsBlock(lines, h, f) ==> Reported(found, h, f)
  }

  /** What is known of the scanner after `n` lines. */
  ghost predicate ScanInv(lines: seq<string>, n: nat, st: ScanState)
    requires n <= |lines|
  {
    && st.open == PendingOpen(lines, n)
    && FoundSound(lines, n, st.found)
    && FoundOrdered(st.found)
    && FoundComplete(lines, n, st.found)
  }

  lemma {:induction false} FirstMiddleAppend(body: seq<string>, x: string)
    ensures FirstMiddle(body + [x]) ==
      if FirstMiddle(body) < |body| then FirstMiddle(body)
      else if IsMiddle(x) then |body| else |body| + 1
  {
    var b := body + [x];
    var m := FirstMiddle(body);
    var m' := FirstMiddle(b);
    assert forall k :: 0 <= k < |body| ==> b[k] == body[k];
    if m < |body| {
      assert IsMiddle(b[m]);
    } else if IsMiddle(x) {
      assert IsMiddle(b[|body|]);
    }
  }

  lemma {:induction false} LastMiddleAppend(body: seq<string>, x: string)
    ensures LastMiddle(body + [x]) == if IsMiddle(x) then Some(|body|) else LastMiddle(body)
  {
    assert (body + [x])[..|body|] == body;
  }

  /** The body of lines a start marker at `h` has collected after `n` lines. */
  lemma {:induction false} BodyAppend(lines: seq<string>, h: nat, n: nat)
    requires h < n < |lines|
    ensures lines[h + 1..n + 1] == lines[h + 1..n] + [lines[n]]
  {
  }

  lemma {:induction false} CollectAppendMiddle(body: seq<string>, x: string)
    requires IsMiddle(x)
    ensures Collect(body + [x]) == Collect(body).(marker := MiddleMarker, separator := Some(|body|))
  {
    var b' := body + [x];
    FirstMiddleAppend(body, x);
    LastMiddleAppend(body, x);
    var m := FirstMiddle(body);
    if m < |body| {
      assert b'[..m] == body[..m];
      assert b'[m..] == body[m..] + [x];
      NonMiddleConcat(body[m..], [x]);
    } else {
      assert b'[..|body|] == body;
      assert b'[|body|..] == [x];
      assert body[m..] == [];
    }
  }

  /** After a middle marker, any other line joins the incoming side. */
  lemma {:induction false} CollectAppendIncoming(body: seq<string>, x: string)
    requires !IsMiddle(x) && FirstMiddle(body) < |body|
    ensures Collect(body + [x]) == Collect(body).(incoming := Collect(body).incoming + [x])
  {
    var b' := body + [x];
    var m := FirstMiddle(body);
    FirstMiddleAppend(body, x);
    LastMiddleAppend(body, x);
    assert b'[..m] == body[..m];
    assert b'[m..] == body[m..] + [x];
    NonMiddleConcat(body[m..], [x]);
    assert NonMiddle([x]) == [x];
  }

  /** Before any middle marker, any other line joins the current side. */
  lemma {:induction false} CollectAppendCurrent(body: seq<string>, x: string)
    requires !IsMiddle(x) && FirstMiddle(body) == |body|
    ensures Collect(body + [x]) == Collect(body).(current := Collect(body).current + [x])
  {
    var b' := body + [x];
    FirstMiddleAppend(body, x);
    LastMiddleAppend(body, x);
    assert b'[..|body| + 1] == body + [x];
    assert b'[|body| + 1..] == [];
    assert body[|body|..] == [];
  }

  lemma {:induction false} CollectAppendOther(body: seq<string>, x: string)
    requires !IsMiddle(x)
    ensures var c := Collect(body);
            Collect(body + [x]) ==
              if c.marker == StartMarker then c.(current := c.current + [x])
              else c.(incoming := c.incoming + [x])
  {
    if FirstMiddle(body) < |body| {
      CollectAppendIncoming(body, x);
    } else {
      CollectAppendCurrent(body, x);
    }
  }

  /** A middle marker while the accumulator is open switches it to the incoming side
      and records the separator. */
  lemma {:induction false} OpenOfAppendMiddle(lines: seq<string>, h: nat, n: nat)
    requires h < n < |lines| && IsMiddle(lines[n])
    ensures OpenOf(lines, h, n + 1) == OpenOf(lines, h, n).(marker := MiddleMarker, separatorLine := Some(n))
  {
    BodyAppend(lines, h, n);
    CollectAppendMiddle(lines[h + 1..n], lines[n]);
  }

  /** Any other line while the accumulator is open lands on the side being collected. */
  lemma {:induction false} OpenOfAppendOther(lines: seq<string>, h: nat, n: nat)
    requires h < n < |lines| && !IsMiddle(lines[n])
    ensures var o := OpenOf(lines, h, n);
            OpenOf(lines, h, n + 1) ==
              if o.marker == StartMarker then o.(current := o.current + [lines[n]])
              else o.(incoming := o.incoming + [lines[n]])
  {
    BodyAppend(lines, h, n);
    CollectAppendOther(lines[h + 1..n], lines[n]);
  }

  /** A start marker on line `n` opens a fresh accumulator. */
  lemma {:induction false} StepStart(lines: seq<string>, n: nat, st: ScanState)
    requires n < |lines| && ScanInv(lines, n, st) && IsStart(lines[n])
    ensures ScanInv(lines, n + 1, Step(lines, n, st))
  {
    var st' := Step(lines, n, st);
    assert lines[n + 1..n + 1] == [];
    assert st'.open == PendingOpen(lines, n + 1);
    MarkersExclusive(lines[n]);
    forall h: nat, f: nat | f < n + 1 && IsBlock(lines, h, f)
      ensures Reported(st'.found, h, f)
    {
      assert f < n;
    }
  }

  /** A line that is not a delimiter extends the accumulator, if one is open. */
  lemma {:induction false} StepInner(lines: seq<string>, n: nat, st: ScanState)
    requires n < |lines| && ScanInv(lines, n, st) && !IsDelimiter(lines[n])
    ensures ScanInv(lines, n + 1, Step(lines, n, st))
  {
    var st' := Step(lines, n, st);
    MarkersExclusive(lines[n]);
    assert LastDelimiter(lines, n + 1) == LastDelimiter(lines, n);
    var d := LastDelimiter(lines, n);
    if d.Some? && IsStart(lines[d.value]) {
      if IsMiddle(lines[n]) {
        OpenOfAppendMiddle(lines, d.value, n);
      } else {
        OpenOfAppendOther(lines, d.value, n);
      }
    }
    assert st'.open == PendingOpen(lines, n + 1);
    assert st'.found == st.found;
    forall h: nat, f: nat | f < n + 1 && IsBlock(lines, h, f)
      ensures Reported(st'.found, h, f)
    {
      assert f < n;
    }
  }

  /** Closing the pending accumulator at an end marker gives the record of a block. */
  lemma {:induction false} CloseSound(lines: seq<string>, n: nat, o: OpenConflict)
    requires n < |lines| && IsEnd(lines[n]) && PendingOpen(lines, n) == Some(o)
    ensures LastDelimiter(lines, n) == Some(o.headerLine)
    ensures Sound(lines, Close(o, n)) && Close(o, n).headerLine == o.headerLine
  {
    var h := LastDelimiter(lines, n).value;
    assert o == OpenOf(lines, h, n);
    assert IsBlock(lines, h, n);
  }

  lemma {:induction false} AppendSound(lines: seq<string>, n: nat, found: seq<Conflict>, c: Conflict)
    requires FoundSound(lines, n, found) && Sound(lines, c) && c.footerLine == n
    ensures FoundSound(lines, n + 1, found + [c])
  {
    assert forall j | 0 <= j < |found| :: (found + [c])[j] == found[j];
  }

  lemma {:induction false} AppendOrdered(found: seq<Conflict>, c: Conflict)
    requires FoundOrdered(found)
    requires |found| > 0 ==> found[|found| - 1].footerLine < c.headerLine
    ensures FoundOrdered(found + [c])
  {
    assert forall j | 0 <= j < |found| :: (found + [c])[j] == found[j];
  }

  lemma {:induction false} AppendComplete(lines: seq<string>, n: nat, found: seq<Conflict>, c: Conflict)
    requires n < |lines| && FoundComplete(lines, n, found)
    requires LastDelimiter(lines, n) == Some(c.headerLine) && c.footerLine == n
    ensures FoundComplete(lines, n + 1, found + [c])
  {
    var found' := found + [c];
    forall h: nat, f: nat | f < n + 1 && IsBlock(lines, h, f)
      ensures Reported(found', h, f)
    {
      if f < n {
        var j :| 0 <= j < |found| && found[j].headerLine == h && found[j].footerLine == f;
        assert found'[j] == found[j];
      } else {
        assert h == c.headerLine;
        assert found'[|found|] == c;
      }
    }
  }

  /** The records found so far end before the start marker of the open accumulator. */
  lemma {:induction false} CloseAfterFound(lines: seq<string>, n: nat, found: seq<Conflict>, h: nat)
    requires n <= |lines| && FoundSound(lines, n, found) && |found| > 0
    requires LastDelimiter(lines, n) == Some(h) && IsStart(lines[h])
    ensures found[|found| - 1].footerLine < h
  {
    var last := found[|found| - 1];
    assert Sound(lines, last) && last.footerLine < n;
    MarkersExclusive(lines[last.footerLine]);
  }

  /** An end marker while an accumulator is open closes it into the record of a block. */
  lemma {:induction false} StepEndClose(lines: seq<string>, n: nat, st: ScanState)
    requires n < |lines| && ScanInv(lines, n, st) && IsEnd(lines[n]) && st.open.Some?
    ensures ScanInv(lines, n + 1, Step(lines, n, st))
  {
    var st' := Step(lines, n, st);
    MarkersExclusive(lines[n]);
    var c := Close(st.open.value, n);
    CloseSound(lines, n, st.open.value);
    assert st'.found == st.found + [c];
    assert st'.open == PendingOpen(lines, n + 1);
    AppendSound(lines, n, st.found, c);
    if |st.found| > 0 {
      CloseAfterFound(lines, n, st.found, c.headerLine);
    }
    AppendOrdered(st.found, c);
    AppendComplete(lines, n, st.found, c);
  }

  /** An end marker with no accumulator open is ignored. */
  lemma {:induction false} StepEndIgnored(lines: seq<string>, n: nat, st: ScanState)
    requires n < |lines| && ScanInv(lines, n, st) && IsEnd(lines[n]) && st.open.None?
    ensures ScanInv(lines, n + 1, Step(lines, n, st))
  {
    var st' := Step(lines, n, st);
    MarkersExclusive(lines[n]);
    assert st' == st;
    assert st'.open == PendingOpen(lines, n + 1);
    forall h': nat, f: nat | f < n + 1 && IsBlock(lines, h', f)
      ensures Reported(st'.found, h', f)
    {
      if f == n {
        assert false;
      }
    }
  }

  /** Every step of the scanner keeps the invariant. */
  lemma {:induction false} StepPreserves(lines: seq<string>, n: nat, st: ScanState)
    requires n < |lines| && ScanInv(lines, n, st)
    ensures ScanInv(lines, n + 1, Step(lines, n, st))
  {
    if IsStart(lines[n]) {
      StepStart(lines, n, st);
    } else if IsEnd(lines[n]) {
      if st.open.Some? { StepEndClose(lines, n, st); } else { StepEndIgnored(lines, n, st); }
    } else {
      StepInner(lines, n, st);
    }
  }

  lemma {:induction false} ScanInvariantStart(lines: seq<string>)
    ensures ScanInv(lines, 0, Scan(lines, 0))
  {
    assert LastDelimiter(lines, 0).None?;
  }

  lemma {:induction false} ScanStepPreserves(lines: seq<string>, n: nat)
    requires 0 < n <= |lines| && ScanInv(lines, n - 1, Scan(lines, n - 1))
    ensures ScanInv(lines, n, Scan(lines, n))
  {
    var m := n - 1;
    StepPreserves(lines, m, Scan(lines, m));
    assert m + 1 == n;
    assert Scan(lines, n) == Step(lines, m, Scan(lines, m));
  }

  lemma {:induction false} ScanInvariant(lines: seq<string>, n: nat)
    requires n <= |lines|
    ensures ScanInv(lines, n, Scan(lines, n))
  {
    if n > 0 {
      ScanInvariant(lines, n - 1);
      ScanStepPreserves(lines, n);
    } else {
      ScanInvariantStart(lines);
    }
  }


  /** Every conflict `parseConflicts` reports is a block of the buffer, and its record is the
      one the block describes (sides, separator, blank-line flag, start = header, end = footer). */
  lemma {:induction false} ParseSound(lines: seq<string>)
    ensures forall c :: c in Parse(lines) ==>
              IsBlock(lines, c.headerLine, c.footerLine) && c == BlockConflict(lines, c.headerLine, c.footerLine)
  {
    ScanInvariant(lines, |lines|);
  }

  /** Every block of the buffer is reported. */
  lemma {:induction false} ParseComplete(lines: seq<string>, h: nat, f: nat)
    requires IsBlock(lines, h, f)
    ensures exists j :: 0 <= j < |Parse(lines)| && Parse(lines)[j].headerLine == h && Parse(lines)[j].footerLine == f
  {
    ScanInvariant(lines, |lines|);
    assert Reported(Parse(lines), h, f);
  }

  /** Conflicts come in document order and do not overlap. */
  lemma {:induction false} ParseOrdered(lines: seq<string>)
    ensures forall j, j' :: 0 <= j < j' < |Parse(lines)| ==> Parse(lines)[j].footerLine < Parse(lines)[j'].headerLine
  {
    ScanInvariant(lines, |lines|);
    var cs := Parse(lines);
    forall j, j' | 0 <= j < j' < |cs| ensures cs[j].footerLine < cs[j'].headerLine {
      OrderedChain(cs, j, j');
    }
  }

  lemma {:induction false} OrderedChain(cs: seq<Conflict>, j: nat, j': nat)
    requires forall i :: 0 <= i < |cs| ==> cs[i].headerLine < cs[i].footerLine
    requires forall i :: 0 <= i < |cs| - 1 ==> cs[i].footerLine < cs[i + 1].headerLine
    requires j < j' < |cs|
    ensures cs[j].footerLine < cs[j'].headerLine
    decreases j' - j
  {
    if j + 1 < j' { OrderedChain(cs, j + 1, j'); }
  }

  // ---------------------------------------------------------------------------
  // Consequences for the records
  // ---------------------------------------------------------------------------

  /** Record `j` is the record of the block it spans; in particular its blank-line flag says
      whether the line above the header trims to nothing. */
  lemma {:induction false} ParsedBlock(lines: seq<string>, j: nat)
    requires j < |Parse(lines)|
    ensures IsBlock(lines, Parse(lines)[j].headerLine, Parse(lines)[j].footerLine)
    ensures Parse(lines)[j] == BlockConflict(lines, Parse(lines)[j].headerLine, Parse(lines)[j].footerLine)
    ensures Parse(lines)[j].hasBlankLineBefore <==>
              Parse(lines)[j].headerLine > 0 && IsBlank(lines[Parse(lines)[j].headerLine - 1])
  {
    ParseSound(lines);
    assert Parse(lines)[j] in Parse(lines);
  }

  /** The delimiters of record `j` and its blank-line flag, without the rest of the record. */
  lemma {:induction false} ParsedMarkers(lines: seq<string>, j: nat)
    requires j < |Parse(lines)|
    ensures var c := Parse(lines)[j];
            c.headerLine < c.footerLine < |lines| && IsStart(lines[c.headerLine]) && IsEnd(lines[c.footerLine])
            && (c.hasBlankLineBefore <==> c.headerLine > 0 && IsBlank(lines[c.headerLine - 1]))
  {
    ParsedBlock(lines, j);
  }

  /** What the accumulator makes of a block body: a separator exactly when a middle marker was
      seen, the separator is the last middle marker, and without one the whole body is the
      current side. */
  lemma {:induction false} CollectShape(body: seq<string>)
    ensures var c := Collect(body);
            && (c.marker == MiddleMarker <==> c.separator.Some?)
            && (c.separator.Some? ==>
                  c.separator.value < |body| && IsMiddle(body[c.separator.value])
                  && forall k :: c.separator.value < k < |body| ==> !IsMiddle(body[k]))
            && (c.separator.None? ==>
                  (forall k :: 0 <= k < |body| ==> !IsMiddle(body[k]))
                  && c.current == body && c.incoming == [])
  {
    var m := FirstMiddle(body);
    if LastMiddle(body).None? {
      assert m == |body|;
      assert body[m..] == [];
    } else {
      assert m < |body|;
    }
  }

  /** The shape of the record of a block `h .. f`, in buffer line numbers. */
  lemma {:induction false} BlockShape(lines: seq<string>, h: nat, f: nat)
    requires IsBlock(lines, h, f)
    ensures var c := BlockConflict(lines, h, f);
            && c.startLine == c.headerLine == h && c.footerLine == c.endLine == f
            && (c.marker == MiddleMarker <==> c.separatorLine.Some?)
            && (c.separatorLine.Some? ==>
                  var s := c.separatorLine.value;
                  h < s < f && IsMiddle(lines[s]) && forall k :: s < k < f ==> !IsMiddle(lines[k]))
            && (c.separatorLine.None? ==>
                  (forall k :: h < k < f ==> !IsMiddle(lines[k]))
                  && c.current == lines[h + 1..f] && c.incoming == [])
  {
    var body := lines[h + 1..f];
    CollectShape(body);
    assert forall k :: h < k < f ==> lines[k] == body[k - h - 1];
  }

  /** The shape of every reported record: start and end lines repeat header and footer, the
      blank-line flag says whether the line above the header trims to nothing, a separator is
      the last middle marker of the block, and without one the whole body is the current side. */
  lemma {:induction false} ParsedConflictShape(lines: seq<string>, j: nat)
    requires j < |Parse(lines)|
    ensures var c := Parse(lines)[j];
            && c.startLine == c.headerLine < c.footerLine == c.endLine < |lines|
            && IsStart(lines[c.headerLine]) && IsEnd(lines[c.footerLine])
            && (c.hasBlankLineBefore <==> c.headerLine > 0 && IsBlank(lines[c.headerLine - 1]))
            && (c.marker == MiddleMarker <==> c.separatorLine.Some?)
            && (c.separatorLine.Some? ==>
                  var s := c.separatorLine.value;
                  c.headerLine < s < c.footerLine && IsMiddle(lines[s])
                  && forall k :: s < k < c.footerLine ==> !IsMiddle(lines[k]))
            && (c.separatorLine.None? ==>
                  (forall k :: c.headerLine < k < c.footerLine ==> !IsMiddle(lines[k]))
                  && c.current == lines[c.headerLine + 1..c.footerLine] && c.incoming == [])
  {
    ParsedBlock(lines, j);
    var c := Parse(lines)[j];
    BlockShape(lines, c.headerLine, c.footerLine);
  }

  /** A body with exactly one middle marker, at `i`, is split around it. */
  lemma {:induction false} CollectSingleMiddle(body: seq<string>, i: nat)
    requires i < |body| && IsMiddle(body[i])
    requires forall k :: 0 <= k < |body| && k != i ==> !IsMiddle(body[k])
    ensures Collect(body) == Sides(MiddleMarker, body[..i], body[i + 1..], Some(i))
  {
    assert FirstMiddle(body) == i;
    assert LastMiddle(body) == Some(i);
    assert body[i..] == [body[i]] + body[i + 1..];
    assert NonMiddle(body[i..]) == NonMiddle(body[i + 1..]);
    NonMiddleNoMarkers(body[i + 1..]);
  }

  /** The body of a block `h .. f` with exactly one middle marker, at `s`, is split around it. */
  lemma {:induction false} BodySingleMiddle(lines: seq<string>, h: nat, f: nat, s: nat)
    requires h < s < f < |lines| && IsMiddle(lines[s])
    requires forall k :: h < k < f && k != s ==> !IsMiddle(lines[k])
    ensures Collect(lines[h + 1..f]) == Sides(MiddleMarker, lines[h + 1..s], lines[s + 1..f], Some(s - h - 1))
  {
    var body := lines[h + 1..f];
    var i := s - h - 1;
    assert body[i] == lines[s];
    forall k | 0 <= k < |body| && k != i ensures !IsMiddle(body[k]) {
      assert body[k] == lines[k + h + 1];
    }
    CollectSingleMiddle(body, i);
    assert body[..i] == lines[h + 1..s];
    assert body[i + 1..] == lines[s + 1..f];
  }

  /** A block `h .. f` with exactly one middle marker, at `s`, is split around it. */
  lemma {:induction false} BlockSingleMiddle(lines: seq<string>, h: nat, f: nat, s: nat)
    requires IsBlock(lines, h, f) && h < s < f && IsMiddle(lines[s])
    requires forall k :: h < k < f && k != s ==> !IsMiddle(lines[k])
    ensures var c := BlockConflict(lines, h, f);
            && c.marker == MiddleMarker && c.separatorLine == Some(s)
            && c.current == lines[h + 1..s] && c.incoming == lines[s + 1..f]
  {
    BodySingleMiddle(lines, h, f, s);
  }

  /** A block with exactly one middle marker at `s`: the current side is the lines between the
      header and `s`, the incoming side the lines between `s` and the footer. */
  lemma {:induction false} SingleMiddle(lines: seq<string>, j: nat, s: nat)
    requires j < |Parse(lines)|
    requires var c := Parse(lines)[j];
             c.headerLine < s < c.footerLine && IsMiddle(lines[s])
             && forall k :: c.headerLine < k < c.footerLine && k != s ==> !IsMiddle(lines[k])
    ensures var c := Parse(lines)[j];
            && c.marker == MiddleMarker && c.separatorLine == Some(s)
            && c.current == lines[c.headerLine + 1..s]
            && c.incoming == lines[s + 1..c.footerLine]
  {
    ParsedBlock(lines, j);
    var c := Parse(lines)[j];
    BlockSingleMiddle(lines, c.headerLine, c.footerLine, s);
  }

  /** Without start markers the scanner never opens an accumulator. */
  lemma {:induction false} ScanNoStart(lines: seq<string>, n: nat)
    requires n <= |lines|
    requires forall i :: 0 <= i < |lines| ==> !IsStart(lines[i])
    ensures Scan(lines, n) == ScanState(None, [])
  {
    if n > 0 { ScanNoStart(lines, n - 1); }
  }

  /** A buffer without start markers has no conflicts. */
  lemma {:induction false} NoStartNoConflicts(lines: seq<string>)
    requires forall i :: 0 <= i < |lines| ==> !IsStart(lines[i])
    ensures Parse(lines) == []
  {
    ScanNoStart(lines, |lines|);
  }

  /** The scanner's state after `n` lines depends only on those lines. */
  lemma {:induction false} ScanPrefix(lines: seq<string>, lines': seq<string>, n: nat)
    requires n <= |lines| && n <= |lines'| && lines[..n] == lines'[..n]
    ensures Scan(lines, n) == Scan(lines', n)
  {
    if n > 0 {
      assert lines[..n - 1] == lines'[..n - 1];
      ScanPrefix(lines, lines', n - 1);
      assert lines[n - 1] == lines'[n - 1];
      assert n >= 2 ==> lines[n - 2] == lines'[n - 2];
    }
  }

  /** The scanner only ever appends records. */
  lemma {:induction false} ScanMonotone(lines: seq<string>, n: nat, m: nat)
    requires n <= m <= |lines|
    ensures var a, b := Scan(lines, n).found, Scan(lines, m).found;
            |a| <= |b| && b[..|a|] == a
    decreases m - n
  {
    if n < m {
      ScanMonotone(lines, n, m - 1);
    }
  }

  /** The found-list facts of the scanner invariant, on their own. */
  lemma {:induction false} ScanFound(lines: seq<string>, n: nat)
    requires n <= |lines|
    ensures FoundSound(lines, n, Scan(lines, n).found)
    ensures FoundOrdered(Scan(lines, n).found)
    ensures FoundComplete(lines, n, Scan(lines, n).found)
  {
    ScanInvariant(lines, n);
  }

  /** Record headers strictly increase. */
  lemma {:induction false} HeadersIncrease(lines: seq<string>)
    ensures forall a, b :: 0 <= a < b < |Parse(lines)| ==> Parse(lines)[a].headerLine < Parse(lines)[b].headerLine
  {
    ParseOrdered(lines);
  }

  /** A buffer whose only start marker heads the block `h .. f` holds exactly that conflict. */
  lemma {:induction false} OnlyBlock(lines: seq<string>, h: nat, f: nat)
    requires IsBlock(lines, h, f)
    requires forall i :: 0 <= i < |lines| && IsStart(lines[i]) ==> i == h
    ensures Parse(lines) == [BlockConflict(lines, h, f)]
  {
    var cs := Parse(lines);
    ParseSound(lines);
    HeadersIncrease(lines);
    ParseComplete(lines, h, f);
    var j :| 0 <= j < |cs| && cs[j].headerLine == h && cs[j].footerLine == f;
    forall i | 0 <= i < |cs| ensures cs[i].headerLine == h {
      assert cs[i] in cs;
    }
    assert cs[0].headerLine == cs[|cs| - 1].headerLine;
    assert |cs| == 1;
    assert cs[0] in cs;
  }

  /** The records found by line `s` all end before `s` and begin the final list. */
  lemma {:induction false} FoundPrefix(lines: seq<string>, s: nat)
    requires s <= |lines|
    ensures var found := Scan(lines, s).found;
            && |found| <= |Parse(lines)| && found == Parse(lines)[..|found|]
            && forall i :: 0 <= i < |found| ==> found[i].footerLine < s
  {
    ScanMonotone(lines, s, |lines|);
    ScanFound(lines, s);
  }

  /** No record that begins at or after line `s` has been found by line `s`. */
  lemma {:induction false} FoundAtMost(lines: seq<string>, j: nat, s: nat)
    requires j < |Parse(lines)| && s <= Parse(lines)[j].headerLine
    ensures |Scan(lines, s).found| <= j
  {
    var found := Scan(lines, s).found;
    FoundPrefix(lines, s);
    ParsedBlock(lines, j);
    assert forall i :: 0 <= i < |found| ==> Parse(lines)[i].footerLine < s;
  }

  /** A block that ends before line `n` has been found by line `n`. */
  lemma {:induction false} ScanComplete(lines: seq<string>, n: nat, h: nat, f: nat)
    requires n <= |lines| && f < n && IsBlock(lines, h, f)
    ensures Reported(Scan(lines, n).found, h, f)
  {
    ScanFound(lines, n);
  }

  /** Record `j - 1`, which ends before line `s`, has been found by line `s`. */
  lemma {:induction false} FoundAtLeast(lines: seq<string>, j: nat, s: nat)
    requires 0 < j < |Parse(lines)| && s <= |lines| && Parse(lines)[j - 1].footerLine < s
    ensures |Scan(lines, s).found| >= j
  {
    var cs := Parse(lines);
    var found := Scan(lines, s).found;
    var p := cs[j - 1];
    FoundPrefix(lines, s);
    ParsedBlock(lines, j - 1);
    ScanComplete(lines, s, p.headerLine, p.footerLine);
    var i :| 0 <= i < |found| && found[i].headerLine == p.headerLine;
    assert cs[i] == found[i];
    HeadersIncrease(lines);
    assert i == j - 1;
  }

  /** The records the scanner has found by line `s`, when `s` lies after the footer of record
      `j - 1` and no later than the header of record `j`, are the first `j` records. */
  lemma {:induction false} FoundBefore(lines: seq<string>, j: nat, s: nat)
    requires j < |Parse(lines)|
    requires s <= Parse(lines)[j].headerLine
    requires j > 0 ==> Parse(lines)[j - 1].footerLine < s
    ensures Scan(lines, s).found == Parse(lines)[..j]
  {
    ParsedBlock(lines, j);
    FoundPrefix(lines, s);
    FoundAtMost(lines, j, s);
    if j > 0 {
      FoundAtLeast(lines, j, s);
    }
  }

  /** The buffer of the scenarios below. */
  const ExampleBuffer: seq<string> := ["a", "<<<<<<< HEAD", "X", "=======", "Y", ">>>>>>> branch", "b"]

  lemma {:induction false} ExampleBufferMarkers()
    ensures IsBlock(ExampleBuffer, 1, 5)
    ensures forall i :: 0 <= i < |ExampleBuffer| && IsStart(ExampleBuffer[i]) ==> i == 1
  {
    var lines := ExampleBuffer;
    assert IsStart(lines[1]) && IsEnd(lines[5]);
    assert forall i :: 0 <= i < |lines| && i != 1 ==> |lines[i]| < 7 || lines[i][0] != '<';
  }

  /** The example's block splits at its one separator, above a non-blank line. */
  lemma {:induction false} ExampleBlock()
    ensures BlockConflict(ExampleBuffer, 1, 5) == Conflict(MiddleMarker, ["X"], ["Y"], 1, 1, Some(3), 5, 5, false)
  {
    var lines := ExampleBuffer;
    var body := lines[2..5];
    assert body == ["X", "=======", "Y"];
    assert IsMiddle(body[1]) && !IsMiddle(body[0]) && !IsMiddle(body[2]);
    CollectSingleMiddle(body, 1);
    assert Collect(body) == Sides(MiddleMarker, ["X"], ["Y"], Some(1));
    assert !IsBlank(lines[0]) by { BlankIffAllWhitespace(lines[0]); }
  }

  /** Scenario: one conflict in the middle of a buffer. */
  lemma {:induction false} ExampleParse()
    ensures Parse(ExampleBuffer) == [Conflict(MiddleMarker, ["X"], ["Y"], 1, 1, Some(3), 5, 5, false)]
  {
    ExampleBufferMarkers();
    OnlyBlock(ExampleBuffer, 1, 5);
    ExampleBlock();
  }

  /** Scenario: a start marker straight after a non-blank line gets a blank line above it. */
  lemma {:induction false} ExamplePad()
    ensures Pad(["x", "<<<<<<< HEAD"]) == ["x", "", "<<<<<<< HEAD"]
  {
    var lines := ["x", "<<<<<<< HEAD"];
    assert !IsBlank("x") by { BlankIffAllWhitespace("x"); }
    assert IsStart(lines[1]);
    assert !IsStart(lines[0]);
    assert lines[..1] == ["x"];
    assert ["x"][..0] == [];
  }
}
