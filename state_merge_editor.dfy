/**
 * The editor surface of the state merge editor
 * (frontend/src/components/StateMergeEditor.tsx): the highlight bands and the
 * "Accept Current" / "Accept Incoming" widget of every conflict, and the
 * resolution of one conflict by replacing its lines in the buffer.
 *
 * The code editor is modelled by the state the component reads and writes:
 * the buffer as lines, the cursor, the decorations and the content widgets.
 */
module StateMergeEditor {
  import opened Wrappers
  import opened Text
  import opened MergeConflicts
  import opened ConflictShift

  // ---------------------------------------------------------------------------
  // Decorations and widgets (`addConflictDecorations`)
  // ---------------------------------------------------------------------------

  datatype BandKind = HeaderBand | CurrentBand | IncomingBand | FooterBand

  /** A whole-line highlight from 1-based line `first` to `last`, both at column 1.
      A bound computed from an unset separator is `None` (a NaN in the source). */
  datatype Band = Band(kind: BandKind, first: Option<nat>, last: Option<nat>)

  /** The four bands of one conflict: its header line, the current side (from the line
      after the header up to the line before the separator), the incoming side (from the
      line after the separator up to the line before the footer), and its footer line. */
  function BandsOf(c: Conflict): (r: seq<Band>)
    ensures |r| == 4
  {
    var sep := c.separatorLine;
    [ Band(HeaderBand, Some(c.headerLine + 1), Some(c.headerLine + 1)),
      Band(CurrentBand, Some(c.headerLine + 2), sep),
      Band(IncomingBand, if sep.Some? then Some(sep.value + 2) else None, Some(c.footerLine)),
      Band(FooterBand, Some(c.footerLine + 1), Some(c.footerLine + 1)) ]
  }

  /** All bands, four per conflict, in conflict order. */
  function Decorations(cs: seq<Conflict>): (r: seq<Band>)
    ensures |r| == 4 * |cs|
  {
    if cs == [] then [] else Decorations(cs[..|cs| - 1]) + BandsOf(cs[|cs| - 1])
  }

  /** The action widget of a conflict: an id, the 1-based line it is shown above
      (the header line), and the conflict its two buttons resolve. */
  datatype Widget = Widget(id: string, lineNumber: nat, conflict: Conflict)

  function WidgetId(idx: nat): string {
    "conflict-actions-" + NatToString(idx)
  }

  function WidgetFor(idx: nat, c: Conflict): Widget {
    Widget(WidgetId(idx), c.headerLine + 1, c)
  }

  /** One widget per conflict, in conflict order. */
  function Widgets(cs: seq<Conflict>): (r: seq<Widget>)
    ensures |r| == |cs|
  {
    if cs == [] then [] else Widgets(cs[..|cs| - 1]) + [WidgetFor(|cs| - 1, cs[|cs| - 1])]
  }

  /** Conflict `j`'s bands are the four decorations starting at `4 * j`. */
  lemma {:induction false} DecorationsAt(cs: seq<Conflict>, j: nat)
    requires j < |cs|
    ensures Decorations(cs)[4 * j..4 * j + 4] == BandsOf(cs[j])
  {
    var n := |cs| - 1;
    if j < n {
      DecorationsAt(cs[..n], j);
      assert cs[..n][j] == cs[j];
      assert Decorations(cs)[..4 * n] == Decorations(cs[..n]);
    }
  }

  /** Widget `i` is conflict `i`'s widget, with id `conflict-actions-<i>`, on its header line. */
  lemma {:induction false} WidgetsAt(cs: seq<Conflict>, i: nat)
    requires i < |cs|
    ensures Widgets(cs)[i] == Widget("conflict-actions-" + NatToString(i), cs[i].headerLine + 1, cs[i])
  {
    var n := |cs| - 1;
    if i < n {
      WidgetsAt(cs[..n], i);
      assert cs[..n][i] == cs[i];
    }
  }

  /** No two widgets share an id. */
  lemma {:induction false} WidgetIdsDistinct(cs: seq<Conflict>, i: nat, j: nat)
    requires i < |cs| && j < |cs| && i != j
    ensures Widgets(cs)[i].id != Widgets(cs)[j].id
  {
    WidgetsAt(cs, i);
    WidgetsAt(cs, j);
    var p := "conflict-actions-";
    if Widgets(cs)[i].id == Widgets(cs)[j].id {
      assert (p + NatToString(i))[|p|..] == NatToString(i);
      assert (p + NatToString(j))[|p|..] == NatToString(j);
      NatToStringInjective(i, j);
    }
  }

  /** For a conflict with one middle marker at 0-based line `s`, the current band covers
      exactly the current side and the incoming band exactly the incoming side. */
  lemma {:induction false} BandsCoverSides(lines: seq<string>, j: nat, s: nat)
    requires j < |Parse(lines)|
    requires var c := Parse(lines)[j];
             c.headerLine < s < c.footerLine && IsMiddle(lines[s])
             && forall k :: c.headerLine < k < c.footerLine && k != s ==> !IsMiddle(lines[k])
    ensures var c := Parse(lines)[j];
            var bands := Decorations(Parse(lines))[4 * j..4 * j + 4];
            && bands[1] == Band(CurrentBand, Some(c.headerLine + 2), Some(s))
            && lines[c.headerLine + 1..s] == c.current
            && bands[2] == Band(IncomingBand, Some(s + 2), Some(c.footerLine))
            && lines[s + 1..c.footerLine] == c.incoming
  {
    SingleMiddle(lines, j, s);
    DecorationsAt(Parse(lines), j);
  }

  // ---------------------------------------------------------------------------
  // Resolving one conflict (`makeEdit`)
  // ---------------------------------------------------------------------------

  datatype Position = Position(lineNumber: nat, column: nat)

  /** The code editor's range replacement, at line granularity: the text from the start of
      1-based line `startLine` to the start of line `endLine` becomes `text`; an end past the
      last line stands for the end of the buffer. */
  function ApplyEdit(lines: seq<string>, startLine: nat, endLine: nat, text: string): seq<string>
    requires 1 <= startLine <= |lines| && startLine < endLine
  {
    if endLine <= |lines| then lines[..startLine - 1] + Split(text + Join(lines[endLine - 1..]))
    else lines[..startLine - 1] + Split(text)
  }

  /** The 1-based line the replacement starts on: the blank line above the header when the
      conflict has one, the header line otherwise. */
  function StartLineNumber(c: Conflict): nat {
    if c.hasBlankLineBefore then c.headerLine else c.headerLine + 1
  }

  /** A conflict whose lines and blank-line flag fit the buffer. */
  predicate Resolvable(lines: seq<string>, c: Conflict) {
    c.headerLine < c.footerLine < |lines| && (c.hasBlankLineBefore ==> c.headerLine >= 1)
  }

  /** The buffer after resolving `c` with `newLines`: the lines before the replaced range,
      the chosen lines, then the lines after the footer, or one empty line when the footer
      was the last line (the inserted text ends in a newline). */
  function Resolve(lines: seq<string>, c: Conflict, newLines: seq<string>): seq<string>
    requires Resolvable(lines, c)
  {
    var s := StartLineNumber(c) - 1;
    lines[..s] + (newLines + if c.footerLine + 1 < |lines| then lines[c.footerLine + 1..] else [""])
  }

  /** The cursor after the edit: the last inserted line, one past its last character.
      The column comes from JavaScript's `.length`, which counts UTF-16 code units. */
  function Cursor(c: Conflict, newLines: seq<string>): Position
    requires |newLines| > 0
  {
    Position(StartLineNumber(c) + |newLines| - 1, Utf16Length(newLines[|newLines| - 1]) + 1)
  }

  lemma {:induction false} NoNewlinesSuffix(lines: seq<string>, k: nat)
    requires k <= |lines| && NoNewlines(lines)
    ensures NoNewlines(lines[k..])
  {
    forall i | 0 <= i < |lines| - k ensures '\n' !in lines[k..][i] { assert lines[k..][i] == lines[k + i]; }
  }

  /** A replacement that ends inside the buffer: re-splitting the inserted text followed by the
      rest of the buffer. */
  lemma {:induction false} ApplyEditInside(lines: seq<string>, startLine: nat, endLine: nat, text: string, newLines: seq<string>)
    requires 1 <= startLine <= |lines| && startLine < endLine <= |lines|
    requires Split(text + Join(lines[endLine - 1..])) == newLines + lines[endLine - 1..]
    ensures ApplyEdit(lines, startLine, endLine, text) == lines[..startLine - 1] + (newLines + lines[endLine - 1..])
  {
  }

  /** The edit of a conflict above the last line: the text after the footer is re-joined
      behind the inserted text, and splitting gives the chosen lines, then the old ones. */
  lemma {:induction false} ResolveIsEditInside(lines: seq<string>, c: Conflict, newLines: seq<string>)
    requires Resolvable(lines, c) && NoNewlines(lines) && c.footerLine + 2 <= |lines|
    requires |newLines| >= 1 && NoNewlines(newLines)
    ensures ApplyEdit(lines, StartLineNumber(c), c.footerLine + 2, Join(newLines) + "\n")
         == Resolve(lines, c, newLines)
  {
    var rest := lines[c.footerLine + 1..];
    NoNewlinesSuffix(lines, c.footerLine + 1);
    SplitJoinAppend(newLines, rest);
    ApplyEditInside(lines, StartLineNumber(c), c.footerLine + 2, Join(newLines) + "\n", newLines);
  }

  /** The edit of a conflict whose footer is the last line: the range runs to the end of the
      buffer and the trailing newline leaves one empty line. */
  lemma {:induction false} ResolveIsEditAtEnd(lines: seq<string>, c: Conflict, newLines: seq<string>)
    requires Resolvable(lines, c) && c.footerLine + 2 > |lines|
    requires |newLines| >= 1 && NoNewlines(newLines)
    ensures ApplyEdit(lines, StartLineNumber(c), c.footerLine + 2, Join(newLines) + "\n")
         == Resolve(lines, c, newLines)
  {
    var text := Join(newLines) + "\n";
    var pre := lines[..StartLineNumber(c) - 1];
    assert Split(text) == newLines + [""] by {
      SplitJoinThen(newLines, "");
      assert text + "" == text;
    }
    assert ApplyEdit(lines, StartLineNumber(c), c.footerLine + 2, text) == pre + Split(text);
  }

  /** Replacing the range `makeEdit` builds with the joined lines plus a newline splices the
      chosen lines in place of the conflict. */
  lemma {:induction false} ResolveIsEdit(lines: seq<string>, c: Conflict, newLines: seq<string>)
    requires Resolvable(lines, c) && NoNewlines(lines)
    requires |newLines| >= 1 && NoNewlines(newLines)
    ensures ApplyEdit(lines, StartLineNumber(c), c.footerLine + 2, Join(newLines) + "\n")
         == Resolve(lines, c, newLines)
  {
    if c.footerLine + 2 <= |lines| {
      ResolveIsEditInside(lines, c, newLines);
    } else {
      ResolveIsEditAtEnd(lines, c, newLines);
    }
  }

  /** Parsed conflicts fit their buffer. */
  lemma {:induction false} ParsedResolvable(lines: seq<string>, c: Conflict)
    requires c in Parse(lines)
    ensures Resolvable(lines, c)
  {
    var j :| 0 <= j < |Parse(lines)| && Parse(lines)[j] == c;
    ParsedConflictShape(lines, j);
  }

  /** The lines strictly inside a block carry neither newlines nor start or end markers. */
  lemma {:induction false} BlockBodyClean(lines: seq<string>, h: nat, f: nat)
    requires IsBlock(lines, h, f) && NoNewlines(lines)
    ensures forall x :: x in lines[h + 1..f] ==> '\n' !in x && !IsDelimiter(x)
  {
    forall x | x in lines[h + 1..f] ensures '\n' !in x && !IsDelimiter(x) {
      var k :| 0 <= k < f - h - 1 && lines[h + 1..f][k] == x;
      assert x == lines[h + 1 + k];
    }
  }

  /** Both sides are made of lines of the body. */
  lemma {:induction false} CollectWithin(body: seq<string>)
    ensures forall x :: x in Collect(body).current + Collect(body).incoming ==> x in body
  {
    var m := FirstMiddle(body);
    NonMiddleSubset(body[m..]);
    assert forall x :: x in body[m..] ==> x in body;
  }

  /** The sides of a block's record are lines of the block body, so they contain neither
      newlines nor start or end markers. */
  lemma {:induction false} SidesOfBlock(lines: seq<string>, h: nat, f: nat)
    requires IsBlock(lines, h, f) && NoNewlines(lines)
    ensures var c := BlockConflict(lines, h, f);
            && (forall x :: x in c.current ==> '\n' !in x && !IsDelimiter(x))
            && (forall x :: x in c.incoming ==> '\n' !in x && !IsDelimiter(x))
  {
    var body := lines[h + 1..f];
    BlockBodyClean(lines, h, f);
    CollectWithin(body);
    assert forall x :: x in Collect(body).current ==> x in Collect(body).current + Collect(body).incoming;
    assert forall x :: x in Collect(body).incoming ==> x in Collect(body).current + Collect(body).incoming;
  }

  /** The sides of a parsed conflict contain neither newlines nor start or end markers. */
  lemma {:induction false} SidesOfParsed(lines: seq<string>, c: Conflict)
    requires c in Parse(lines) && NoNewlines(lines)
    ensures NoNewlines(c.current) && NoNewlines(c.incoming)
    ensures forall x :: x in c.current + c.incoming ==> !IsDelimiter(x)
  {
    ParseSound(lines);
    SidesOfBlock(lines, c.headerLine, c.footerLine);
    assert forall i :: 0 <= i < |c.current| ==> c.current[i] in c.current;
    assert forall i :: 0 <= i < |c.incoming| ==> c.incoming[i] in c.incoming;
  }

  /** The resolved buffer is again a non-empty list of newline-free lines, so re-reading
      its text gives the same lines. */
  lemma {:induction false} ResolvedClean(lines: seq<string>, c: Conflict, newLines: seq<string>)
    requires Resolvable(lines, c) && NoNewlines(lines) && NoNewlines(newLines)
    ensures var r := Resolve(lines, c, newLines);
            |r| >= 1 && NoNewlines(r) && Split(Join(r)) == r
  {
    var r := Resolve(lines, c, newLines);
    var s := StartLineNumber(c) - 1;
    var f := c.footerLine;
    forall i | 0 <= i < |r| ensures '\n' !in r[i] {
      if i < s {
        assert r[i] == lines[i];
      } else if i < s + |newLines| {
        assert r[i] == newLines[i - s];
      } else if f + 1 < |lines| {
        assert r[i] == lines[f + 1 + i - s - |newLines|];
      } else {
        assert r[i] == "";
      }
    }
    SplitJoin(r);
  }

  /** After the edit the cursor sits at the end of the last inserted line. */
  lemma {:induction false} CursorAfterInsertion(lines: seq<string>, c: Conflict, newLines: seq<string>)
    requires Resolvable(lines, c) && |newLines| > 0
    ensures var r := Resolve(lines, c, newLines);
            var p := Cursor(c, newLines);
            && 1 <= p.lineNumber <= |r|
            && r[p.lineNumber - 1] == newLines[|newLines| - 1]
            && p.column == Utf16Length(r[p.lineNumber - 1]) + 1
            && p.column >= |r[p.lineNumber - 1]| + 1
  {
    Utf16LengthBounds(newLines[|newLines| - 1]);
  }

  /** The replaced range of conflict `j` starts after the footer of conflict `j - 1`: the
      blank line above a header is never the previous footer, which is an end marker. */
  lemma {:induction false} EditStartsAfterPrevious(lines: seq<string>, j: nat)
    requires 0 < j < |Parse(lines)|
    ensures Parse(lines)[j - 1].footerLine < StartLineNumber(Parse(lines)[j]) - 1
  {
    var cs := Parse(lines);
    var p, c := cs[j - 1], cs[j];
    assert p.footerLine < c.headerLine by { ParseOrdered(lines); }
    if c.hasBlankLineBefore {
      assert IsEnd(lines[p.footerLine]) by { ParsedMarkers(lines, j - 1); }
      assert IsBlank(lines[c.headerLine - 1]) by { ParsedMarkers(lines, j); }
      MarkersExclusive(lines[p.footerLine]);
      assert p.footerLine != c.headerLine - 1;
    }
  }

  /** Resolving conflict `j` leaves the conflicts before it exactly as they were. */
  lemma {:induction false} ResolveKeepsEarlier(lines: seq<string>, j: nat, newLines: seq<string>)
    requires j < |Parse(lines)|
    ensures Resolvable(lines, Parse(lines)[j])
    ensures var r := Resolve(lines, Parse(lines)[j], newLines);
            |Parse(r)| >= j && Parse(r)[..j] == Parse(lines)[..j]
  {
    var c := Parse(lines)[j];
    ParsedResolvable(lines, c);
    var r := Resolve(lines, c, newLines);
    var s := StartLineNumber(c) - 1;
    if j > 0 {
      EditStartsAfterPrevious(lines, j);
    }
    FoundBefore(lines, j, s);
    assert r[..s] == lines[..s];
    ScanPrefix(lines, r, s);
    ScanMonotone(r, s, |r|);
  }

  /** The scanner closes parsed conflict `j` at its footer, with the first `j + 1`
      records found. */
  lemma {:induction false} ScanAfterFooter(lines: seq<string>, j: nat)
    requires j < |Parse(lines)|
    ensures Parse(lines)[j].footerLine < |lines|
    ensures Scan(lines, Parse(lines)[j].footerLine + 1) == ScanState(None, Parse(lines)[..j + 1])
  {
    var cs := Parse(lines);
    var c := cs[j];
    var f := c.footerLine;
    ParsedBlock(lines, j);
    ClosedAfterEnd(lines, f);
    if j + 1 < |cs| {
      ParseOrdered(lines);
      FoundBefore(lines, j + 1, f + 1);
    } else {
      FoundPrefix(lines, f + 1);
      ScanComplete(lines, f + 1, c.headerLine, f);
      HeadersIncrease(lines);
    }
  }

  /** With no start marker between conflicts `j - 1` and `j`, the scanner reaches the
      start of conflict `j`'s replaced range with nothing open and the first `j` records
      found. */
  lemma {:induction false} ScanBeforeRange(lines: seq<string>, j: nat)
    requires j < |Parse(lines)|
    requires forall i :: 0 <= i && (j > 0 ==> Parse(lines)[j - 1].footerLine < i) && i < Parse(lines)[j].headerLine
                         ==> !IsStart(lines[i])
    ensures Resolvable(lines, Parse(lines)[j])
    ensures Scan(lines, StartLineNumber(Parse(lines)[j]) - 1) == ScanState(None, Parse(lines)[..j])
  {
    var cs := Parse(lines);
    var c := cs[j];
    ParsedResolvable(lines, c);
    var s := StartLineNumber(c) - 1;
    var from := if j > 0 then cs[j - 1].footerLine + 1 else 0;
    if j > 0 {
      EditStartsAfterPrevious(lines, j);
      ParsedMarkers(lines, j - 1);
      ClosedAfterEnd(lines, cs[j - 1].footerLine);
    }
    IdleThrough(lines, from, s);
    FoundBefore(lines, j, s);
  }

  /** ... and, the chosen lines holding no start marker either, the end of the chosen
      lines in the resolved buffer in the same state. */
  lemma {:induction false} ScanAfterChosen(lines: seq<string>, j: nat, newLines: seq<string>)
    requires j < |Parse(lines)|
    requires forall i :: 0 <= i && (j > 0 ==> Parse(lines)[j - 1].footerLine < i) && i < Parse(lines)[j].headerLine
                         ==> !IsStart(lines[i])
    requires forall k :: 0 <= k < |newLines| ==> !IsStart(newLines[k])
    ensures Resolvable(lines, Parse(lines)[j])
    ensures var c := Parse(lines)[j];
            var q := StartLineNumber(c) - 1 + |newLines|;
            q <= |Resolve(lines, c, newLines)|
            && Scan(Resolve(lines, c, newLines), q) == ScanState(None, Parse(lines)[..j])
  {
    ScanBeforeRange(lines, j);
    var c := Parse(lines)[j];
    var r := Resolve(lines, c, newLines);
    var s := StartLineNumber(c) - 1;
    var q := StartLineNumber(c) - 1 + |newLines|;
    assert r[..s] == lines[..s];
    ScanPrefix(lines, r, s);
    assert forall i :: s <= i < q ==> r[i] == newLines[i - s];
    IdleThrough(r, s, q);
  }

  /** A buffer `r` that the scanner reaches at line `q` idle, with the records before
      conflict `j` found, and that continues from `q` with the lines after conflict `j`'s
      footer, is scanned to its end as `lines` is, moved to match. */
  lemma {:induction false} AlongTail(lines: seq<string>, j: nat, r: seq<string>, q: nat)
    requires j < |Parse(lines)| && Parse(lines)[j].footerLine + 1 < |lines|
    requires q <= |r| && lines[Parse(lines)[j].footerLine + 1..] == r[q..]
    requires !IsStart(lines[Parse(lines)[j].footerLine + 1])
    requires Scan(r, q) == ScanState(None, Parse(lines)[..j])
    requires Scan(lines, Parse(lines)[j].footerLine + 1) == ScanState(None, Parse(lines)[..j + 1])
    ensures ShiftedState(Scan(lines, |lines|), Scan(r, |r|), j + 1, j, q - (Parse(lines)[j].footerLine + 1))
  {
    var p := Parse(lines)[j].footerLine + 1;
    assert |Scan(lines, p).found| == j + 1 && |Scan(r, q).found| == j;
    ScanShift(lines, r, p, q, |lines|, |r|);
  }

  /** ... so `r` holds those records followed by the later conflicts, moved. */
  lemma {:induction false} TailShifted(lines: seq<string>, j: nat, r: seq<string>, q: nat)
    requires j < |Parse(lines)| && Parse(lines)[j].footerLine + 1 < |lines|
    requires q <= |r| && lines[Parse(lines)[j].footerLine + 1..] == r[q..]
    requires !IsStart(lines[Parse(lines)[j].footerLine + 1])
    requires Scan(r, q) == ScanState(None, Parse(lines)[..j])
    requires Scan(lines, Parse(lines)[j].footerLine + 1) == ScanState(None, Parse(lines)[..j + 1])
    ensures DroppedAndShifted(Parse(lines), Parse(r), j, q - (Parse(lines)[j].footerLine + 1))
  {
    var sa, sb := Scan(lines, |lines|), Scan(r, |r|);
    AlongTail(lines, j, r, q);
    ScanMonotone(r, q, |r|);
    ShiftedPastOne(sa, sb, j, q - (Parse(lines)[j].footerLine + 1));
  }

  /** In a padded buffer the line after a footer is never a start marker: it would need
      a blank line above it, and a footer is not blank. */
  lemma {:induction false} NoStartAfterFooter(lines: seq<string>, j: nat)
    requires j < |Parse(lines)| && Parse(lines)[j].footerLine + 1 < |lines|
    requires forall i :: 0 <= i < |lines| ==> !NeedsPad(lines, i)
    ensures !IsStart(lines[Parse(lines)[j].footerLine + 1])
  {
    var f := Parse(lines)[j].footerLine;
    ParsedMarkers(lines, j);
    MarkersExclusive(lines[f]);
    assert !NeedsPad(lines, f + 1);
  }

  /** After the chosen lines the resolved buffer goes on with the lines after the
      footer, or with one empty line when the footer was the last line. */
  lemma {:induction false} ResolveTail(lines: seq<string>, c: Conflict, newLines: seq<string>)
    requires Resolvable(lines, c)
    ensures var q := StartLineNumber(c) - 1 + |newLines|;
            var r := Resolve(lines, c, newLines);
            q <= |r| && r[q..] == if c.footerLine + 1 < |lines| then lines[c.footerLine + 1..] else [""]
  {
  }

  /** When conflict `j` ends the buffer, the resolved buffer, which the scanner reaches
      idle at `q` and which ends with one empty line there, holds just the earlier
      records. */
  lemma {:induction false} LastShifted(lines: seq<string>, j: nat, r: seq<string>, q: nat)
    requires j < |Parse(lines)| && Parse(lines)[j].footerLine + 1 == |lines|
    requires q < |r| && r[q..] == [""]
    requires Scan(r, q) == ScanState(None, Parse(lines)[..j])
    requires Scan(lines, Parse(lines)[j].footerLine + 1) == ScanState(None, Parse(lines)[..j + 1])
    ensures DroppedAndShifted(Parse(lines), Parse(r), j, q - (Parse(lines)[j].footerLine + 1))
  {
    assert r[q] == r[q..][0] == "";
    IdleThrough(r, q, |r|);
    assert Scan(lines, |lines|).found == Parse(lines) && Scan(r, |r|).found == Parse(r);
  }

  /** The two cases together: `r` goes on at `q` with what follows conflict `j`'s footer. */
  lemma {:induction false} AfterFooterShifted(lines: seq<string>, j: nat, r: seq<string>, q: nat)
    requires j < |Parse(lines)|
    requires q <= |r| && r[q..] == if Parse(lines)[j].footerLine + 1 < |lines| then lines[Parse(lines)[j].footerLine + 1..] else [""]
    requires Parse(lines)[j].footerLine + 1 < |lines| ==> !IsStart(lines[Parse(lines)[j].footerLine + 1])
    requires Scan(r, q) == ScanState(None, Parse(lines)[..j])
    requires Parse(lines)[j].footerLine < |lines|
    requires Scan(lines, Parse(lines)[j].footerLine + 1) == ScanState(None, Parse(lines)[..j + 1])
    ensures DroppedAndShifted(Parse(lines), Parse(r), j, q - (Parse(lines)[j].footerLine + 1))
  {
    if Parse(lines)[j].footerLine + 1 < |lines| {
      TailShifted(lines, j, r, q);
    } else {
      LastShifted(lines, j, r, q);
    }
  }

  /** Resolving conflict `j` moves every later conflict by the change in line count and
      leaves it otherwise as it was, when nothing but conflict `j` could reopen the scan:
      no start marker lies between conflict `j - 1` and conflict `j`, and the chosen lines
      hold none (true of both sides); and when the line after the footer is not a start
      marker, whose blank-line flag the edit could flip. */
  lemma {:induction false} ResolveShiftsLater(lines: seq<string>, j: nat, newLines: seq<string>)
    requires j < |Parse(lines)|
    requires forall i :: 0 <= i && (j > 0 ==> Parse(lines)[j - 1].footerLine < i) && i < Parse(lines)[j].headerLine
                         ==> !IsStart(lines[i])
    requires forall k :: 0 <= k < |newLines| ==> !IsStart(newLines[k])
    requires Parse(lines)[j].footerLine + 1 < |lines| ==> !IsStart(lines[Parse(lines)[j].footerLine + 1])
    ensures Resolvable(lines, Parse(lines)[j])
    ensures var c := Parse(lines)[j];
            DroppedAndShifted(Parse(lines), Parse(Resolve(lines, c, newLines)), j,
                              StartLineNumber(c) - 1 + |newLines| - (c.footerLine + 1))
  {
    var c := Parse(lines)[j];
    ScanAfterChosen(lines, j, newLines);
    ScanAfterFooter(lines, j);
    ResolveTail(lines, c, newLines);
    AfterFooterShifted(lines, j, Resolve(lines, c, newLines), StartLineNumber(c) - 1 + |newLines|);
  }

  /** In the editor's padded buffer, accepting either side of conflict `j` keeps every
      other conflict, the later ones moved by the change in line count, provided no stray
      start marker lies between conflicts `j - 1` and `j`. */
  lemma {:induction false} ResolveSideShiftsLater(lines: seq<string>, j: nat, newLines: seq<string>)
    requires NoNewlines(lines) && j < |Parse(lines)|
    requires forall i :: 0 <= i && (j > 0 ==> Parse(lines)[j - 1].footerLine < i) && i < Parse(lines)[j].headerLine
                         ==> !IsStart(lines[i])
    requires newLines == Parse(lines)[j].current || newLines == Parse(lines)[j].incoming
    requires forall i :: 0 <= i < |lines| ==> !NeedsPad(lines, i)
    ensures Resolvable(lines, Parse(lines)[j])
    ensures var c := Parse(lines)[j];
            DroppedAndShifted(Parse(lines), Parse(Resolve(lines, c, newLines)), j,
                              StartLineNumber(c) - 1 + |newLines| - (c.footerLine + 1))
  {
    var c := Parse(lines)[j];
    assert c in Parse(lines);
    SidesOfParsed(lines, c);
    assert forall k :: 0 <= k < |newLines| ==> newLines[k] in c.current + c.incoming;
    if c.footerLine + 1 < |lines| {
      NoStartAfterFooter(lines, j);
    }
    ResolveShiftsLater(lines, j, newLines);
  }

  /** Resolving a conflict whose header is the buffer's only start marker, with one of
      its sides, leaves no conflict. */
  lemma {:induction false} ResolveOnlyConflict(lines: seq<string>, c: Conflict, newLines: seq<string>)
    requires NoNewlines(lines) && c in Parse(lines)
    requires forall i :: 0 <= i < |lines| && IsStart(lines[i]) ==> i == c.headerLine
    requires newLines == c.current || newLines == c.incoming
    ensures Resolvable(lines, c)
    ensures Parse(Resolve(lines, c, newLines)) == []
  {
    ParsedResolvable(lines, c);
    SidesOfParsed(lines, c);
    var r := Resolve(lines, c, newLines);
    var s := StartLineNumber(c) - 1;
    var f := c.footerLine;
    forall i | 0 <= i < |r| ensures !IsStart(r[i]) {
      if i < s {
        assert r[i] == lines[i];
      } else if i < s + |newLines| {
        assert r[i] == newLines[i - s];
        assert r[i] in c.current + c.incoming;
      } else if f + 1 < |lines| {
        assert r[i] == lines[f + 1 + i - s - |newLines|];
      } else {
        assert r[i] == "";
      }
    }
    NoStartNoConflicts(r);
  }

  /** Scenario: accepting the incoming side of the example buffer's conflict leaves
      `a`, the incoming line, then `b`, and no conflict. */
  lemma {:induction false} ExampleResolve()
    ensures |Parse(ExampleBuffer)| == 1
    ensures Resolvable(ExampleBuffer, Parse(ExampleBuffer)[0])
    ensures Resolve(ExampleBuffer, Parse(ExampleBuffer)[0], Parse(ExampleBuffer)[0].incoming) == ["a", "Y", "b"]
    ensures Parse(["a", "Y", "b"]) == []
  {
    ExampleParse();
    var r: seq<string> := ["a", "Y", "b"];
    assert forall i :: 0 <= i < |r| ==> |r[i]| < 7;
    NoStartNoConflicts(r);
  }

  /** A stray start marker above a conflict and a stray end marker below it. */
  const StrayMarkers: seq<string> :=
    ["<<<<<<< A", "x", "", "<<<<<<< B", "cur", "=======", "inc", ">>>>>>> B", ">>>>>>> stray"]

  /** Markers of the stray-marker buffer, line by line. */
  lemma {:induction false} StrayMarkersLines(lines: seq<string>)
    requires lines == StrayMarkers
    ensures forall i :: 0 <= i < |lines| ==> (IsStart(lines[i]) <==> i == 0 || i == 3)
    ensures forall i :: 0 <= i < |lines| ==> (IsEnd(lines[i]) <==> i == 7 || i == 8)
    ensures forall i :: 0 <= i < |lines| ==> (IsMiddle(lines[i]) <==> i == 5)
    ensures IsBlank(lines[2])
  {
    assert IsStart(lines[0]) && IsStart(lines[3]) && IsEnd(lines[7]) && IsEnd(lines[8]) && IsMiddle(lines[5]);
    assert !IsDelimiter(lines[1]) && !IsDelimiter(lines[2]) && !IsDelimiter(lines[4]);
    assert !IsDelimiter(lines[5]) && !IsDelimiter(lines[6]);
    assert !IsEnd(lines[0]) && !IsEnd(lines[3]) && !IsStart(lines[7]) && !IsStart(lines[8]);
    assert !IsMiddle(lines[0]) && !IsMiddle(lines[1]) && !IsMiddle(lines[2]) && !IsMiddle(lines[3]);
    assert !IsMiddle(lines[4]) && !IsMiddle(lines[6]) && !IsMiddle(lines[7]) && !IsMiddle(lines[8]);
    BlankIffAllWhitespace(lines[2]);
  }

  /** Headers strictly increase, so conflicts that share a header are one conflict. */
  lemma {:induction false} SameHeaderAtMostOne(lines: seq<string>, h: nat)
    requires forall i :: 0 <= i < |Parse(lines)| ==> Parse(lines)[i].headerLine == h
    ensures |Parse(lines)| <= 1
  {
    if |Parse(lines)| > 1 {
      var p := Parse(lines);
      assert p[0].headerLine == h && p[1].headerLine == h;
      HeadersIncrease(lines);
    }
  }

  /** The stray-marker buffer holds one conflict, on lines 3-7, whose current side is
      `cur` and which has a blank line above it. */
  lemma {:induction false} StrayMarkersParse(lines: seq<string>)
    requires lines == StrayMarkers
    ensures |Parse(lines)| == 1
    ensures var c := Parse(lines)[0];
            c.headerLine == 3 && c.footerLine == 7 && c.current == ["cur"] && c.hasBlankLineBefore
  {
    StrayMarkersLines(lines);
    var cs := Parse(lines);
    assert IsBlock(lines, 3, 7);
    ParseComplete(lines, 3, 7);
    ParseSound(lines);
    HeadersIncrease(lines);
    assert IsDelimiter(lines[3]) && IsDelimiter(lines[7]);
    forall i | 0 <= i < |cs| ensures cs[i].headerLine == 3 && cs[i].footerLine == 7 {
      assert cs[i] in cs;
      assert IsBlock(lines, cs[i].headerLine, cs[i].footerLine);
    }
    SameHeaderAtMostOne(lines, 3);
    assert cs[0] in cs;
    SingleMiddle(lines, 0, 5);
    ParsedBlock(lines, 0);
    assert lines[4..5] == ["cur"];
  }

  /** Without the proviso of `ResolveOnlyConflict` a conflict can resurface: the buffer's
      only conflict spans lines 3-7, and resolving it with its current side joins the
      stray markers into a new conflict. */
  lemma {:induction false} ResolveCanResurface(lines: seq<string>)
    requires lines == StrayMarkers
    ensures |Parse(lines)| == 1
    ensures var c := Parse(lines)[0];
            && c.headerLine == 3 && c.footerLine == 7 && c.current == ["cur"]
            && Resolvable(lines, c)
            && Resolve(lines, c, c.current) == ["<<<<<<< A", "x", "cur", ">>>>>>> stray"]
            && |Parse(Resolve(lines, c, c.current))| >= 1
  {
    StrayMarkersParse(lines);
    var c := Parse(lines)[0];
    var r := Resolve(lines, c, c.current);
    assert r == lines[..2] + ["cur"] + lines[8..];
    assert r == ["<<<<<<< A", "x", "cur", ">>>>>>> stray"];
    assert IsStart(r[0]) && IsEnd(r[3]) && !IsDelimiter(r[1]) && !IsDelimiter(r[2]);
    assert IsBlock(r, 0, 3);
    ParseComplete(r, 0, 3);
  }

  // ---------------------------------------------------------------------------
  // The editor
  // ---------------------------------------------------------------------------

  /** The code editor as the component drives it. */
  class MergeEditor {
    /** The buffer, as the lines of `model.getValue()`. */
    var lines: seq<string>
    var position: Position
    /** The `readOnly` option, which the canvas sets while its agent runs. */
    var readOnly: bool
    var decorations: seq<Band>
    var widgets: seq<Widget>

    /** The decorations and widgets always show the conflicts of the current buffer. */
    ghost predicate Valid()
      reads this
    {
      && |lines| >= 1 && NoNewlines(lines)
      && decorations == Decorations(Parse(lines))
      && widgets == Widgets(Parse(lines))
    }

    /** Mounting the editor on `value`: the buffer holds the padded text, and `onMount`
        decorates its conflicts. */
    constructor (value: string, readOnly: bool)
      ensures Valid()
      ensures lines == Pad(Split(value)) && position == Position(1, 1) && this.readOnly == readOnly
    {
      this.readOnly := readOnly;
      var conflictedText := AddBlankLines(value);
      PaddedTextLines(value);
      SplitNoNewlines(value);
      PadKeepsLines(Split(value));
      lines := Split(conflictedText);
      position := Position(1, 1);
      decorations := [];
      widgets := [];
      new;
      var conflicts := ParseConflicts(conflictedText);
      AddConflictDecorations(conflicts);
    }

    /** `clearAllWidgets`: removes every content widget. */
    method ClearAllWidgets()
      modifies this
      ensures widgets == []
      ensures lines == old(lines) && position == old(position) && decorations == old(decorations)
      ensures readOnly == old(readOnly)
    {
      if |widgets| > 0 {
        widgets := [];
      }
    }

    /** `addConflictDecorations`: replaces the bands and widgets with those of `conflicts`. */
    method AddConflictDecorations(conflicts: seq<Conflict>)
      modifies this
      ensures decorations == Decorations(conflicts) && widgets == Widgets(conflicts)
      ensures lines == old(lines) && position == old(position) && readOnly == old(readOnly)
    {
      decorations := [];
      ClearAllWidgets();
      var bands: seq<Band> := [];
      for idx := 0 to |conflicts|
        invariant bands == Decorations(conflicts[..idx])
        invariant widgets == Widgets(conflicts[..idx])
        invariant lines == old(lines) && position == old(position) && readOnly == old(readOnly)
      {
        var conflict := conflicts[idx];
        assert conflicts[..idx + 1][..idx] == conflicts[..idx];
        bands := bands + BandsOf(conflict);
        widgets := widgets + [WidgetFor(idx, conflict)];
      }
      assert conflicts[..|conflicts|] == conflicts;
      decorations := bands;
    }

    /** The buffer now holds `newText` (a user edit), and `onChange` re-decorates. */
    method ContentChanged(newText: string)
      modifies this
      ensures Valid()
      ensures lines == Split(newText) && position == old(position) && readOnly == old(readOnly)
    {
      SplitNoNewlines(newText);
      lines := Split(newText);
      var remainingConflicts := ParseConflicts(newText);
      AddConflictDecorations(remainingConflicts);
    }

    /** `makeEdit`: replaces the conflict (and the blank line above it, when it has one) with
        `newLines`, moves the cursor to the end of the inserted text, and re-decorates.
        With no lines to insert the computation of the cursor fails before any edit. A
        read-only editor refuses the edit, but the cursor still moves and the unchanged
        text is re-decorated. */
    method MakeEdit(c: Conflict, newLines: seq<string>) returns (applied: bool)
      requires Valid() && c in Parse(lines) && NoNewlines(newLines)
      modifies this
      ensures Valid() && readOnly == old(readOnly)
      ensures applied <==> |newLines| > 0 && !readOnly
      ensures |newLines| == 0 ==> lines == old(lines) && position == old(position)
                                  && decorations == old(decorations) && widgets == old(widgets)
      ensures |newLines| > 0 && readOnly ==>
                (lines == old(lines) && position == Cursor(c, newLines)
                 && decorations == old(decorations) && widgets == old(widgets))
      ensures applied ==> Resolvable(old(lines), c)
                          && lines == Resolve(old(lines), c, newLines)
                          && position == Cursor(c, newLines)
    {
      ParsedResolvable(lines, c);
      var startLineNumber := StartLineNumber(c);
      var endLineNumber := c.footerLine + 2;
      var newTextLines := Join(newLines) + "\n";
      if |newLines| == 0 {
        return false;
      }
      var newPosition := Position(startLineNumber + |newLines| - 1, Utf16Length(newLines[|newLines| - 1]) + 1);
      applied := !readOnly;
      if applied {
        var edited := ApplyEdit(lines, startLineNumber, endLineNumber, newTextLines);
        assert edited == Resolve(lines, c, newLines) by { ResolveIsEdit(lines, c, newLines); }
        ResolvedClean(lines, c, newLines);
        lines := edited;
      }
      position := newPosition;
      Redecorate();
    }

    /** A new `readOnly` prop: the editor's option follows it, and nothing else changes. */
    method SetReadOnly(value: bool)
      modifies this
      ensures readOnly == value
      ensures lines == old(lines) && position == old(position)
              && decorations == old(decorations) && widgets == old(widgets)
    {
      readOnly := value;
    }

    /** Re-parses the text of the buffer and re-decorates its conflicts. */
    method Redecorate()
      requires |lines| >= 1 && NoNewlines(lines)
      modifies this
      ensures Valid()
      ensures lines == old(lines) && position == old(position) && readOnly == old(readOnly)
    {
      var remainingConflicts := ParseConflicts(Join(lines));
      SplitJoin(lines);
      AddConflictDecorations(remainingConflicts);
    }

    /** `handleAcceptCurrent` from the widget at `idx`: keeps that conflict's current side. */
    method AcceptCurrent(idx: nat) returns (applied: bool)
      requires Valid() && idx < |widgets|
      modifies this
      ensures Valid()
      ensures var c := old(widgets[idx].conflict);
              && c == Parse(old(lines))[idx]
              && (applied <==> |c.current| > 0 && !old(readOnly))
              && (applied ==> Resolvable(old(lines), c) && lines == Resolve(old(lines), c, c.current))
              && (!applied ==> lines == old(lines))
              && (|c.current| > 0 ==> position == Cursor(c, c.current))
              && readOnly == old(readOnly)
    {
      var conflict := widgets[idx].conflict;
      WidgetsAt(Parse(lines), idx);
      assert conflict in Parse(lines);
      SidesOfParsed(lines, conflict);
      applied := MakeEdit(conflict, conflict.current);
    }

    /** `handleAcceptIncoming` from the widget at `idx`: keeps that conflict's incoming side. */
    method AcceptIncoming(idx: nat) returns (applied: bool)
      requires Valid() && idx < |widgets|
      modifies this
      ensures Valid()
      ensures var c := old(widgets[idx].conflict);
              && c == Parse(old(lines))[idx]
              && (applied <==> |c.incoming| > 0 && !old(readOnly))
              && (applied ==> Resolvable(old(lines), c) && lines == Resolve(old(lines), c, c.incoming))
              && (!applied ==> lines == old(lines))
              && (|c.incoming| > 0 ==> position == Cursor(c, c.incoming))
              && readOnly == old(readOnly)
    {
      var conflict := widgets[idx].conflict;
      WidgetsAt(Parse(lines), idx);
      assert conflict in Parse(lines);
      SidesOfParsed(lines, conflict);
      applied := MakeEdit(conflict, conflict.incoming);
    }
  }
}
