/**
 * String primitives the sources rely on: JavaScript's `startsWith`, `trim`,
 * `split('\n')` and `join('\n')`, Python's `str.removeprefix`, and decimal
 * rendering of a number inside a template string.
 */
module Text {

  predicate StartsWith(s: string, prefix: string) {
    |prefix| <= |s| && s[..|prefix|] == prefix
  }

  /** Python's `s.removeprefix(prefix)`: drops one leading copy of `prefix`. */
  function RemovePrefix(s: string, prefix: string): (r: string)
    ensures StartsWith(s, prefix) ==> prefix + r == s
    ensures !StartsWith(s, prefix) ==> r == s
  {
    if StartsWith(s, prefix) then s[|prefix|..] else s
  }

  /** The characters JavaScript's `String.prototype.trim` removes:
      WhiteSpace and LineTerminator of ECMA-262, section 12.2 and 12.3. */
  predicate IsJsWhitespace(c: char) {
    c == '\t' || c == '\n' || c == '\U{000B}' || c == '\U{000C}' || c == '\r' || c == ' '
    || c == '\U{00A0}' || c == '\U{1680}' || ('\U{2000}' <= c <= '\U{200A}')
    || c == '\U{2028}' || c == '\U{2029}' || c == '\U{202F}' || c == '\U{205F}'
    || c == '\U{3000}' || c == '\U{FEFF}'
  }

  /** `s.trimStart()`. */
  function TrimStart(s: string): string {
    if s != [] && IsJsWhitespace(s[0]) then TrimStart(s[1..]) else s
  }

  /** `s.trimEnd()`. */
  function TrimEnd(s: string): string {
    if s != [] && IsJsWhitespace(s[|s| - 1]) then TrimEnd(s[..|s| - 1]) else s
  }

  /** `s.trim()`. */
  function Trim(s: string): string {
    TrimEnd(TrimStart(s))
  }

  /** `trimStart` drops exactly the leading whitespace. */
  lemma {:induction false} TrimStartShape(s: string)
    ensures var r := TrimStart(s);
            && |r| <= |s| && r == s[|s| - |r|..]
            && (r == [] || !IsJsWhitespace(r[0]))
            && forall i :: 0 <= i < |s| - |r| ==> IsJsWhitespace(s[i])
  {
    if s != [] && IsJsWhitespace(s[0]) {
      var t := s[1..];
      TrimStartShape(t);
      var r := TrimStart(t);
      assert t[|t| - |r|..] == s[|s| - |r|..];
      forall i | 0 <= i < |s| - |r| ensures IsJsWhitespace(s[i]) {
        if i > 0 { assert s[i] == t[i - 1]; }
      }
    }
  }

  /** `trimEnd` drops exactly the trailing whitespace. */
  lemma {:induction false} TrimEndShape(s: string)
    ensures var r := TrimEnd(s);
            && |r| <= |s| && r == s[..|r|]
            && (r == [] || !IsJsWhitespace(r[|r| - 1]))
            && forall i :: |r| <= i < |s| ==> IsJsWhitespace(s[i])
  {
    if s != [] && IsJsWhitespace(s[|s| - 1]) {
      var t := s[..|s| - 1];
      TrimEndShape(t);
      var r := TrimEnd(t);
      assert t[..|r|] == s[..|r|];
      forall i | |r| <= i < |s| ensures IsJsWhitespace(s[i]) {
        if i < |s| - 1 { assert s[i] == t[i]; }
      }
    }
  }

  /** `s.trim() === ''`: the test both `addBlankLines` and `parseConflicts` use. */
  predicate IsBlank(s: string) {
    Trim(s) == ""
  }

  /** A line trims to nothing exactly when every character of it is whitespace. */
  lemma {:induction false} BlankIffAllWhitespace(s: string)
    ensures IsBlank(s) <==> forall i :: 0 <= i < |s| ==> IsJsWhitespace(s[i])
  {
    var t := TrimStart(s);
    TrimStartShape(s);
    TrimEndShape(t);
    if !IsBlank(s) {
      var r := TrimEnd(t);
      assert !IsJsWhitespace(r[|r| - 1]);
      assert r[|r| - 1] == s[|s| - |t| + |r| - 1];
    }
  }

  /** Index of the first `c` in `s`, or `|s|` when there is none. */
  function IndexOf(s: string, c: char): (k: nat)
    ensures k <= |s|
  {
    if s == [] then 0 else if s[0] == c then 0 else 1 + IndexOf(s[1..], c)
  }

  /** `IndexOf` finds the first `c`. */
  lemma {:induction false} IndexOfFirst(s: string, c: char)
    ensures var k := IndexOf(s, c);
            && (k < |s| ==> s[k] == c)
            && forall i :: 0 <= i < k ==> s[i] != c
  {
    if s != [] && s[0] != c {
      IndexOfFirst(s[1..], c);
    }
  }

  /** A `c` at `k` with none before it is the first one. */
  lemma {:induction false} IndexOfAt(s: string, c: char, k: nat)
    requires k <= |s| && (k < |s| ==> s[k] == c)
    requires forall i :: 0 <= i < k ==> s[i] != c
    ensures IndexOf(s, c) == k
  {
    if s != [] && s[0] != c {
      assert forall i :: 0 <= i < k - 1 ==> s[1..][i] != c;
      IndexOfAt(s[1..], c, k - 1);
    }
  }

  /** `s.split('\n')`: never empty; `""` splits into `[""]`. */
  function Split(s: string): (r: seq<string>)
    ensures |r| >= 1
    decreases |s|
  {
    var k := IndexOf(s, '\n');
    if k == |s| then [s] else [s[..k]] + Split(s[k + 1..])
  }

  /** `lines.join('\n')`. */
  function Join(lines: seq<string>): string {
    if |lines| == 0 then ""
    else if |lines| == 1 then lines[0]
    else lines[0] + "\n" + Join(lines[1..])
  }

  predicate NoNewlines(lines: seq<string>) {
    forall i :: 0 <= i < |lines| ==> '\n' !in lines[i]
  }

  /** No piece of a split holds the separator. */
  lemma {:induction false} SplitNoNewlines(s: string)
    ensures NoNewlines(Split(s))
    decreases |s|
  {
    var k := IndexOf(s, '\n');
    IndexOfFirst(s, '\n');
    if k < |s| {
      SplitNoNewlines(s[k + 1..]);
      assert '\n' !in s[..k];
    } else {
      assert '\n' !in s;
    }
  }

  /** Joining the pieces of a split gives the text back. */
  lemma {:induction false} JoinSplit(s: string)
    ensures Join(Split(s)) == s
    decreases |s|
  {
    var k := IndexOf(s, '\n');
    if k < |s| {
      IndexOfFirst(s, '\n');
      JoinSplit(s[k + 1..]);
      var rest := Split(s[k + 1..]);
      assert Split(s) == [s[..k]] + rest;
      assert Join(Split(s)) == s[..k] + "\n" + Join(rest);
      assert s == s[..k] + "\n" + s[k + 1..];
    }
  }

  /** A newline-free line is its own split. */
  lemma {:induction false} SplitSingle(x: string)
    requires '\n' !in x
    ensures Split(x) == [x]
  {
    IndexOfAt(x, '\n', |x|);
  }

  /** A newline-free line followed by '\n' splits off as one piece. */
  lemma {:induction false} SplitCons(x: string, rest: string)
    requires '\n' !in x
    ensures Split(x + "\n" + rest) == [x] + Split(rest)
  {
    var s := x + "\n" + rest;
    assert forall i :: 0 <= i < |x| ==> s[i] == x[i];
    assert s[|x|] == '\n';
    IndexOfAt(s, '\n', |x|);
    assert s[..|x|] == x;
    assert s[|x| + 1..] == rest;
  }

  /** Splitting a join of newline-free lines gives the lines back. */
  lemma {:induction false} SplitJoin(lines: seq<string>)
    requires |lines| >= 1 && NoNewlines(lines)
    ensures Split(Join(lines)) == lines
  {
    if |lines| > 1 {
      var a, tail := lines[0], lines[1..];
      assert Join(lines) == a + "\n" + Join(tail);
      assert NoNewlines(tail) by {
        forall i | 0 <= i < |tail| ensures '\n' !in tail[i] { assert tail[i] == lines[i + 1]; }
      }
      SplitCons(a, Join(tail));
      SplitJoin(tail);
      assert lines == [a] + tail;
    } else {
      assert Join(lines) == lines[0];
      SplitSingle(lines[0]);
    }
  }

  lemma {:induction false} SeqAssoc3(a: string, b: string, c: string, d: string)
    ensures a + b + c + d == a + (b + c + d)
  {
  }

  /** Splitting the join of newline-free lines followed by '\n' and more text gives the lines,
      then the pieces of the rest. */
  lemma {:induction false} SplitJoinThen(lines: seq<string>, rest: string)
    requires |lines| >= 1 && NoNewlines(lines)
    ensures Split(Join(lines) + "\n" + rest) == lines + Split(rest)
  {
    if |lines| == 1 {
      assert Join(lines) == lines[0];
      SplitCons(lines[0], rest);
    } else {
      var tail := lines[1..];
      assert NoNewlines(tail) by {
        forall i | 0 <= i < |tail| ensures '\n' !in tail[i] { assert tail[i] == lines[i + 1]; }
      }
      SplitJoinThen(tail, rest);
      var x, t := lines[0], Join(tail) + "\n" + rest;
      assert Join(lines) == x + "\n" + Join(tail);
      calc {
        Join(lines) + "\n" + rest;
        (x + "\n" + Join(tail)) + "\n" + rest;
        { SeqAssoc3(x + "\n", Join(tail), "\n", rest); }
        x + "\n" + t;
      }
      SplitCons(x, t);
      assert lines == [x] + tail;
    }
  }

  /** Joining two runs of lines with '\n' between them and splitting again gives both runs. */
  lemma {:induction false} SplitJoinAppend(a: seq<string>, b: seq<string>)
    requires |a| >= 1 && |b| >= 1 && NoNewlines(a) && NoNewlines(b)
    ensures Split(Join(a) + "\n" + Join(b)) == a + b
  {
    SplitJoinThen(a, Join(b));
    SplitJoin(b);
  }

  /** A character beyond the Basic Multilingual Plane, which UTF-16 stores as a
      surrogate pair. */
  predicate IsAstral(c: char) {
    c as int > 0xFFFF
  }

  /** JavaScript's `s.length`: the number of UTF-16 code units, two for every astral
      character and one for every other character. */
  function Utf16Length(s: string): nat
    decreases |s|
  {
    if s == [] then 0 else (if IsAstral(s[0]) then 2 else 1) + Utf16Length(s[1..])
  }

  /** `.length` lies between the number of characters and twice that number. It equals
      the number of characters exactly when no character is astral. */
  lemma {:induction false} Utf16LengthBounds(s: string)
    ensures |s| <= Utf16Length(s) <= 2 * |s|
    ensures Utf16Length(s) == |s| <==> forall i :: 0 <= i < |s| ==> !IsAstral(s[i])
    decreases |s|
  {
    if s != [] {
      Utf16LengthBounds(s[1..]);
      if forall i :: 0 <= i < |s| ==> !IsAstral(s[i]) {
        forall i | 0 <= i < |s| - 1 ensures !IsAstral(s[1..][i]) { assert s[1..][i] == s[i + 1]; }
      } else if !IsAstral(s[0]) {
        var i :| 0 <= i < |s| && IsAstral(s[i]);
        assert s[1..][i - 1] == s[i];
      }
    }
  }

  /** An emoji is one character and two UTF-16 code units. */
  lemma {:induction false} Utf16LengthEmoji()
    ensures |"\U{1F600}"| == 1 && Utf16Length("\U{1F600}") == 2
  {
    assert IsAstral("\U{1F600}"[0]);
    assert "\U{1F600}"[1..] == [];
  }

  function DigitChar(d: nat): char
    requires d < 10
  {
    "0123456789"[d]
  }

  /** Decimal rendering of a non-negative number, as a template string shows it. */
  function NatToString(n: nat): (r: string)
    ensures |r| >= 1
    ensures n >= 10 ==> |r| >= 2
  {
    if n < 10 then [DigitChar(n)] else NatToString(n / 10) + [DigitChar(n % 10)]
  }

  lemma {:induction false} DigitCharInjective(a: nat, b: nat)
    requires a < 10 && b < 10 && DigitChar(a) == DigitChar(b)
    ensures a == b
  {
    var digits := "0123456789";
    assert forall i, j :: 0 <= i < j < 10 ==> digits[i] < digits[j];
  }

  /** Distinct numbers render to distinct strings. */
  lemma {:induction false} NatToStringInjective(a: nat, b: nat)
    requires NatToString(a) == NatToString(b)
    ensures a == b
  {
    var sa, sb := NatToString(a), NatToString(b);
    if a < 10 && b < 10 {
      assert sa[0] == DigitChar(a) && sb[0] == DigitChar(b);
      DigitCharInjective(a, b);
    } else if a >= 10 && b >= 10 {
      assert sa[|sa| - 1] == DigitChar(a % 10) && sb[|sb| - 1] == DigitChar(b % 10);
      DigitCharInjective(a % 10, b % 10);
      assert sa[..|sa| - 1] == NatToString(a / 10);
      assert sb[..|sb| - 1] == NatToString(b / 10);
      NatToStringInjective(a / 10, b / 10);
    }
  }
}
