/**
 * The conflict scanner of the state merge editor
 * (frontend/src/components/StateMergeEditor.tsx) on two buffers that share a
 * tail: once both scans are idle where the tail begins, they report the same
 * conflicts along it, every line number moved by the difference of the tail's
 * positions. This is what a resolution (a splice before the tail) relies on.
 */
module ConflictShift {
  import opened Wrappers
  import opened Text
  import opened MergeConflicts

  /** `b` is `a` moved by `d` lines: same sides, marker and blank-line flag, every line
      number offset by `d`. */
  predicate ShiftedConflict(a: Conflict, b: Conflict, d: int) {
    && b.marker == a.marker && b.current == a.current && b.incoming == a.incoming
    && b.startLine == a.startLine + d && b.headerLine == a.headerLine + d
    && (b.separatorLine.Some? <==> a.separatorLine.Some?)
    && (a.separatorLine.Some? ==> b.separatorLine.value == a.separatorLine.value + d)
    && b.footerLine == a.footerLine + d && b.endLine == a.endLine + d
    && b.hasBlankLineBefore == a.hasBlankLineBefore
  }

  /** The same for an open accumulator. */
  predicate ShiftedOpen(a: OpenConflict, b: OpenConflict, d: int) {
    && b.marker == a.marker && b.current == a.current && b.incoming == a.incoming
    && b.startLine == a.startLine + d && b.headerLine == a.headerLine + d
    && (b.separatorLine.Some? <==> a.separatorLine.Some?)
    && (a.separatorLine.Some? ==> b.separatorLine.value == a.separatorLine.value + d)
    && b.hasBlankLineBefore == a.hasBlankLineBefore
  }

  /** Two scanner states that agree up to a shift of `d` lines, on their open
      accumulators and on the records found after the first `ka` (resp. `kb`). */
  predicate ShiftedState(a: ScanState, b: ScanState, ka: nat, kb: nat, d: int) {
    && (a.open.Some? <==> b.open.Some?)
    && (a.open.Some? ==> ShiftedOpen(a.open.value, b.open.value, d))
    && ka <= |a.found| && kb <= |b.found| && |a.found| - ka == |b.found| - kb
    && forall i :: ka <= i < |a.found| ==> ShiftedConflict(a.found[i], b.found[i - ka + kb], d)
  }

  /** `rs` is `cs` with record `j` removed and every later record moved by `d` lines. */
  predicate DroppedAndShifted(cs: seq<Conflict>, rs: seq<Conflict>, j: nat, d: int) {
    && j < |cs| && |rs| == |cs| - 1
    && rs[..j] == cs[..j]
    && forall i :: j < i < |cs| ==> ShiftedConflict(cs[i], rs[i - 1], d)
  }

  /** Two states shifted past one extra record on the first side: record `i` of the
      first, after the first `j + 1`, is record `i - 1` of the second, moved. */
  lemma {:induction false} ShiftedPastOne(sa: ScanState, sb: ScanState, j: nat, d: int)
    requires ShiftedState(sa, sb, j + 1, j, d)
    ensures |sb.found| == |sa.found| - 1
    ensures forall i :: j < i < |sa.found| ==> ShiftedConflict(sa.found[i], sb.found[i - 1], d)
  {
    forall i | j < i < |sa.found| ensures ShiftedConflict(sa.found[i], sb.found[i - 1], d) {
      assert i - (j + 1) + j == i - 1;
    }
  }

  /** An end marker always leaves the scanner with nothing open. */
  lemma {:induction false} ClosedAfterEnd(lines: seq<string>, i: nat)
    requires i < |lines| && IsEnd(lines[i])
    ensures Scan(lines, i + 1).open.None?
  {
    MarkersExclusive(lines[i]);
  }

  /** With nothing open, lines without a start marker change nothing. */
  lemma {:induction false} IdleThrough(lines: seq<string>, a: nat, b: nat)
    requires a <= b <= |lines| && Scan(lines, a).open.None?
    requires forall i :: a <= i < b ==> !IsStart(lines[i])
    ensures Scan(lines, b) == Scan(lines, a)
    decreases b - a
  {
    if a < b {
      IdleThrough(lines, a, b - 1);
    }
  }

  /** One scanner step on equal lines keeps two shifted scans shifted, provided a start
      marker sees the same blank-line flag above it in both buffers. */
  lemma {:induction false} StepShifted(la: seq<string>, lb: seq<string>, i: nat, j: nat, ka: nat, kb: nat, d: int)
    requires 0 < i <= |la| && 0 < j <= |lb| && la[i - 1] == lb[j - 1] && d == j - i
    requires IsStart(la[i - 1]) ==> ((i > 1 && IsBlank(la[i - 2])) == (j > 1 && IsBlank(lb[j - 2])))
    requires ShiftedState(Scan(la, i - 1), Scan(lb, j - 1), ka, kb, d)
    ensures ShiftedState(Scan(la, i), Scan(lb, j), ka, kb, d)
  {
    var sa, sb := Scan(la, i - 1), Scan(lb, j - 1);
    var ta, tb := Scan(la, i), Scan(lb, j);
    assert ta == Step(la, i - 1, sa) && tb == Step(lb, j - 1, sb);
    if !IsStart(la[i - 1]) && IsEnd(la[i - 1]) && sa.open.Some? {
      assert ta.found == sa.found + [Close(sa.open.value, i - 1)];
      assert tb.found == sb.found + [Close(sb.open.value, j - 1)];
      forall k | ka <= k < |ta.found|
        ensures ShiftedConflict(ta.found[k], tb.found[k - ka + kb], d)
      {
        if k < |sa.found| {
          assert ta.found[k] == sa.found[k] && tb.found[k - ka + kb] == sb.found[k - ka + kb];
        }
      }
    } else {
      assert ta.found == sa.found && tb.found == sb.found;
    }
  }

  /** Two buffers that share a tail, reached by the scanner with nothing open, are
      scanned alike along it, up to the difference of the tail's positions; the only
      line whose treatment could differ is a start marker opening the tail, whose
      blank-line flag looks above the tail, so the flags must agree there. `i` and `j`
      are corresponding positions in the tail of `la` and of `lb`. */
  lemma {:induction false} ScanShift(la: seq<string>, lb: seq<string>, p: nat, q: nat, i: nat, j: nat)
    requires p <= |la| && q <= |lb| && |la| - p == |lb| - q && la[p..] == lb[q..]
    requires Scan(la, p).open.None? && Scan(lb, q).open.None?
    requires p < |la| && IsStart(la[p]) ==> ((p > 0 && IsBlank(la[p - 1])) == (q > 0 && IsBlank(lb[q - 1])))
    requires p <= i <= |la| && j == i - p + q
    ensures ShiftedState(Scan(la, i), Scan(lb, j), |Scan(la, p).found|, |Scan(lb, q).found|, q - p)
  {
    if i > p {
      ScanShift(la, lb, p, q, i - 1, j - 1);
      assert la[i - 1] == la[p..][i - 1 - p] == lb[q..][i - 1 - p] == lb[j - 1];
      if i - 1 > p {
        assert la[i - 2] == la[p..][i - 2 - p] == lb[q..][i - 2 - p] == lb[j - 2];
      }
      StepShifted(la, lb, i, j, |Scan(la, p).found|, |Scan(lb, q).found|, q - p);
    }
  }
}
