/** Line and column, and byte offset, of crates/kql-parser/src/policy.rs. */
module KqlPosition {
  import opened Wrappers
  import Text

  datatype Position = Position(line: nat, column: nat)

  // ------------------------------------------------------------------ line and column

  /** How many line feeds a text has. */
  function Breaks(s: string): nat {
    if s == [] then 0 else Breaks(s[..|s| - 1]) + (if s[|s| - 1] == '\n' then 1 else 0)
  }

  /** How many characters follow the last line feed. */
  function SinceBreak(s: string): nat {
    if s == [] || s[|s| - 1] == '\n' then 0 else SinceBreak(s[..|s| - 1]) + 1
  }

  /** Line and column of the character at `k`, counted from 1. */
  function PositionOf(text: string, k: nat): Position
    requires k <= |text|
  {
    Position(Breaks(text[..k]) + 1, SinceBreak(text[..k]) + 1)
  }

  lemma OneOn(text: string, k: nat)
    requires k < |text|
    ensures PositionOf(text, k + 1) ==
            if text[k] == '\n' then Position(PositionOf(text, k).line + 1, 1)
            else Position(PositionOf(text, k).line, PositionOf(text, k).column + 1)
  {
    assert text[..k + 1][..k] == text[..k];
  }

  predicate Before(p: Position, q: Position) {
    p.line < q.line || (p.line == q.line && p.column < q.column)
  }

  /** Positions grow along the text, so no two characters share one. */
  lemma {:induction false} PositionsGrow(text: string, j: nat, k: nat)
    requires j < k <= |text|
    ensures Before(PositionOf(text, j), PositionOf(text, k))
    ensures text[j] == '\n' ==> PositionOf(text, j).line < PositionOf(text, k).line
    decreases k
  {
    OneOn(text, k - 1);
    if j < k - 1 { PositionsGrow(text, j, k - 1); }
  }

  /** Where a line that starts at `i` ends: at the next line feed, or with the text. */
  function LineEnd(text: string, i: nat): (e: nat)
    requires i <= |text|
    ensures i <= e <= |text|
    ensures forall j :: i <= j < e ==> text[j] != '\n'
    ensures e < |text| ==> text[e] == '\n'
    decreases |text| - i
  {
    if i == |text| || text[i] == '\n' then i else LineEnd(text, i + 1)
  }

  predicate StartsLine(text: string, i: nat) {
    i <= |text| && (i == 0 || text[i - 1] == '\n')
  }

  lemma {:induction false} InLine(text: string, start: nat, k: nat)
    requires StartsLine(text, start) && start <= k <= |text| && forall j :: start <= j < k ==> text[j] != '\n'
    ensures PositionOf(text, k) == Position(PositionOf(text, start).line, k - start + 1)
    decreases k
  {
    if k > start {
      InLine(text, start, k - 1);
      OneOn(text, k - 1);
    } else if start > 0 {
      OneOn(text, start - 1);
    }
  }

  // ------------------------------------------------------------------ byte offsets

  /** The character at `k` is no line feed and stands where `at` says; column 0 is read as 1. */
  predicate StandsAt(text: string, k: int, at: Position) {
    0 <= k < |text| && text[k] != '\n'
        && PositionOf(text, k) == Position(at.line, if at.column == 0 then 1 else at.column)
  }

  /** `offset` is the byte offset of the character that stands at `at`, if there is one. */
  ghost predicate IsOffset(text: string, at: Position, offset: Option<nat>) {
    && (offset.Some? ==> exists k :: StandsAt(text, k, at) && offset.value == Text.ByteLength(text[..k]))
    && (offset.None? ==> forall k :: !StandsAt(text, k, at))
  }

  lemma BytesOfBreak(text: string, e: nat)
    requires e < |text| && text[e] == '\n'
    ensures Text.ByteLength(text[..e + 1]) == Text.ByteLength(text[..e]) + 1
  {
    Text.ByteLengthSplit(text, e, e + 1);
    assert text[e..e + 1] == ['\n'] && ['\n'][1..] == [];
  }

  lemma OtherLine(text: string, start: nat, at: Position)
    requires StartsLine(text, start) && PositionOf(text, start).line != at.line
    ensures forall k :: start <= k <= LineEnd(text, start) ==> !StandsAt(text, k, at)
  {
    forall k | start <= k <= LineEnd(text, start) ensures !StandsAt(text, k, at) {
      InLine(text, start, k);
    }
  }

  lemma OwnLine(text: string, start: nat, at: Position, k: int)
    requires StartsLine(text, start) && PositionOf(text, start).line == at.line
    ensures StandsAt(text, k, at)
            <==> start <= k < LineEnd(text, start) && k == start + (if at.column == 0 then 0 else at.column - 1)
  {
    var e := LineEnd(text, start);
    if 0 <= k < |text| {
      if k < start {
        PositionsGrow(text, start - 1, start);
        if k < start - 1 { PositionsGrow(text, k, start - 1); }
      } else if k <= e {
        InLine(text, start, k);
      } else {
        InLine(text, start, e);
        PositionsGrow(text, e, k);
      }
    }
  }

  method ByteOffset(text: string, at: Position) returns (offset: Option<nat>)
    ensures IsOffset(text, at, offset)
  {
    var start, bytes, line := 0, 0, 1;
    while true
      invariant StartsLine(text, start) && bytes == Text.ByteLength(text[..start])
              && line == PositionOf(text, start).line
      invariant forall k :: 0 <= k < start ==> !StandsAt(text, k, at)
      decreases |text| - start
    {
      var end := LineEnd(text, start);
      if line == at.line {
        var skip := if at.column == 0 then 0 else at.column - 1;
        forall k ensures StandsAt(text, k, at)
            <==> start <= k < end && k == start + skip { OwnLine(text, start, at, k); }
        if skip < end - start {
          Text.ByteLengthSplit(text, start, start + skip);
          return Some(bytes + Text.ByteLength(text[start..start + skip]));
        }
        return None;
      }
      OtherLine(text, start, at);
      if end == |text| { return None; }
      Text.ByteLengthSplit(text, start, end);
      BytesOfBreak(text, end);
      InLine(text, start, end);
      OneOn(text, end);
      bytes := bytes + Text.ByteLength(text[start..end]) + 1;
      line := line + 1;
      start := end + 1;
    }
  }

  /** For every character but a line feed, the offset of its line and column is its own; the place
      of a line feed has no offset. */
  lemma OffsetInvertsPosition(text: string, k: nat, offset: Option<nat>)
    requires k < |text| && IsOffset(text, PositionOf(text, k), offset)
    ensures offset == if text[k] == '\n' then None else Some(Text.ByteLength(text[..k]))
  {
    assert text[k] != '\n' ==> StandsAt(text, k, PositionOf(text, k));
    if offset.Some? {
      var j :| StandsAt(text, j, PositionOf(text, k)) && offset.value == Text.ByteLength(text[..j]);
      if j < k { PositionsGrow(text, j, k); }
      if k < j { PositionsGrow(text, k, j); }
    }
  }
}
