/**
 * `lineColumnToOffset` and `offsetToLineColumn` in
 * src/code/typescript-language-service.ts: 1-based positions in a text whose
 * lines end in LF or CR LF.
 */
module Positions {
  import opened Wrappers

  datatype Problem = NotPositive | LineOutside | ColumnOutside

  /** How many line feeds there are before `offset`. */
  function Breaks(text: string, offset: nat): nat
    requires offset <= |text|
  {
    if offset == 0 then 0 else Breaks(text, offset - 1) + (if text[offset - 1] == '\n' then 1 else 0)
  }

  /** Where the line of `offset` starts. */
  function LineStart(text: string, offset: nat): (start: nat)
    requires offset <= |text|
    ensures start <= offset
  {
    if offset == 0 then 0
    else if text[offset - 1] == '\n' then offset
    else LineStart(text, offset - 1)
  }

  datatype Position = Position(line: int, column: int)

  function PositionOf(text: string, offset: nat): Position
    requires offset <= |text|
  {
    Position(Breaks(text, offset) + 1, offset - LineStart(text, offset) + 1)
  }

  /** Between the CR that ends a line and the LF, or the end of the text, after it. */
  predicate AfterReturn(text: string, offset: nat)
    requires offset <= |text|
  {
    && offset > LineStart(text, offset) && text[offset - 1] == '\r'
    && (offset == |text| || text[offset] == '\n')
  }

  /** `offsetToLineColumn`; offsets outside the text count as its nearer end. */
  method OffsetToLineColumn(text: string, offset: int) returns (p: Position)
    ensures var bounded := if offset < 0 then 0 else if offset > |text| then |text| else offset;
            p == PositionOf(text, bounded)
  {
    var bounded := if offset < 0 then 0 else if offset > |text| then |text| else offset;
    var line, lineStart, index := 1, 0, 0;
    while index < bounded
      invariant 0 <= index <= bounded
      invariant line == Breaks(text, index) + 1 && lineStart == LineStart(text, index)
    {
      if text[index] == '\n' {
        line := line + 1;
        lineStart := index + 1;
      }
      index := index + 1;
    }
    p := Position(line, bounded - lineStart + 1);
  }

  /** The starts of the lines that begin in the first `n` characters or right after them. */
  function Starts(text: string, n: nat): (starts: seq<nat>)
    requires n <= |text|
    ensures |starts| == Breaks(text, n) + 1 && starts[|starts| - 1] == LineStart(text, n)
  {
    if n == 0 then [0]
    else if text[n - 1] == '\n' then Starts(text, n - 1) + [n]
    else Starts(text, n - 1)
  }

  /** Line starts up to `n` come first among all line starts, and the others lie behind `n`. */
  lemma {:induction false} StartsPrefix(text: string, n: nat, m: nat)
    requires n <= m <= |text|
    ensures Starts(text, n) <= Starts(text, m)
    ensures forall i :: |Starts(text, n)| <= i < |Starts(text, m)| ==> n < Starts(text, m)[i] <= m
  {
    if n < m {
      StartsPrefix(text, n, m - 1);
    }
  }

  lemma {:induction false} StartsBounded(text: string, n: nat)
    requires n <= |text|
    ensures forall i :: 0 <= i < |Starts(text, n)| ==> Starts(text, n)[i] <= n
  {
    if n > 0 {
      StartsBounded(text, n - 1);
    }
  }

  /** The offsets of line `k` are those from its start to before the next one. */
  lemma LineOf(text: string, k: nat, offset: nat)
    requires offset <= |text| && k < |Starts(text, |text|)|
    ensures Breaks(text, offset) == k <==>
            && Starts(text, |text|)[k] <= offset
            && (k + 1 < |Starts(text, |text|)| ==> offset < Starts(text, |text|)[k + 1])
    ensures Breaks(text, offset) == k ==> LineStart(text, offset) == Starts(text, |text|)[k]
  {
    StartsPrefix(text, offset, |text|);
    StartsBounded(text, offset);
  }

  lemma {:induction false} StartsFollowBreaks(text: string, n: nat)
    requires n <= |text|
    ensures forall i :: 1 <= i < |Starts(text, n)| ==>
              0 < Starts(text, n)[i] <= |text| && text[Starts(text, n)[i] - 1] == '\n'
  {
    if n > 0 {
      StartsFollowBreaks(text, n - 1);
    }
  }

  /** The offset just behind line `k`, without its line end. */
  function LineEnd(text: string, k: nat): int
    requires k < |Starts(text, |text|)|
  {
    var starts := Starts(text, |text|);
    StartsFollowBreaks(text, |text|);
    StartsBounded(text, |text|);
    var end := if k + 1 < |starts| then starts[k + 1] - 1 else |text|;
    if end > starts[k] && text[end - 1] == '\r' then end - 1 else end
  }

  /** The offsets of a line that lie behind its line end are those just after its trailing CR. */
  lemma EndOfLine(text: string, k: nat, offset: nat)
    requires offset <= |text| && k < |Starts(text, |text|)| && Breaks(text, offset) == k
    ensures offset <= LineEnd(text, k) <==> !AfterReturn(text, offset)
  {
    LineOf(text, k, offset);
    StartsFollowBreaks(text, |text|);
    if offset < |text| && text[offset] == '\n' {
      StartsPrefix(text, offset + 1, |text|);
      assert Starts(text, |text|)[k + 1] == offset + 1;
    }
  }

  /**
   * `lineColumnToOffset`: exactly the offset at that position, unless it lies
   * between a CR and its line feed, or between a CR and the end of the text.
   */
  method LineColumnToOffset(text: string, line: int, column: int) returns (r: Result<nat, Problem>)
    ensures r == Failure(NotPositive) <==> line < 1 || column < 1
    ensures r == Failure(LineOutside) <==> line >= 1 && column >= 1 && line > Breaks(text, |text|) + 1
    ensures forall offset: nat ::
              r == Success(offset) <==>
                offset <= |text| && PositionOf(text, offset) == Position(line, column) && !AfterReturn(text, offset)
                && line >= 1 && column >= 1
  {
    if line < 1 || column < 1 {
      PositionsArePositive(text, line, column);
      return Failure(NotPositive);
    }
    var starts := [0];
    var index := 0;
    while index < |text|
      invariant 0 <= index <= |text| && starts == Starts(text, index)
    {
      if text[index] == '\n' {
        starts := starts + [index + 1];
      }
      index := index + 1;
    }
    if line - 1 >= |starts| {
      LinesEnd(text, line, column);
      return Failure(LineOutside);
    }
    var start := starts[line - 1];
    var next := if line < |starts| then starts[line] else |text| + 1;
    var lineEnd := next - 1;
    StartsFollowBreaks(text, |text|);
    StartsBounded(text, |text|);
    if lineEnd > start && text[lineEnd - 1] == '\r' {
      lineEnd := lineEnd - 1;
    }
    var offset := start + column - 1;
    OffsetDecides(text, line, column);
    if offset > lineEnd {
      return Failure(ColumnOutside);
    }
    r := Success(offset);
  }

  lemma PositionsArePositive(text: string, line: int, column: int)
    requires line < 1 || column < 1
    ensures forall offset: nat :: offset <= |text| ==> PositionOf(text, offset) != Position(line, column)
  {
  }

  lemma LinesEnd(text: string, line: int, column: int)
    requires line - 1 >= |Starts(text, |text|)|
    ensures forall offset: nat :: offset <= |text| ==> PositionOf(text, offset) != Position(line, column)
  {
    forall offset: nat | offset <= |text|
      ensures Breaks(text, offset) < line - 1
    {
      StartsPrefix(text, offset, |text|);
    }
  }

  /** The offset computed from the line's start is the only one that can be at the position. */
  lemma OffsetDecides(text: string, line: int, column: int)
    requires line >= 1 && column >= 1 && line - 1 < |Starts(text, |text|)|
    ensures var computed := Starts(text, |text|)[line - 1] + column - 1;
            forall offset: nat :: offset <= |text| ==>
              (PositionOf(text, offset) == Position(line, column) && !AfterReturn(text, offset)
               <==> offset == computed && computed <= LineEnd(text, line - 1))
    ensures LineEnd(text, line - 1) <= |text|
  {
    var computed := Starts(text, |text|)[line - 1] + column - 1;
    StartsFollowBreaks(text, |text|);
    StartsBounded(text, |text|);
    forall offset: nat | offset <= |text|
      ensures PositionOf(text, offset) == Position(line, column) && !AfterReturn(text, offset)
              <==> offset == computed && computed <= LineEnd(text, line - 1)
    {
      LineOf(text, line - 1, offset);
      if Breaks(text, offset) == line - 1 {
        EndOfLine(text, line - 1, offset);
      }
    }
  }
}
