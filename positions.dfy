/**
 * Source locations (struct/Position.java), modelled as values. A Position
 * also names its source file; that name is the same for every position of a
 * run and only error printing reads it, so it is not part of this model.
 */
module Positions {
  import opened Wrappers

  /** A location: the index of the character, its line and its column. */
  datatype Position = Position(index: int, line: int, column: int)

  /** `new Position(file)`: the location just before the first character. */
  function Fresh(): (p: Position)
    ensures p.index == -1 && p.line == 0 && p.column == -1
  {
    Position(-1, 0, -1)
  }

  /**
   * `advance(c)`: step over the character `c` (None stands for Java's null).
   * A newline starts a new line; anything else, null included, moves one column right.
   */
  function Advance(p: Position, c: Option<char>): (q: Position)
    ensures q.index == p.index + 1
    ensures c == Some('\n') ==> q.line == p.line + 1 && q.column == 0
    ensures c != Some('\n') ==> q.line == p.line && q.column == p.column + 1
  {
    if c == Some('\n') then Position(p.index + 1, p.line + 1, 0)
    else Position(p.index + 1, p.line, p.column + 1)
  }
}
