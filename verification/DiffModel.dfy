/** The parsed diff a review is built from, and the sides its lines live on. */
module DiffModel {

  datatype Option<+T> = None | Some(value: T)

  datatype Result<+T, +E> = Ok(value: T) | Err(error: E)

  datatype Side = Old | New

  datatype LineKind = Context | Addition | Deletion

  datatype DiffLine = DiffLine(kind: LineKind, content: string, oldLine: Option<nat>, newLine: Option<nat>)

  datatype Hunk = Hunk(oldStart: nat, newStart: nat, header: string, lines: seq<DiffLine>)

  datatype DiffFile = DiffFile(id: string, path: string, previousPath: Option<string>, hunks: seq<Hunk>,
                               deleted: bool, isBinary: bool, isTooLarge: bool)

  predicate OnSide(kind: LineKind, side: Side) {
    match side
    case Old => kind != Addition
    case New => kind != Deletion
  }

  function FileById(files: seq<DiffFile>, id: string): Option<DiffFile> {
    if files == [] then None else if files[0].id == id then Some(files[0]) else FileById(files[1..], id)
  }

  function NumberOn(line: DiffLine, side: Side): Option<nat> {
    if side == Old then line.oldLine else line.newLine
  }

  function Start(hunk: Hunk, side: Side): nat {
    if side == Old then hunk.oldStart else hunk.newStart
  }

  /** The lines of a hunk that exist on one side, in order. */
  function SideLines(lines: seq<DiffLine>, side: Side): seq<DiffLine> {
    if lines == [] then [] else
      var last := lines[|lines| - 1];
      SideLines(lines[..|lines| - 1], side) + (if OnSide(last.kind, side) then [last] else [])
  }

  lemma {:induction false} SideLinesConcat(a: seq<DiffLine>, b: seq<DiffLine>, side: Side)
    ensures SideLines(a + b, side) == SideLines(a, side) + SideLines(b, side)
  {
    if b == [] {
      assert a + b == a;
    } else {
      SideLinesConcat(a, b[..|b| - 1], side);
      assert (a + b)[..|a + b| - 1] == a + b[..|b| - 1];
    }
  }

  function Count(hunk: Hunk, side: Side): nat { |SideLines(hunk.lines, side)| }
}
