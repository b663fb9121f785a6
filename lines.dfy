/** The result of a move (model/lines.py): the drawing tags of the route and
    the cells it visits. The record is never changed after it is built, so it
    is a value; `get_lines` and `get_positions` are its two fields. */
module LinesRecord {
  import opened Grid

  datatype Lines = Lines(lines: string, positions: seq<Pos>) {
    /** `is_empty`: there are no tags; the positions are not looked at. */
    predicate IsEmpty() {
      |lines| == 0
    }
  }
}
