/** The enums of `actions_objects_list.py`: the actions of the grid game and
    the tags that name the three game objects. */
module ActionsObjectsList {

  /** `Actions`: the four moves carry their (dx, dy) delta, the other four
      actions carry their integer code. */
  datatype Actions = Left | Up | Right | Down | Take | PutFeed | Put | Feed
  {
    predicate IsMove() {
      Left? || Up? || Right? || Down?
    }

    /** The value of a move: its unit displacement (x grows to the right,
        y grows downwards). */
    function Delta(): (d: (int, int))
      requires IsMove()
      ensures (d.0 == 0) != (d.1 == 0)
      ensures -1 <= d.0 <= 1 && -1 <= d.1 <= 1
    {
      match this
      case Left => (-1, 0)
      case Up => (0, -1)
      case Right => (1, 0)
      case Down => (0, 1)
    }

    /** The value of a non-move action. */
    function Code(): (c: int)
      requires !IsMove()
      ensures 4 <= c <= 7
    {
      match this
      case Take => 4
      case PutFeed => 5
      case Put => 6
      case Feed => 7
    }
  }

  /** `Objects`: the tags `GameBoard.move_object` compares its first argument
      against. */
  datatype Objects = Scrat | Hippo | Watermelon
}
