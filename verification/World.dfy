/** Fixed-width integers, positions and directions shared by the whole model. */
module World {

  type uint8 = x: int | 0 <= x < 0x100
  type uint16 = x: int | 0 <= x < 0x1_0000
  type uint32 = x: int | 0 <= x < 0x1_0000_0000
  type int32 = x: int | -0x8000_0000 <= x < 0x8000_0000

  datatype Option<+T> = None | Some(value: T)

  /** A tile of the world; `z` is the floor (7 is ground level). */
  datatype Position = Position(x: uint16, y: uint16, z: uint8)

  datatype Direction =
    | North | East | South | West
    | NorthEast | SouthEast | SouthWest | NorthWest

  /** The `(dx, dy)` step of a direction on the tile grid. */
  function Delta(d: Direction): (int, int) {
    match d
    case North => (0, -1)
    case East => (1, 0)
    case South => (0, 1)
    case West => (-1, 0)
    case NorthEast => (1, -1)
    case SouthEast => (1, 1)
    case SouthWest => (-1, 1)
    case NorthWest => (-1, -1)
  }

  lemma {:induction false} SubsetSize(s: set<nat>, n: nat)
    requires forall i :: i in s ==> i < n
    ensures |s| <= n
  {
    if n == 0 {
      assert s == {};
    } else {
      SubsetSize(s - {n - 1}, n - 1);
    }
  }

  function Abs(x: int): nat {
    if x < 0 then -x else x
  }

  function Min(x: int, y: int): int {
    if x < y then x else y
  }

  function Max(x: int, y: int): int {
    if x < y then y else x
  }
}
