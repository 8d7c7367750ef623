/** Lookup tables from the lines of one grid to the lines of the target (lib/calibration/gridmapper.cpp). */
module GridMappers {

  datatype Direction = Horizontal | Vertical

  function Other(d: Direction): Direction {
    if d.Horizontal? then Vertical else Horizontal
  }

  class GridMapper {
    var horizontalMapping: seq<nat>
    var verticalMapping: seq<nat>

    /** The table of one direction. */
    ghost function Table(d: Direction): seq<nat>
      reads this
    {
      if d.Horizontal? then horizontalMapping else verticalMapping
    }

    /** Value-initialised tables: every line is mapped to 0. */
    constructor (horizontalSize: nat, verticalSize: nat)
      ensures horizontalMapping == seq(horizontalSize, l => 0)
      ensures verticalMapping == seq(verticalSize, l => 0)
    {
      horizontalMapping := seq(horizontalSize, l => 0);
      verticalMapping := seq(verticalSize, l => 0);
    }

    method MapHorizontal(from: nat, to: nat)
      requires from < |horizontalMapping|
      modifies this
      ensures horizontalMapping == old(horizontalMapping)[from := to]
      ensures verticalMapping == old(verticalMapping)
    {
      horizontalMapping := horizontalMapping[from := to];
    }

    method MapVertical(from: nat, to: nat)
      requires from < |verticalMapping|
      modifies this
      ensures verticalMapping == old(verticalMapping)[from := to]
      ensures horizontalMapping == old(horizontalMapping)
    {
      verticalMapping := verticalMapping[from := to];
    }

    /** `mapHorizontal` and `mapVertical`, by direction. */
    method Map(d: Direction, from: nat, to: nat)
      requires from < |Table(d)|
      modifies this
      ensures Table(d) == old(Table(d))[from := to]
      ensures Table(Other(d)) == old(Table(Other(d)))
    {
      if d.Horizontal? {
        MapHorizontal(from, to);
      } else {
        MapVertical(from, to);
      }
    }
  }
}
