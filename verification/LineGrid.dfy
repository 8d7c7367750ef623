/** Line grids (lib/calibration/linegrid.h): positions of the lens lines along both axes. */
module LineGrids {

  datatype SubGrid = SUBGRID_A | SUBGRID_B

  datatype Line = Line(subgrid: SubGrid, position: real)

  datatype LineGrid = LineGrid(horizontal: seq<Line>, vertical: seq<Line>)
}
