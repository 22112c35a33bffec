/** Plain records shared by the camera, the terrain and both mappers. */
module Records {
  import opened Common

  /** The drivers' `grid_info`: map extent in metres, edge length of a
      cell, shape in cells, and whether coordinates are centred on the map. */
  datatype GridInfo = GridInfo(x: real, y: real, length: real, shape: (nat, nat), center: bool)

  /** A grid description every division by the cell length is defined on. */
  type Grid = g: GridInfo | g.length > 0.0 && g.x >= 0.0 && g.y >= 0.0
    witness GridInfo(0.0, 0.0, 1.0, (0, 0), false)

  /** `uav_position`: a planar position and an altitude. */
  datatype UavPosition = UavPosition(position: (real, real), altitude: real)

  /** The footprint vertices `ul`, `bl`, `ur`, `br` as index pairs. */
  datatype Corners = Corners(ul: Cell, bl: Cell, ur: Cell, br: Cell)
}
