/** Lane coordinates (beers/flowcell_lane.py, which is not part of this
    model): a tile and an x, y position inside one flowcell lane. The model
    takes them as a plain value compared field by field, and orders them by
    (tile, x, y) when clusters are sorted by their coordinates. */
module FlowcellLanes {

  datatype LaneCoordinates = LaneCoordinates(tile: int, x: int, y: int)

  /** The sort key of a set of coordinates. */
  function SortKey(c: LaneCoordinates): (k: seq<int>)
    ensures |k| == 3
  {
    [c.tile, c.x, c.y]
  }

  /** Distinct coordinates have distinct sort keys, so sorting by the key
      groups only clusters that share a position. */
  lemma SortKeyInjective(c: LaneCoordinates, d: LaneCoordinates)
    requires SortKey(c) == SortKey(d)
    ensures c == d
  {
    assert SortKey(c)[0] == SortKey(d)[0] && SortKey(c)[1] == SortKey(d)[1] && SortKey(c)[2] == SortKey(d)[2];
  }
}
