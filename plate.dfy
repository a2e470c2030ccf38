/**
 * A tectonic plate (`Plate`, src/terrain/planet/plate.rs), reduced to its
 * id and its tile list; the random elevation, rotation axis and speed are
 * not part of this model.
 */
module PlanetPlate {

  datatype Plate = Plate(id: nat, tiles: seq<nat>)
  {
    /** `add_tile`: appends one tile index, without de-duplication. */
    function AddTile(t: nat): (p: Plate)
      ensures p.id == id
      ensures |p.tiles| == |tiles| + 1 && p.tiles[..|tiles|] == tiles && p.tiles[|tiles|] == t
    {
      Plate(id, tiles + [t])
    }
  }

  /** `Plate::new`, its id and tile list: the given id and no tiles. */
  function New(id: nat): (p: Plate)
    ensures p.id == id && p.tiles == []
  {
    Plate(id, [])
  }
}
