/**
 * The numeric settings of Simple Snake (settings.py), as one immutable
 * record. Colours, fonts and the window title are presentation only and are
 * not part of the record.
 */
module Settings {

  /** speed is the frame rate handed to the clock; the others are in pixels,
      in blocks, or in points. */
  datatype Config = Config(
    speed: int,
    blockSize: int,
    gridBlocks: int,
    borderBlocks: int,
    pointsPerFruit: int)

  /** The settings the game ships with. */
  const Shipped := Config(8, 32, 12, 3, 10)

  /** What play needs of a configuration. The model covers only a positive
      block size, which is randrange's step; randrange raises on a zero step
      or an empty range. The fruit's range is non-empty, and holds the two
      columns the resampling loop needs to end, exactly when
      gridBlocks > borderBlocks + 3. */
  predicate Playable(c: Config) {
    c.blockSize > 0 && c.gridBlocks > c.borderBlocks + 3
  }

  /** The shipped settings meet what play needs. */
  lemma ShippedIsPlayable()
    ensures Playable(Shipped)
  {
  }
}
