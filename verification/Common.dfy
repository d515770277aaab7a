/** What several components share. */
module Common {

  datatype Option<+T> = None | Some(value: T)

  /** The number of rows of one shard's table. */
  const TABLE_HEIGHT: int := 256

  datatype EpochState = NoActive | Active | Closing | Merging | Completed

  datatype EpochMeta = EpochMeta(id: int, state: EpochState, startTime: int, duration: int)
}
