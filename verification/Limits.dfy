/** Limits the server works under. */
module Limits {
  /** Entries one reading of a queue returns at most. */
  const PAGE_SIZE: nat := 100
  /** Queues one polling of the index returns at most. */
  const QUEUE_BATCH_LIMIT: nat := 100
  /** Last index of a batch of messages; the range is inclusive. */
  const MESSAGE_BATCH_LIMIT: nat := 100
  /** Age in seconds at which a queue is moved to the database. */
  const PERSIST_DELAY: nat := 600
}
