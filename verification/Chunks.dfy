/** What the two ingestion paths have in common: how rows are cut into chunks, and where one fails. */
module Chunks {

  /** Where a row failed: turning it into a document, or writing that. */
  datatype Stage = Conversion | Write

  function Least(a: nat, b: nat): nat {
    if a < b then a else b
  }

  /** Where the chunk that begins at an offset ends. */
  function End(offset: nat, batchSize: nat, total: nat): nat {
    if offset + batchSize < total then offset + batchSize else total
  }
}
