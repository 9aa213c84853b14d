/** `DiffDepthStreamDispatcher` of model.py: diff rows are buffered and written to the
    database in batches. The database is a `Sink` whose insert either stores the whole batch
    or fails (a DatabaseException) and stores nothing; which of the two happens is not
    determined by the model. */
module Model {
  import opened Rows

  /** The `diffdepthstream` table, as the dispatcher sees it. */
  class Sink {
    var rows: seq<DiffDepthStream>

    constructor ()
      ensures rows == []
    {
      rows := [];
    }

    /** `db.insert(batch)`: on success the batch is appended in order, on failure nothing. */
    method Insert(batch: seq<DiffDepthStream>) returns (ok: bool)
      modifies this
      ensures ok ==> rows == old(rows) + batch
      ensures !ok ==> rows == old(rows)
    {
      ok := *;
      if ok {
        rows := rows + batch;
      }
    }
  }

  class DiffDepthStreamDispatcher {
    var buffer: seq<DiffDepthStream>
    const db: Sink
    const batchSize: int
    /** every record handed to `insert` so far, in order */
    ghost var received: seq<DiffDepthStream>
    /** what the table held when the dispatcher was created */
    ghost const stored: seq<DiffDepthStream>

    /** Nothing is lost or reordered: the table gained exactly a prefix of the received
        records, and the buffer holds the rest. */
    ghost predicate Valid()
      reads this, db
    {
      db.rows + buffer == stored + received && |stored| <= |db.rows|
    }

    /** `__init__` (model.py:70-73): an empty buffer. */
    constructor (database: Sink, batchSize: int)
      ensures Valid()
      ensures buffer == [] && received == []
      ensures db == database && this.batchSize == batchSize && db.rows == database.rows
    {
      buffer := [];
      db := database;
      this.batchSize := batchSize;
      received := [];
      stored := database.rows;
    }

    /** `insert` (model.py:75-99): append the record to the buffer, then flush when the buffer
        holds at least `batch_size` records. A failed flush keeps the buffer, which then
        grows past `batch_size` and is offered again on the next insert. */
    method Insert(row: DiffDepthStream)
      requires Valid()
      modifies this, db
      ensures Valid()
      ensures received == old(received) + [row]
      ensures |old(buffer)| + 1 < batchSize ==> buffer == old(buffer) + [row] && db.rows == old(db.rows)
      ensures |old(buffer)| + 1 >= batchSize ==>
        || (buffer == [] && db.rows == old(db.rows) + old(buffer) + [row])
        || (buffer == old(buffer) + [row] && db.rows == old(db.rows))
    {
      buffer := buffer + [row];
      received := received + [row];
      assert db.rows + buffer == (db.rows + old(buffer)) + [row];
      if |buffer| >= batchSize {
        InsertToDb();
      }
    }

    /** `insert_to_db` (model.py:101-106): send the whole buffer; on success empty it, on a
        DatabaseException keep it (the exception is printed, which is not modelled). */
    method InsertToDb()
      requires Valid()
      modifies this, db
      ensures Valid()
      ensures received == old(received)
      ensures || (buffer == [] && db.rows == old(db.rows) + old(buffer))
              || (buffer == old(buffer) && db.rows == old(db.rows))
    {
      var ok := db.Insert(buffer);
      if ok {
        buffer := [];
      }
    }

    /** `__len__` (model.py:108-109). */
    method Length() returns (n: nat)
      ensures n == |buffer|
    {
      n := |buffer|;
    }
  }
}
