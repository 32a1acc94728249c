/** Server-side cursors: rows arrive in non-empty fetch batches whose sizes are not under control. */
module Cursor {
  import opened Base

  /** `fetchmany` hands out the next batch, and an empty list when nothing is left. */
  class ServerCursor<T> {
    var batches: seq<seq<T>>

    constructor (batches: seq<seq<T>>)
      ensures this.batches == batches
    {
      this.batches := batches;
    }

    method FetchMany(size: nat) returns (rows: seq<T>)
      modifies this
      ensures rows == (if old(batches) == [] then [] else old(batches)[0])
      ensures batches == Drop(old(batches), 1)
    {
      if |batches| == 0 { return []; }
      rows := batches[0];
      batches := batches[1..];
    }
  }

  /** A faithful cursor never hands out an empty batch before the end. */
  ghost predicate NonEmptyBatches<T>(batches: seq<seq<T>>) {
    forall i :: 0 <= i < |batches| ==> batches[i] != []
  }

  /** The row-by-row view of a cursor: `while rows := cursor.fetchmany(n): yield from rows`. */
  class RowStream<T> {
    const cursor: ServerCursor<T>
    const fetchSize: nat
    var buffer: seq<T>

    ghost predicate Valid()
      reads this, cursor
    {
      NonEmptyBatches(cursor.batches)
    }

    /** The rows still to come; how they are cut into batches does not show. */
    ghost function Remaining(): seq<T>
      reads this, cursor
    {
      buffer + Flatten(cursor.batches)
    }

    constructor (batches: seq<seq<T>>, fetchSize: nat)
      requires NonEmptyBatches(batches)
      ensures Valid() && Remaining() == Flatten(batches)
      ensures fresh(cursor)
    {
      cursor := new ServerCursor(batches);
      this.fetchSize := fetchSize;
      buffer := [];
    }

    method Next() returns (row: Option<T>)
      requires Valid()
      modifies this, cursor
      ensures Valid()
      ensures row == (if old(Remaining()) == [] then None else Some(old(Remaining())[0]))
      ensures Remaining() == Drop(old(Remaining()), 1)
    {
      if buffer == [] {
        ghost var before := cursor.batches;
        assert Remaining() == Flatten(before);
        buffer := cursor.FetchMany(fetchSize);
        assert cursor.batches == if before == [] then [] else before[1..];
        assert Remaining() == Flatten(before);
        if buffer == [] { return None; }
      }
      row := Some(buffer[0]);
      buffer := buffer[1..];
    }
  }
}
