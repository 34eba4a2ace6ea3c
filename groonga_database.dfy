/** `EventManage::GroongaDatabase`: a handle that is either closed or holds one open
    database, and `open` with a block, which closes the database again when the block is
    done, whether it returned or raised. The database files are a set of names under the
    database directory; opening a name that is not there creates it. */
module GroongaDatabase {
  import opened Wrappers

  /** What the block given to `open` does with the table it is handed. */
  datatype BlockOutcome<T> = Returns(value: T) | Raises

  /** What `open` gives back: `false` when a database is open already, `nil` without a
      block, and otherwise what the block returned, or the exception it raised. */
  datatype OpenResult<T> = AlreadyOpen | NoBlock | BlockValue(value: T) | BlockRaised

  class GroongaDatabase {
    /** `@database`: the name of the open database, `nil` when closed. */
    var database: Option<string>
    /** The database files under the database directory. */
    var files: set<string>
    /** How many times a block given to `open` has run. */
    ghost var blockRuns: nat

    /** `opened?`: `!!@database`. */
    predicate Opened()
      reads this
    {
      database.Some?
    }

    /** `GroongaDatabase.new`: nothing is open yet. */
    constructor (existing: set<string>)
      ensures !Opened() && files == existing && blockRuns == 0
    {
      database := None;
      files := existing;
      blockRuns := 0;
    }

    /** `open(file_name)`, with the block as `block`. */
    method Open<T>(fileName: string, block: Option<BlockOutcome<T>>) returns (r: OpenResult<T>)
      modifies this
      ensures old(Opened()) ==>
        r == AlreadyOpen && database == old(database) && files == old(files) && blockRuns == old(blockRuns)
      ensures !old(Opened()) ==> files == old(files) + {fileName}
      ensures !old(Opened()) && block.None? ==> r == NoBlock && database == Some(fileName) && blockRuns == old(blockRuns)
      ensures !old(Opened()) && block.Some? ==> !Opened() && blockRuns == old(blockRuns) + 1
      ensures !old(Opened()) && block == Some(Raises) ==> r == BlockRaised
      ensures !old(Opened()) && block.Some? && block.value.Returns? ==> r == BlockValue(block.value.value)
    {
      if Opened() {
        return AlreadyOpen;
      }
      if fileName !in files {
        // `Groonga::Database.create` and `define_schema`
        files := files + {fileName};
      }
      database := Some(fileName);
      r := NoBlock;
      if block.Some? {
        blockRuns := blockRuns + 1;
        // `ensure close`: run on both outcomes of the block
        Close();
        r := match block.value
          case Returns(v) => BlockValue(v)
          case Raises => BlockRaised;
      }
    }

    /** `close`: the database is closed if it was open, and the handle is cleared either
        way, so closing twice is harmless. */
    method Close()
      modifies this
      ensures !Opened() && files == old(files) && blockRuns == old(blockRuns)
    {
      database := None;
    }
  }

  /** The life cycle the database tests walk through: a new handle is closed; `open` opens
      it; a second `open` answers `false` and keeps it open; `close` closes it; and `open`
      with a block runs the block once and leaves it closed. */
  method LifeCycle() returns (db: GroongaDatabase)
    ensures !db.Opened() && db.files == {"test.db"} && db.blockRuns == 1
  {
    db := new GroongaDatabase({});
    assert !db.Opened();
    var first: OpenResult<bool> := db.Open("test.db", None);
    assert db.Opened() && first == NoBlock;
    var second: OpenResult<bool> := db.Open("test.db", None);
    assert second == AlreadyOpen && db.Opened();
    db.Close();
    assert !db.Opened();
    var third := db.Open("test.db", Some(Returns(true)));
    assert third == BlockValue(true) && !db.Opened();
  }
}
