/** What the application keeps on disk between button presses: the
    knowledge-base folder, the processed-documents folder, the vector index
    directory, the ledger file and two plain-text name lists. */
module Disk {
  import opened Wrappers

  /** A loaded document or chunk: its text tagged with the path it came from. */
  datatype Doc = Doc(source: string, text: string)

  /** A reading of the wall clock, as stored in the Executed_Time column. */
  type Timestamp = int

  /** One ledger row, with the columns Input_Type, File_Name, File_Type and Executed_Time. */
  datatype Row = Row(inputType: string, fileName: string, fileType: string, executedTime: Timestamp)

  /** The File_Name column of a list of rows. */
  function FileNames(rows: seq<Row>): (r: seq<string>)
    ensures |r| == |rows|
    ensures forall i :: 0 <= i < |rows| ==> r[i] == rows[i].fileName
  {
    seq(|rows|, i requires 0 <= i < |rows| => rows[i].fileName)
  }

  lemma FileNamesConcat(a: seq<Row>, b: seq<Row>)
    ensures FileNames(a + b) == FileNames(a) + FileNames(b)
  {
  }

  class Workspace {
    /** Whether the knowledge-base folder exists, and its listing in the
        order `os.listdir` returns it. A missing folder is taken to list
        nothing (`!inboxExists ==> inbox == []`); the operations rely on
        that reading but do not check it. */
    var inboxExists: bool
    var inbox: seq<string>
    /** The names in the processed-documents folder. */
    var processed: set<string>
    /** The index directory: `Some(chunks)` when it holds a saved index,
        with the chunks that index was built from. */
    var index: Option<seq<Doc>>
    /** db_details.csv, or `None` when the file does not exist. */
    var ledger: Option<seq<Row>>
    /** uploaded_files.txt, one name per line, or `None` when missing. */
    var uploadedList: Option<seq<string>>
    /** processed_files.txt, the names of blobs already downloaded, or `None`. */
    var processedBlobs: Option<seq<string>>

    /** Every file the ledger names sits in the processed-documents folder. */
    ghost predicate LedgerBacked()
      reads this
    {
      ledger.Some? ==> forall i :: 0 <= i < |ledger.value| ==> ledger.value[i].fileName in processed
    }
  }
}
