/** The vector-database utilities: reading the knowledge-base folder into
    documents and ledger rows, and building, merging or overwriting the
    persisted index together with its ledger. */
module DbUtils {
  import opened Wrappers
  import opened Collections
  import opened Text
  import opened Disk

  /** The folder paths, read once from the configuration. */
  datatype DbConfig = DbConfig(knowledgeBasePath: string, dbPath: string)

  datatype LoaderKind = PdfMinerLoader | WordDocumentLoader | TextLoader | ExcelLoader

  /** The extension-to-loader table. Lookup is exact, so ".PDF" is not ".pdf". */
  const LoaderMapping: map<string, LoaderKind> :=
    map[".pdf" := PdfMinerLoader, ".docx" := WordDocumentLoader, ".txt" := TextLoader, ".xlsx" := ExcelLoader]

  /** Lookup in the table is exact: the upper-case ".PDF" is not supported. */
  lemma UpperCasePdfUnsupported()
    ensures ".PDF" !in LoaderMapping
  {
    var e := ".PDF";
    assert e != ".pdf" by { assert e[1] != ".pdf"[1]; }
    assert e != ".txt" by { assert e[1] != ".txt"[1]; }
    assert |e| != |".docx"| && |e| != |".xlsx"|;
  }

  /** The Input_Type written for every ingested file. */
  const DocumentInput := "Document"

  /** The only `input_type` that `run_db_build` knows how to ingest. */
  const DocumentsInputType := "documents"

  /** `os.path.join(dir, name)` on POSIX. */
  function JoinPath(dir: string, name: string): string
  {
    if name != [] && name[0] == '/' then name
    else if dir == [] || dir[|dir| - 1] == '/' then dir + name
    else dir + "/" + name
  }

  /** The name always ends the joined path; a relative name is put under the
      directory, with exactly one '/' between them unless the directory is
      empty; an absolute name replaces the directory. */
  lemma JoinPathParts(dir: string, name: string)
    ensures var r := JoinPath(dir, name);
      && |name| <= |r| && r[|r| - |name|..] == name
      && (name != [] && name[0] == '/' ==> r == name)
      && (name == [] || name[0] != '/' ==> |dir| <= |r| && r[..|dir|] == dir)
      && (dir != [] && (name == [] || name[0] != '/') ==> |r| > |dir| + |name| - 1 && r[|r| - |name| - 1] == '/')
  {
  }

  /** `"." + path.rsplit(".", 1)[-1]`. */
  function Ext(path: string): string
  {
    "." + path[LastIndexOf(path, '.') + 1..]
  }

  /** The extension is a dot followed by the longest dot-free tail of the
      path, which is the whole path when the path has no dot. */
  lemma ExtIsDotFreeTail(path: string)
    ensures exists n :: 0 <= n <= |path| && Ext(path) == "." + path[n..]
    ensures forall n :: 0 <= n <= |path| && Ext(path) == "." + path[n..] ==>
              '.' !in path[n..] && (n == 0 || path[n - 1] == '.')
  {
    var k := LastIndexOf(path, '.');
    assert Ext(path) == "." + path[k + 1..];
    forall n | 0 <= n <= |path| && Ext(path) == "." + path[n..]
      ensures '.' !in path[n..] && (n == 0 || path[n - 1] == '.')
    {
      assert path[n..] == path[k + 1..];
      assert n == k + 1;
    }
  }

  /** The extension of a path under a directory prefix is the extension of
      the file name when the name has a dot. */
  lemma ExtAfterDirectory(prefix: string, name: string)
    requires '.' in name
    ensures Ext(prefix + name) == Ext(name)
  {
    LastIndexOfInTail(prefix, name, '.');
    var k := LastIndexOf(name, '.');
    assert (prefix + name)[|prefix| + k + 1..] == name[k + 1..];
  }

  /** A dot-free name under a directory prefix gets an extension that runs
      back into the directory, so it contains the final '/'. */
  lemma ExtRunsIntoDirectory(prefix: string, name: string)
    requires prefix != [] && prefix[|prefix| - 1] == '/'
    requires '.' !in name
    ensures '/' in Ext(prefix + name)
  {
    LastIndexOfInHead(prefix, name, '.');
    assert (prefix + name)[|prefix| - 1] == '/';
    SlashAfterLastDot(prefix + name, |prefix| - 1);
  }

  /** A '/' after the last dot ends up inside the extension. */
  lemma SlashAfterLastDot(path: string, m: int)
    requires 0 <= m < |path| && path[m] == '/'
    requires LastIndexOf(path, '.') < m
    ensures '/' in Ext(path)
  {
    var tail := path[LastIndexOf(path, '.') + 1..];
    assert tail[m - LastIndexOf(path, '.') - 1] == '/';
    assert Ext(path) == "." + tail;
  }

  /** Only the file name decides the extension when it has a dot; a name
      without a dot gets an "extension" that contains a '/'. */
  lemma ExtOfListedFile(dir: string, name: string)
    requires dir != []
    requires name == [] || name[0] != '/'
    ensures '.' in name ==> Ext(JoinPath(dir, name)) == Ext(name)
    ensures '.' !in name ==> '/' in Ext(JoinPath(dir, name))
  {
    var prefix := if dir[|dir| - 1] == '/' then dir else dir + "/";
    assert JoinPath(dir, name) == prefix + name;
    if '.' in name {
      ExtAfterDirectory(prefix, name);
    } else {
      ExtRunsIntoDirectory(prefix, name);
    }
  }

  /** No supported extension contains a '/', so a listed name without a dot
      is always refused. */
  lemma DotlessNameRefused(dir: string, name: string)
    requires dir != []
    requires name == [] || name[0] != '/'
    requires '.' !in name
    ensures Ext(JoinPath(dir, name)) !in LoaderMapping
  {
    ExtOfListedFile(dir, name);
    SlashedExtUnsupported(Ext(JoinPath(dir, name)));
  }

  /** No supported extension contains a '/'. */
  lemma SlashedExtUnsupported(ext: string)
    requires '/' in ext
    ensures ext !in LoaderMapping
  {
    assert '/' !in ".pdf" && '/' !in ".docx" && '/' !in ".txt" && '/' !in ".xlsx";
  }

  /** The extension of a file in the knowledge-base folder. */
  function FileExt(cfg: DbConfig, name: string): string
  {
    Ext(JoinPath(cfg.knowledgeBasePath, name))
  }

  /** What happens to one listed file. */
  datatype FileStep = Loaded(docs: seq<Doc>) | Unsupported(ext: string) | LoadFailed

  /** An unknown extension raises; a known one is handed to its loader,
      which either returns documents or raises (`None`). */
  function StepFor(cfg: DbConfig, load: (LoaderKind, string) -> Option<seq<Doc>>, name: string): (r: FileStep)
    ensures r.Unsupported? <==> FileExt(cfg, name) !in LoaderMapping
    ensures r.Unsupported? ==> r.ext == FileExt(cfg, name)
    ensures !r.Unsupported? ==>
              (r.Loaded? <==> load(LoaderMapping[FileExt(cfg, name)], JoinPath(cfg.knowledgeBasePath, name)).Some?)
  {
    var path := JoinPath(cfg.knowledgeBasePath, name);
    var ext := Ext(path);
    if ext !in LoaderMapping then Unsupported(ext)
    else match load(LoaderMapping[ext], path)
      case None => LoadFailed
      case Some(docs) => Loaded(docs)
  }

  /** The per-file outcomes of a listing, in listing order. */
  function Steps(cfg: DbConfig, load: (LoaderKind, string) -> Option<seq<Doc>>, names: seq<string>): (r: seq<FileStep>)
    ensures |r| == |names|
    ensures forall i :: 0 <= i < |names| ==> r[i] == StepFor(cfg, load, names[i])
  {
    seq(|names|, i requires 0 <= i < |names| => StepFor(cfg, load, names[i]))
  }

  /** The length of the longest prefix of outcomes that all loaded. */
  function LoadedPrefix(steps: seq<FileStep>): (k: nat)
    ensures k <= |steps|
    ensures forall j :: 0 <= j < k ==> steps[j].Loaded?
    ensures k < |steps| ==> !steps[k].Loaded?
  {
    if steps == [] || !steps[0].Loaded? then 0
    else
      assert forall j :: 0 < j < |steps| ==> steps[1..][j - 1] == steps[j];
      1 + LoadedPrefix(steps[1..])
  }

  /** How many listed files are ingested before the first one that raises. */
  function Accepted(cfg: DbConfig, load: (LoaderKind, string) -> Option<seq<Doc>>, names: seq<string>): (k: nat)
    ensures k <= |names|
    ensures forall j :: 0 <= j < k ==> StepFor(cfg, load, names[j]).Loaded?
    ensures k < |names| ==> !StepFor(cfg, load, names[k]).Loaded?
  {
    LoadedPrefix(Steps(cfg, load, names))
  }

  function StepDocs(step: FileStep): seq<Doc>
  {
    if step.Loaded? then step.docs else []
  }

  /** The documents of a listing, file after file. */
  function BatchDocs(cfg: DbConfig, load: (LoaderKind, string) -> Option<seq<Doc>>, names: seq<string>): seq<Doc>
  {
    if names == [] then []
    else BatchDocs(cfg, load, names[..|names| - 1]) + StepDocs(StepFor(cfg, load, names[|names| - 1]))
  }

  /** The ledger rows of a listing: one per file, stamped with the clock
      reading taken at that file. */
  function BatchRows(cfg: DbConfig, clock: nat -> Timestamp, names: seq<string>): seq<Row>
  {
    seq(|names|, i requires 0 <= i < |names| => Row(DocumentInput, names[i], FileExt(cfg, names[i]), clock(i)))
  }

  /** Within the accepted prefix's reach, file `i` loads exactly when the
      accepted prefix extends past it. */
  lemma AcceptedPast(cfg: DbConfig, load: (LoaderKind, string) -> Option<seq<Doc>>, names: seq<string>, i: nat)
    requires i <= Accepted(cfg, load, names) && i < |names|
    ensures StepFor(cfg, load, names[i]).Loaded? <==> i < Accepted(cfg, load, names)
  {
  }

  /** One more loaded file extends the documents by its documents and the
      rows by its row. */
  lemma BatchSnoc(cfg: DbConfig, load: (LoaderKind, string) -> Option<seq<Doc>>, clock: nat -> Timestamp,
                  listing: seq<string>, i: nat)
    requires i < |listing|
    ensures BatchDocs(cfg, load, listing[..i + 1]) ==
            BatchDocs(cfg, load, listing[..i]) + StepDocs(StepFor(cfg, load, listing[i]))
    ensures BatchRows(cfg, clock, listing[..i + 1]) ==
            BatchRows(cfg, clock, listing[..i]) + [Row(DocumentInput, listing[i], FileExt(cfg, listing[i]), clock(i))]
  {
    assert listing[..i + 1][..i] == listing[..i];
  }

  datatype IngestError = UnsupportedExtension(ext: string) | LoaderError(fileName: string)

  /** The outcome of `create_documents`: `None` for a missing or empty
      folder, the documents and ledger rows, or the exception it raised. */
  datatype Ingest = NothingToIngest | Batch(docs: seq<Doc>, rows: seq<Row>) | Raised(error: IngestError)

  /** How many files `create_documents` moves to the processed folder. */
  function MovedCount(cfg: DbConfig, load: (LoaderKind, string) -> Option<seq<Doc>>,
                      inboxExists: bool, listing: seq<string>): (k: nat)
    ensures k <= |listing| && (!inboxExists ==> k == 0)
    ensures forall j :: 0 <= j < k ==> StepFor(cfg, load, listing[j]).Loaded?
    ensures inboxExists && k < |listing| ==> !StepFor(cfg, load, listing[k]).Loaded?
  {
    if !inboxExists || listing == [] then 0 else Accepted(cfg, load, listing)
  }

  /** What `create_documents` returns or raises for a folder listing. */
  function IngestOf(cfg: DbConfig, load: (LoaderKind, string) -> Option<seq<Doc>>, clock: nat -> Timestamp,
                    inboxExists: bool, listing: seq<string>): (r: Ingest)
    ensures r.NothingToIngest? <==> !inboxExists || listing == []
    ensures r.Batch? ==> forall i :: 0 <= i < |listing| ==> StepFor(cfg, load, listing[i]).Loaded?
    ensures r.Raised? ==> exists i :: 0 <= i < |listing| && !StepFor(cfg, load, listing[i]).Loaded?
  {
    if !inboxExists || listing == [] then NothingToIngest
    else
      var k := Accepted(cfg, load, listing);
      if k == |listing| then Batch(BatchDocs(cfg, load, listing), BatchRows(cfg, clock, listing))
      else
        var step := StepFor(cfg, load, listing[k]);
        if step.Unsupported? then Raised(UnsupportedExtension(step.ext)) else Raised(LoaderError(listing[k]))
  }

  /** A batch succeeds exactly when the folder exists, is not empty and every
      file in it has a supported extension whose loader does not raise. */
  lemma IngestSucceedsIff(cfg: DbConfig, load: (LoaderKind, string) -> Option<seq<Doc>>, clock: nat -> Timestamp,
                          inboxExists: bool, listing: seq<string>)
    ensures IngestOf(cfg, load, clock, inboxExists, listing).Batch? <==>
            inboxExists && listing != [] && forall i :: 0 <= i < |listing| ==> StepFor(cfg, load, listing[i]).Loaded?
  {
    if inboxExists && listing != [] {
      var k := Accepted(cfg, load, listing);
      if k < |listing| {
        assert !StepFor(cfg, load, listing[k]).Loaded?;
      }
    }
  }

  /** One listed file with an unsupported extension makes the whole batch
      raise, wherever it sits in the listing. */
  lemma UnsupportedFileRaises(cfg: DbConfig, load: (LoaderKind, string) -> Option<seq<Doc>>, clock: nat -> Timestamp,
                              inboxExists: bool, listing: seq<string>, i: int)
    requires inboxExists && 0 <= i < |listing| && FileExt(cfg, listing[i]) !in LoaderMapping
    ensures IngestOf(cfg, load, clock, inboxExists, listing).Raised?
  {
    assert StepFor(cfg, load, listing[i]).Unsupported?;
    assert Accepted(cfg, load, listing) <= i;
  }

  /** A failed batch names the first offending file: every file before it was
      loaded (and moved), and it and every later file were not. */
  lemma IngestFailsAtFirstOffender(cfg: DbConfig, load: (LoaderKind, string) -> Option<seq<Doc>>, clock: nat -> Timestamp,
                                   inboxExists: bool, listing: seq<string>)
    requires IngestOf(cfg, load, clock, inboxExists, listing).Raised?
    ensures var k := MovedCount(cfg, load, inboxExists, listing);
            && k < |listing|
            && (forall j :: 0 <= j < k ==> StepFor(cfg, load, listing[j]).Loaded?)
            && match IngestOf(cfg, load, clock, inboxExists, listing).error
               case UnsupportedExtension(ext) => ext == FileExt(cfg, listing[k]) && ext !in LoaderMapping
               case LoaderError(name) => name == listing[k] && FileExt(cfg, listing[k]) in LoaderMapping
  {
    var k := Accepted(cfg, load, listing);
    assert inboxExists && listing != [] && k < |listing|;
    IngestRaisesAt(cfg, load, clock, listing, k);
    var step := StepFor(cfg, load, listing[k]);
    assert FileExt(cfg, listing[k]) == Ext(JoinPath(cfg.knowledgeBasePath, listing[k]));
    if step.Unsupported? {
      assert step.ext == FileExt(cfg, listing[k]) && step.ext !in LoaderMapping;
    } else {
      assert FileExt(cfg, listing[k]) in LoaderMapping;
    }
  }

  /** A successful batch has exactly one row per file, in listing order,
      whose type is the supported extension of that file. */
  lemma IngestRows(cfg: DbConfig, load: (LoaderKind, string) -> Option<seq<Doc>>, clock: nat -> Timestamp,
                   inboxExists: bool, listing: seq<string>)
    requires IngestOf(cfg, load, clock, inboxExists, listing).Batch?
    ensures var rows := IngestOf(cfg, load, clock, inboxExists, listing).rows;
            && FileNames(rows) == listing
            && forall i :: 0 <= i < |rows| ==>
                 rows[i].inputType == DocumentInput && rows[i].fileType == FileExt(cfg, listing[i])
                 && rows[i].fileType in LoaderMapping && rows[i].executedTime == clock(i)
  {
    var rows := IngestOf(cfg, load, clock, inboxExists, listing).rows;
    assert forall i :: 0 <= i < |listing| ==> StepFor(cfg, load, listing[i]).Loaded?;
    assert FileNames(rows) == listing;
  }

  /** A listing whose file `i` is the first one that does not load raises
      on that file, naming its extension or the file itself. */
  lemma IngestRaisesAt(cfg: DbConfig, load: (LoaderKind, string) -> Option<seq<Doc>>, clock: nat -> Timestamp,
                       listing: seq<string>, i: nat)
    requires i == Accepted(cfg, load, listing) && i < |listing|
    ensures MovedCount(cfg, load, true, listing) == i
    ensures IngestOf(cfg, load, clock, true, listing) ==
            if StepFor(cfg, load, listing[i]).Unsupported? then Raised(UnsupportedExtension(StepFor(cfg, load, listing[i]).ext))
            else Raised(LoaderError(listing[i]))
  {
  }

  /** One pass of the ingestion loop over a file that loads: its documents
      and its row are added, then the file is moved to the processed folder;
      a file already there under the same name is replaced. */
  method IngestNext(cfg: DbConfig, ws: Workspace, load: (LoaderKind, string) -> Option<seq<Doc>>,
                    clock: nat -> Timestamp, listing: seq<string>, i: nat, documents: seq<Doc>, rows: seq<Row>)
    returns (documents': seq<Doc>, rows': seq<Row>)
    requires i < |listing| && StepFor(cfg, load, listing[i]).Loaded?
    requires ws.inbox == listing[i..]
    requires documents == BatchDocs(cfg, load, listing[..i]) && rows == BatchRows(cfg, clock, listing[..i])
    modifies ws
    ensures ws.inbox == listing[i + 1..] && ws.processed == old(ws.processed) + {listing[i]}
    ensures documents' == BatchDocs(cfg, load, listing[..i + 1]) && rows' == BatchRows(cfg, clock, listing[..i + 1])
    ensures ws.inboxExists == old(ws.inboxExists) && ws.index == old(ws.index) && ws.ledger == old(ws.ledger)
    ensures ws.uploadedList == old(ws.uploadedList) && ws.processedBlobs == old(ws.processedBlobs)
  {
    var name := listing[i];
    BatchSnoc(cfg, load, clock, listing, i);
    documents' := documents + StepFor(cfg, load, name).docs;
    rows' := rows + [Row(DocumentInput, name, FileExt(cfg, name), clock(i))];
    ws.inbox := ws.inbox[1..];
    ws.processed := ws.processed + {name};
  }

  /** `create_documents`: walk the folder listing, load each file through its
      loader, record one ledger row and move the file to the processed folder,
      one file at a time. An unsupported extension or a failing loader raises
      with the earlier files already moved. */
  method CreateDocuments(cfg: DbConfig, ws: Workspace, load: (LoaderKind, string) -> Option<seq<Doc>>,
                         clock: nat -> Timestamp) returns (r: Ingest)
    modifies ws
    ensures r == IngestOf(cfg, load, clock, old(ws.inboxExists), old(ws.inbox))
    ensures var k := MovedCount(cfg, load, old(ws.inboxExists), old(ws.inbox));
            && ws.inbox == old(ws.inbox)[k..]
            && ws.processed == old(ws.processed) + Names(old(ws.inbox)[..k])
    ensures ws.inboxExists == old(ws.inboxExists) && ws.index == old(ws.index) && ws.ledger == old(ws.ledger)
    ensures ws.uploadedList == old(ws.uploadedList) && ws.processedBlobs == old(ws.processedBlobs)
  {
    if !ws.inboxExists || ws.inbox == [] {
      assert old(ws.inbox)[..0] == [];
      return NothingToIngest;
    }
    var listing := ws.inbox;
    var documents: seq<Doc> := [];
    var rows: seq<Row> := [];
    var i := 0;
    while i < |listing| && StepFor(cfg, load, listing[i]).Loaded?
      invariant i <= |listing| && i <= Accepted(cfg, load, listing)
      invariant ws.inbox == listing[i..]
      invariant ws.processed == old(ws.processed) + Names(listing[..i])
      invariant documents == BatchDocs(cfg, load, listing[..i])
      invariant rows == BatchRows(cfg, clock, listing[..i])
      invariant ws.inboxExists && ws.index == old(ws.index) && ws.ledger == old(ws.ledger)
      invariant ws.uploadedList == old(ws.uploadedList) && ws.processedBlobs == old(ws.processedBlobs)
    {
      AcceptedPast(cfg, load, listing, i);
      documents, rows := IngestNext(cfg, ws, load, clock, listing, i, documents, rows);
      NamesPrefixSnoc(listing, i);
      i := i + 1;
    }
    if i < |listing| {
      AcceptedPast(cfg, load, listing, i);
      IngestRaisesAt(cfg, load, clock, listing, i);
      var step := StepFor(cfg, load, listing[i]);
      if step.Unsupported? {
        return Raised(UnsupportedExtension(step.ext));
      }
      return Raised(LoaderError(listing[i]));
    }
    assert listing[..|listing|] == listing;
    return Batch(documents, rows);
  }

  /** `process_documents`: nothing to split yields `None`, otherwise the
      splitter's chunks. */
  function ProcessDocuments(documents: seq<Doc>, split: seq<Doc> -> seq<Doc>): (r: Option<seq<Doc>>)
    ensures r.None? <==> documents == []
  {
    if documents == [] then None else Some(split(documents))
  }

  /** The file a saved index is stored in. */
  const IndexFileName := "index.faiss"

  /** `load_local_db` over the index directory: `None` when the directory is
      missing or holds no index file, else the index stored there. */
  function LoadLocalDb(dirExists: bool, entries: map<string, seq<Doc>>): (r: Option<seq<Doc>>)
    ensures r.Some? <==> dirExists && IndexFileName in entries
    ensures r.Some? ==> r.value == entries[IndexFileName]
  {
    if dirExists && IndexFileName in entries then Some(entries[IndexFileName]) else None
  }

  /** The index content after a successful build: merged into the existing
      index when merging was asked for and an index exists, else the new one. */
  function IndexAfterBuild(mergeWithExisting: bool, existing: Option<seq<Doc>>, built: seq<Doc>): (r: seq<Doc>)
    ensures |built| <= |r| && r[|r| - |built|..] == built
    ensures mergeWithExisting && existing.Some? ==>
              |r| == |existing.value| + |built| && r[..|existing.value|] == existing.value
    ensures !mergeWithExisting || existing.None? ==> |r| == |built|
  {
    if mergeWithExisting && existing.Some? then existing.value + built else built
  }

  /** The ledger after a successful build: the old rows (none when the file is
      missing) followed by the new ones when merging into an existing index,
      else just the new rows. */
  function LedgerAfterBuild(mergeWithExisting: bool, indexPresent: bool, existing: Option<seq<Row>>,
                            rows: seq<Row>): (r: seq<Row>)
    ensures |rows| <= |r| && r[|r| - |rows|..] == rows
    ensures mergeWithExisting && indexPresent && existing.Some? ==>
              |r| == |existing.value| + |rows| && r[..|existing.value|] == existing.value
    ensures !(mergeWithExisting && indexPresent && existing.Some?) ==> |r| == |rows|
  {
    if mergeWithExisting && indexPresent then (if existing.Some? then existing.value else []) + rows
    else rows
  }

  /** After a successful build the ledger's File_Name column lists the older
      names (only when merging into an existing index) and then exactly the
      files of this batch, in folder order. */
  lemma BuildLedgerNames(cfg: DbConfig, clock: nat -> Timestamp, mergeWithExisting: bool, indexPresent: bool,
                         existing: Option<seq<Row>>, listing: seq<string>)
    ensures FileNames(LedgerAfterBuild(mergeWithExisting, indexPresent, existing, BatchRows(cfg, clock, listing)))
         == (if mergeWithExisting && indexPresent && existing.Some? then FileNames(existing.value) else [])
            + listing
  {
    var rows := BatchRows(cfg, clock, listing);
    assert FileNames(rows) == listing;
    if mergeWithExisting && indexPresent {
      var before := if existing.Some? then existing.value else [];
      FileNamesConcat(before, rows);
    }
  }

  /** Every row of a successful batch names a file that the batch moved. */
  lemma BatchRowsMoved(cfg: DbConfig, load: (LoaderKind, string) -> Option<seq<Doc>>, clock: nat -> Timestamp,
                       inboxExists: bool, listing: seq<string>)
    requires IngestOf(cfg, load, clock, inboxExists, listing).Batch?
    ensures var rows := IngestOf(cfg, load, clock, inboxExists, listing).rows;
            var k := MovedCount(cfg, load, inboxExists, listing);
            forall i :: 0 <= i < |rows| ==> rows[i].fileName in Names(listing[..k])
  {
    IngestRows(cfg, load, clock, inboxExists, listing);
    assert listing[..|listing|] == listing;
  }

  /** Whichever branch a build takes, a ledger whose rows all name files in
      the processed folder keeps that property when the new rows also do. */
  lemma LedgerAfterBuildBacked(mergeWithExisting: bool, indexPresent: bool, existing: Option<seq<Row>>,
                               rows: seq<Row>, before: set<string>, after: set<string>)
    requires before <= after
    requires existing.Some? ==> forall i :: 0 <= i < |existing.value| ==> existing.value[i].fileName in before
    requires forall i :: 0 <= i < |rows| ==> rows[i].fileName in after
    ensures var ledger := LedgerAfterBuild(mergeWithExisting, indexPresent, existing, rows);
            forall i :: 0 <= i < |ledger| ==> ledger[i].fileName in after
  {
    var ledger := LedgerAfterBuild(mergeWithExisting, indexPresent, existing, rows);
    if mergeWithExisting && indexPresent {
      var older := if existing.Some? then existing.value else [];
      forall i | 0 <= i < |ledger| ensures ledger[i].fileName in after {
        if i < |older| {
          assert ledger[i] == older[i];
        } else {
          assert ledger[i] == rows[i - |older|];
        }
      }
    }
  }

  /** The index directory as `save_local` leaves it: the index file when an
      index has been saved, nothing otherwise. */
  function IndexDirEntries(index: Option<seq<Doc>>): map<string, seq<Doc>>
  {
    if index.Some? then map[IndexFileName := index.value] else map[]
  }

  /** Loading the directory that `run_db_build` has just created gives back
      the saved index, or `None` when none was saved. */
  lemma LoadSavedIndex(index: Option<seq<Doc>>)
    ensures LoadLocalDb(true, IndexDirEntries(index)) == index
  {
  }

  /** The chunks a build reaches `save_local` with: the split documents of a
      successful "documents" batch. Without documents, with no chunks or
      when embedding fails, `FAISS.from_documents` raises before anything is
      saved. */
  function SavedChunks(inputType: string, ingest: Ingest, split: seq<Doc> -> seq<Doc>, embedOk: bool): (r: Option<seq<Doc>>)
    ensures r.Some? ==> inputType == DocumentsInputType && embedOk && r.value != []
    ensures r.Some? ==> ingest.Batch? && ingest.docs != [] && r.value == split(ingest.docs)
    ensures inputType != DocumentsInputType || !ingest.Batch? || !embedOk ==> r.None?
  {
    if inputType == DocumentsInputType && ingest.Batch? && ingest.docs != [] && split(ingest.docs) != [] && embedOk
    then Some(split(ingest.docs))
    else None
  }

  /** A file whose extension has no loader. */
  predicate Unloadable(cfg: DbConfig, name: string)
  {
    FileExt(cfg, name) !in LoaderMapping
  }

  /** A listed file without a loader makes every batch over that listing
      fail, and the file is not among those moved, so it stays in the
      folder. */
  lemma UnloadableFileStays(cfg: DbConfig, load: (LoaderKind, string) -> Option<seq<Doc>>, clock: nat -> Timestamp,
                            inboxExists: bool, listing: seq<string>, i: int)
    requires 0 <= i < |listing| && Unloadable(cfg, listing[i])
    ensures !IngestOf(cfg, load, clock, inboxExists, listing).Batch?
    ensures listing[i] in listing[MovedCount(cfg, load, inboxExists, listing)..]
  {
    assert StepFor(cfg, load, listing[i]).Unsupported?;
    var k := MovedCount(cfg, load, inboxExists, listing);
    assert k <= i;
    assert listing[k..][i - k] == listing[i];
  }

  /** Moving the first `k` files of a listing loses no file: the folder and
      the processed set together hold the same names. */
  lemma MoveKeepsFiles(listing: seq<string>, k: nat, processed: set<string>)
    requires k <= |listing|
    ensures Names(listing[k..]) + (processed + Names(listing[..k])) == Names(listing) + processed
  {
    assert listing == listing[..k] + listing[k..];
    NamesConcat(listing[..k], listing[k..]);
  }

  /** Over a listing that holds a file without a loader, the batch fails
      and every such file stays in the folder. */
  lemma UnloadableListing(cfg: DbConfig, load: (LoaderKind, string) -> Option<seq<Doc>>, clock: nat -> Timestamp,
                          inboxExists: bool, listing: seq<string>)
    ensures forall name :: name in listing && Unloadable(cfg, name) ==>
              name in listing[MovedCount(cfg, load, inboxExists, listing)..]
    ensures (exists name :: name in listing && Unloadable(cfg, name)) ==>
              !IngestOf(cfg, load, clock, inboxExists, listing).Batch?
  {
    forall name | name in listing && Unloadable(cfg, name)
      ensures !IngestOf(cfg, load, clock, inboxExists, listing).Batch?
      ensures name in listing[MovedCount(cfg, load, inboxExists, listing)..]
    {
      var i :| 0 <= i < |listing| && listing[i] == name;
      UnloadableFileStays(cfg, load, clock, inboxExists, listing, i);
    }
  }

  /** The saving half of `run_db_build`: save the index, merged into the
      existing one when merging was asked for and one is stored, then read
      and write the ledger, which may raise and leave it as it was. */
  method SaveBuild(ws: Workspace, built: seq<Doc>, rows: seq<Row>, ledgerOk: bool, mergeWithExisting: bool)
    modifies ws
    ensures ws.index == Some(IndexAfterBuild(mergeWithExisting, old(ws.index), built))
    ensures ws.ledger == if ledgerOk then Some(LedgerAfterBuild(mergeWithExisting, old(ws.index).Some?, old(ws.ledger), rows))
                         else old(ws.ledger)
    ensures ws.inboxExists == old(ws.inboxExists) && ws.inbox == old(ws.inbox) && ws.processed == old(ws.processed)
    ensures ws.uploadedList == old(ws.uploadedList) && ws.processedBlobs == old(ws.processedBlobs)
  {
    var existing: Option<seq<Doc>> := None;
    if mergeWithExisting {
      // The directory exists: it was created when the build started.
      existing := LoadLocalDb(true, IndexDirEntries(ws.index));
      LoadSavedIndex(ws.index);
    }
    if existing.Some? {
      ws.index := Some(existing.value + built);
      if !ledgerOk {
        // read_csv or to_csv raised after save_local.
        return;
      }
      var oldRows := if ws.ledger.Some? then ws.ledger.value else [];
      ws.ledger := Some(oldRows + rows);
    } else {
      ws.index := Some(built);
      if !ledgerOk {
        // to_csv raised after save_local.
        return;
      }
      ws.ledger := Some(rows);
    }
  }

  /** `run_db_build`: ingest the folder, split, embed and then save the index
      and the ledger along one of three branches. The index is saved before
      the ledger is read or written, so a ledger failure still leaves the new
      index saved. Any exception on the way (including an input type other
      than "documents" and an empty folder) ends in `(None, 0.00)`; files
      moved before the failure stay moved. */
  method RunDbBuild(cfg: DbConfig, ws: Workspace, inputType: string,
                    load: (LoaderKind, string) -> Option<seq<Doc>>, clock: nat -> Timestamp,
                    split: seq<Doc> -> seq<Doc>, embedOk: bool, ledgerOk: bool, mergeWithExisting: bool,
                    startTime: real, endTime: real)
    returns (db: Option<seq<Doc>>, elapsed: real)
    modifies ws
    ensures var ingest := IngestOf(cfg, load, clock, old(ws.inboxExists), old(ws.inbox));
            var saved := SavedChunks(inputType, ingest, split, embedOk);
            && (db.Some? <==> saved.Some? && ledgerOk)
            && ws.index == (if saved.Some? then Some(IndexAfterBuild(mergeWithExisting, old(ws.index), saved.value))
                            else old(ws.index))
            && ws.ledger == (if db.Some? then Some(LedgerAfterBuild(mergeWithExisting, old(ws.index).Some?, old(ws.ledger), ingest.rows))
                             else old(ws.ledger))
    ensures db.Some? ==> db == ws.index && elapsed == endTime - startTime
    ensures db.None? ==> elapsed == 0.0
    ensures inputType != DocumentsInputType ==> ws.inbox == old(ws.inbox) && ws.processed == old(ws.processed)
    ensures inputType == DocumentsInputType ==>
            var k := MovedCount(cfg, load, old(ws.inboxExists), old(ws.inbox));
            && ws.inbox == old(ws.inbox)[k..]
            && ws.processed == old(ws.processed) + Names(old(ws.inbox)[..k])
    ensures Names(ws.inbox) + ws.processed == Names(old(ws.inbox)) + old(ws.processed)
    ensures forall name :: name in old(ws.inbox) && Unloadable(cfg, name) ==> name in ws.inbox
    ensures (exists name :: name in old(ws.inbox) && Unloadable(cfg, name)) ==>
            db.None? && ws.index == old(ws.index) && ws.ledger == old(ws.ledger)
    ensures ws.inboxExists == old(ws.inboxExists)
    ensures ws.uploadedList == old(ws.uploadedList) && ws.processedBlobs == old(ws.processedBlobs)
    ensures old(ws.LedgerBacked()) ==> ws.LedgerBacked()
  {
    UnloadableListing(cfg, load, clock, ws.inboxExists, ws.inbox);
    MoveKeepsFiles(ws.inbox, MovedCount(cfg, load, ws.inboxExists, ws.inbox), ws.processed);
    if inputType != DocumentsInputType {
      // `documents` is never bound, so the next line raises.
      return None, 0.0;
    }
    var ingest := CreateDocuments(cfg, ws, load, clock);
    if !ingest.Batch? {
      return None, 0.0;
    }
    var chunks := ProcessDocuments(ingest.docs, split);
    if chunks.None? || chunks.value == [] || !embedOk {
      // FAISS.from_documents cannot build from None or from no chunks, and
      // embedding failures raise.
      return None, 0.0;
    }
    var built := chunks.value;
    BatchRowsMoved(cfg, load, clock, old(ws.inboxExists), old(ws.inbox));
    if old(ws.LedgerBacked()) {
      LedgerAfterBuildBacked(mergeWithExisting, ws.index.Some?, ws.ledger, ingest.rows, old(ws.processed), ws.processed);
    }
    SaveBuild(ws, built, ingest.rows, ledgerOk, mergeWithExisting);
    if !ledgerOk {
      return None, 0.0;
    }
    return ws.index, endTime - startTime;
  }
}
