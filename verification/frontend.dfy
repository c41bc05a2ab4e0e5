/** The bookkeeping behind the Streamlit page: removing uploaded
    transcripts from the ledger and the processed-documents folder,
    recording uploaded names, picking new blobs to download, reading a
    transcript's text and laying out the minutes document. */
module Frontend {
  import opened Wrappers
  import opened Collections
  import opened Text
  import opened Disk
  import opened DbUtils

  // ---------------------------------------------------------------------
  // Deleting uploaded transcripts

  /** The rows whose File_Name is not one of `removed`, in ledger order. */
  function KeepRows(rows: seq<Row>, removed: seq<string>): (r: seq<Row>)
    ensures |r| <= |rows|
    ensures forall i :: 0 <= i < |r| ==> r[i] in rows && r[i].fileName !in removed
  {
    var kept := Filter((row: Row) => row.fileName !in removed, rows);
    assert forall i :: 0 <= i < |kept| ==> kept[i] in kept;
    kept
  }

  /** A row survives exactly when it was in the ledger and its file is not
      one of the removed names. */
  lemma KeepRowsExactly(rows: seq<Row>, removed: seq<string>)
    ensures forall row :: row in KeepRows(rows, removed) <==> row in rows && row.fileName !in removed
    ensures forall name | name in FileNames(KeepRows(rows, removed)) :: name !in removed
  {
    var kept := KeepRows(rows, removed);
    forall name | name in FileNames(kept) ensures name !in removed {
      var i :| 0 <= i < |kept| && FileNames(kept)[i] == name;
      assert kept[i] in kept;
    }
  }

  /** Survivors keep their order: filtering a ledger split in two keeps the
      first part's survivors ahead of the second part's. */
  lemma KeepRowsConcat(a: seq<Row>, b: seq<Row>, removed: seq<string>)
    ensures KeepRows(a + b, removed) == KeepRows(a, removed) + KeepRows(b, removed)
  {
    FilterConcat((row: Row) => row.fileName !in removed, a, b);
  }

  /** An empty removal list keeps every row, so deleting again right after a
      delete, which left the upload list empty, changes nothing. */
  lemma {:induction false} KeepRowsNothingRemoved(rows: seq<Row>)
    ensures KeepRows(rows, []) == rows
  {
    if rows != [] {
      KeepRowsNothingRemoved(rows[1..]);
      assert rows == [rows[0]] + rows[1..];
    }
  }

  /** `delete_rows_from_csv`. A missing ledger returns at once; a missing
      upload list raises FileNotFoundError, which is caught. Otherwise the
      ledger is rewritten with the surviving rows under the fixed header,
      always (the `filter` object tested at line 242 is never false), and
      the upload list is emptied. */
  method DeleteRowsFromCsv(ws: Workspace)
    modifies ws
    ensures old(ws.ledger).None? || old(ws.uploadedList).None? ==>
              ws.ledger == old(ws.ledger) && ws.uploadedList == old(ws.uploadedList)
    ensures old(ws.ledger).Some? && old(ws.uploadedList).Some? ==>
              && ws.ledger == Some(KeepRows(old(ws.ledger).value, StripAll(old(ws.uploadedList).value)))
              && ws.uploadedList == Some([])
    ensures ws.inboxExists == old(ws.inboxExists) && ws.inbox == old(ws.inbox)
    ensures ws.processed == old(ws.processed) && ws.index == old(ws.index)
    ensures ws.processedBlobs == old(ws.processedBlobs)
  {
    if ws.ledger.None? {
      return;
    }
    if ws.uploadedList.None? {
      return;
    }
    var uploaded := StripAll(ws.uploadedList.value);
    var updatedRows := KeepRows(ws.ledger.value, uploaded);
    ws.ledger := Some(updatedRows);
    ws.uploadedList := Some([]);
  }

  /** `os.path.join(folder, name)` names the folder itself (or its parent)
      for these names, and `os.remove` on a directory raises. */
  predicate NamesDirectory(name: string)
    ensures NamesDirectory(name) <==> |name| <= 2 && forall i :: 0 <= i < |name| ==> name[i] == '.'
  {
    name == "" || name == "." || name == ".."
  }

  /** How many names `delete_files_in_folder` gets through before a name that
      denotes a directory stops it. */
  function DeletableCount(names: seq<string>): (k: nat)
    ensures k <= |names|
    ensures forall j :: 0 <= j < k ==> !NamesDirectory(names[j])
    ensures k < |names| ==> NamesDirectory(names[k])
  {
    if names == [] || NamesDirectory(names[0]) then 0 else 1 + DeletableCount(names[1..])
  }

  /** The count is the first index that denotes a directory, or the length. */
  lemma {:induction false} DeletableCountIs(names: seq<string>, k: nat)
    requires k <= |names|
    requires forall j :: 0 <= j < k ==> !NamesDirectory(names[j])
    requires k < |names| ==> NamesDirectory(names[k])
    ensures DeletableCount(names) == k
  {
    if k > 0 {
      DeletableCountIs(names[1..], k - 1);
    }
  }

  /** The names `delete_files_in_folder` removes from a folder. */
  function DeletedNames(uploadedList: seq<string>): seq<string>
  {
    var names := StripAll(uploadedList);
    names[..DeletableCount(names)]
  }

  /** The loop of `delete_files_in_folder`: remove each name that is present,
      in order, until a name that denotes a directory makes `os.remove`
      raise, which ends the function. */
  method RemoveListedFiles(ws: Workspace, names: seq<string>)
    modifies ws
    ensures ws.processed == old(ws.processed) - Names(names[..DeletableCount(names)])
    ensures ws.inboxExists == old(ws.inboxExists) && ws.inbox == old(ws.inbox)
    ensures ws.index == old(ws.index) && ws.ledger == old(ws.ledger)
    ensures ws.uploadedList == old(ws.uploadedList) && ws.processedBlobs == old(ws.processedBlobs)
  {
    var i := 0;
    while i < |names|
      invariant 0 <= i <= |names|
      invariant forall j :: 0 <= j < i ==> !NamesDirectory(names[j])
      invariant ws.processed == old(ws.processed) - Names(names[..i])
      invariant ws.inboxExists == old(ws.inboxExists) && ws.inbox == old(ws.inbox)
      invariant ws.index == old(ws.index) && ws.ledger == old(ws.ledger)
      invariant ws.uploadedList == old(ws.uploadedList) && ws.processedBlobs == old(ws.processedBlobs)
    {
      var name := names[i];
      if NamesDirectory(name) {
        DeletableCountIs(names, i);
        return;
      }
      if name in ws.processed {
        ws.processed := ws.processed - {name};
      }
      assert Names(names[..i + 1]) == Names(names[..i]) + {name} by {
        assert names[..i + 1] == names[..i] + [name];
      }
      i := i + 1;
    }
    DeletableCountIs(names, i);
  }

  /** `delete_files_in_folder` on the processed-documents folder: the
      stripped names of the upload list are removed as above; a missing
      upload list raises FileNotFoundError, which is caught. */
  method DeleteFilesInFolder(ws: Workspace)
    modifies ws
    ensures old(ws.uploadedList).None? ==> ws.processed == old(ws.processed)
    ensures old(ws.uploadedList).Some? ==>
              ws.processed == old(ws.processed) - Names(DeletedNames(old(ws.uploadedList).value))
    ensures ws.inboxExists == old(ws.inboxExists) && ws.inbox == old(ws.inbox)
    ensures ws.index == old(ws.index) && ws.ledger == old(ws.ledger)
    ensures ws.uploadedList == old(ws.uploadedList) && ws.processedBlobs == old(ws.processedBlobs)
  {
    if ws.uploadedList.None? {
      return;
    }
    RemoveListedFiles(ws, StripAll(ws.uploadedList.value));
  }

  /** The Delete button (lines 406-413 of the page): delete the listed files
      when the upload list exists, then drop their ledger rows when the
      ledger also exists. The processed-documents folder is taken to exist;
      when it does not, it holds no name and deleting from it is a no-op. */
  method DropUploadedTranscripts(ws: Workspace)
    modifies ws
    ensures old(ws.uploadedList).None? ==>
              ws.processed == old(ws.processed) && ws.ledger == old(ws.ledger) && ws.uploadedList.None?
    ensures old(ws.uploadedList).Some? ==>
              ws.processed == old(ws.processed) - Names(DeletedNames(old(ws.uploadedList).value))
    ensures old(ws.ledger).Some? && old(ws.uploadedList).Some? ==>
              && ws.ledger == Some(KeepRows(old(ws.ledger).value, StripAll(old(ws.uploadedList).value)))
              && ws.uploadedList == Some([])
    ensures old(ws.ledger).None? ==> ws.ledger.None? && ws.uploadedList == old(ws.uploadedList)
    ensures ws.inboxExists == old(ws.inboxExists) && ws.inbox == old(ws.inbox)
    ensures ws.index == old(ws.index) && ws.processedBlobs == old(ws.processedBlobs)
    ensures old(ws.LedgerBacked()) ==> ws.LedgerBacked()
  {
    if ws.uploadedList.Some? {
      DeleteFilesInFolder(ws);
    }
    if ws.ledger.Some? && ws.uploadedList.Some? {
      DeleteRowsFromCsv(ws);
    }
    if old(ws.LedgerBacked()) && old(ws.ledger).Some? && old(ws.uploadedList).Some? {
      DropKeepsLedgerBacked(old(ws.ledger).value, old(ws.uploadedList).value, old(ws.processed));
    }
  }

  /** Every surviving row names a file outside the deleted names, so a
      ledger backed by the processed folder stays backed after a delete. */
  lemma DropKeepsLedgerBacked(rows: seq<Row>, uploadedList: seq<string>, processed: set<string>)
    requires forall i :: 0 <= i < |rows| ==> rows[i].fileName in processed
    ensures var kept := KeepRows(rows, StripAll(uploadedList));
      forall i :: 0 <= i < |kept| ==> kept[i].fileName in processed - Names(DeletedNames(uploadedList))
  {
    var names := StripAll(uploadedList);
    var kept := KeepRows(rows, names);
    KeepRowsExactly(rows, names);
    forall i | 0 <= i < |kept| ensures kept[i].fileName in processed - Names(DeletedNames(uploadedList)) {
      assert kept[i] in kept;
    }
  }

  // ---------------------------------------------------------------------
  // Recording uploaded names

  /** The uploaded names to append, in upload order: those not recorded
      already and not appended earlier in the same pass. */
  function NewNames(existing: set<string>, uploaded: seq<string>): (r: seq<string>)
    ensures forall x :: x in r <==> x in uploaded && x !in existing
    ensures Distinct(r)
  {
    if uploaded == [] then []
    else
      var prev := NewNames(existing, uploaded[..|uploaded| - 1]);
      var x := uploaded[|uploaded| - 1];
      assert uploaded == uploaded[..|uploaded| - 1] + [x];
      if x in existing || x in prev then prev else prev + [x]
  }

  /** One more uploaded name is appended exactly when it is neither
      recorded nor appended already. */
  lemma NewNamesSnoc(existing: set<string>, uploaded: seq<string>, x: string)
    ensures NewNames(existing, uploaded + [x]) ==
              if x in existing || x in NewNames(existing, uploaded) then NewNames(existing, uploaded)
              else NewNames(existing, uploaded) + [x]
  {
    assert (uploaded + [x])[..|uploaded|] == uploaded;
  }

  /** The same step on a prefix of the uploads. */
  lemma NewNamesPrefixSnoc(existing: set<string>, uploaded: seq<string>, i: int)
    requires 0 <= i < |uploaded|
    ensures NewNames(existing, uploaded[..i + 1]) ==
              if uploaded[i] in existing || uploaded[i] in NewNames(existing, uploaded[..i]) then NewNames(existing, uploaded[..i])
              else NewNames(existing, uploaded[..i]) + [uploaded[i]]
  {
    assert uploaded[..i + 1] == uploaded[..i] + [uploaded[i]];
    NewNamesSnoc(existing, uploaded[..i], uploaded[i]);
  }

  /** Appending names in two batches is one batch against the names seen
      so far: the first batch's new names come first, in order, then the
      second's, excluding every name of the first batch. */
  lemma {:induction false} NewNamesConcat(existing: set<string>, a: seq<string>, b: seq<string>)
    ensures NewNames(existing, a + b) == NewNames(existing, a) + NewNames(existing + Names(a), b)
    decreases |b|
  {
    if b == [] {
      assert a + b == a;
    } else {
      var b' := b[..|b| - 1];
      var x := b[|b| - 1];
      assert (a + b)[..|a + b| - 1] == a + b';
      assert (a + b)[|a + b| - 1] == x;
      NewNamesConcat(existing, a, b');
    }
  }

  /** The lines of a name-list file, none when the file is missing. */
  function LinesOf(file: Option<seq<string>>): seq<string>
  {
    if file.Some? then file.value else []
  }

  /** uploaded_files.txt after recording a batch of uploads (lines 358-373
      of the page): nothing happens for an empty batch; otherwise the file
      is created if missing and the new names are appended after its
      existing lines, which are compared after stripping. */
  function RecordedNames(file: Option<seq<string>>, uploaded: seq<string>): (r: Option<seq<string>>)
    ensures uploaded != [] ==> r.Some? && |LinesOf(file)| <= |r.value| && r.value[..|LinesOf(file)|] == LinesOf(file)
    ensures r.Some? ==> forall x | x in r.value :: x in LinesOf(file) || x in uploaded
  {
    if |uploaded| == 0 then file
    else
      var lines := LinesOf(file);
      Some(lines + NewNames(Names(StripAll(lines)), uploaded))
  }

  /** The stripped lines of a list file as a set, read line by line. */
  method ReadRecordedNames(lines: seq<string>) returns (existing: set<string>)
    ensures existing == Names(StripAll(lines))
  {
    existing := {};
    for i := 0 to |lines|
      invariant existing == Names(StripAll(lines[..i]))
    {
      StripAllSnoc(lines, i);
      NamesSnoc(StripAll(lines[..i]), Strip(lines[i]));
      existing := existing + {Strip(lines[i])};
    }
    assert lines[..|lines|] == lines;
  }

  /** The dedup loop of the page over one batch: each uploaded name not
      yet seen is written out and remembered. */
  method AppendNewNames(existing: set<string>, uploaded: seq<string>) returns (written: seq<string>)
    ensures written == NewNames(existing, uploaded)
  {
    var seen := existing;
    written := [];
    for i := 0 to |uploaded|
      invariant written == NewNames(existing, uploaded[..i])
      invariant seen == existing + Names(written)
    {
      var name := uploaded[i];
      NewNamesPrefixSnoc(existing, uploaded, i);
      if name !in seen {
        NamesSnoc(written, name);
        written := written + [name];
        seen := seen + {name};
      }
    }
    assert uploaded[..|uploaded|] == uploaded;
  }

  /** Recording a batch of uploads in uploaded_files.txt: the recorded names
      are read, then the new ones are appended, creating the file if it is
      missing. */
  method RecordUploadedNames(ws: Workspace, uploaded: seq<string>)
    modifies ws
    ensures ws.uploadedList == RecordedNames(old(ws.uploadedList), uploaded)
    ensures ws.inboxExists == old(ws.inboxExists) && ws.inbox == old(ws.inbox)
    ensures ws.processed == old(ws.processed) && ws.index == old(ws.index)
    ensures ws.ledger == old(ws.ledger) && ws.processedBlobs == old(ws.processedBlobs)
  {
    if |uploaded| == 0 {
      return;
    }
    var lines := LinesOf(ws.uploadedList);
    var existing := ReadRecordedNames(lines);
    var written := AppendNewNames(existing, uploaded);
    ws.uploadedList := Some(lines + written);
  }

  /** A list is in normal form when it has no duplicate and no line starts
      or ends with whitespace, so that every line is its own strip. */
  predicate NormalList(lines: seq<string>)
  {
    Distinct(lines) && forall i :: 0 <= i < |lines| ==> Unpadded(lines[i])
  }

  /** Recording names that carry no surrounding whitespace keeps the list
      in normal form: nothing already recorded is appended again. */
  lemma RecordedNamesStayNormal(file: Option<seq<string>>, uploaded: seq<string>)
    requires NormalList(LinesOf(file))
    requires forall i :: 0 <= i < |uploaded| ==> Unpadded(uploaded[i])
    ensures RecordedNames(file, uploaded).Some? ==> NormalList(RecordedNames(file, uploaded).value)
  {
    if |uploaded| > 0 {
      var lines := LinesOf(file);
      var added := NewNames(Names(StripAll(lines)), uploaded);
      forall x | x in added ensures x !in lines && Unpadded(x) {
        var k :| 0 <= k < |uploaded| && uploaded[k] == x;
        if x in lines {
          var i :| 0 <= i < |lines| && lines[i] == x;
          UnpaddedLineRecorded(lines, i);
        }
      }
      NormalAppend(lines, added);
    }
  }

  /** Appending fresh, distinct, unpadded lines keeps a list in normal form. */
  lemma NormalAppend(lines: seq<string>, added: seq<string>)
    requires NormalList(lines) && Distinct(added)
    requires forall x | x in added :: x !in lines && Unpadded(x)
    ensures NormalList(lines + added)
  {
    DistinctConcat(lines, added);
    forall i | 0 <= i < |lines + added| ensures Unpadded((lines + added)[i]) {
      if i >= |lines| {
        assert added[i - |lines|] in added;
      }
    }
  }

  /** Nothing is appended when every uploaded name is already recorded. */
  lemma NewNamesAllSeen(existing: set<string>, uploaded: seq<string>)
    requires forall x | x in uploaded :: x in existing
    ensures NewNames(existing, uploaded) == []
  {
  }

  /** Every unpadded line of a list is among its stripped names. */
  lemma UnpaddedLineRecorded(lines: seq<string>, j: int)
    requires 0 <= j < |lines| && Unpadded(lines[j])
    ensures lines[j] in Names(StripAll(lines))
  {
    StripUnpadded(lines[j]);
    assert StripAll(lines)[j] == lines[j];
  }

  /** Recording the same batch of whitespace-free names twice appends
      nothing the second time. */
  lemma RecordedNamesIdempotent(file: Option<seq<string>>, uploaded: seq<string>)
    requires forall i :: 0 <= i < |uploaded| ==> Unpadded(uploaded[i])
    ensures RecordedNames(RecordedNames(file, uploaded), uploaded) == RecordedNames(file, uploaded)
  {
    if |uploaded| > 0 {
      var lines := LinesOf(file);
      var existing := Names(StripAll(lines));
      var added := NewNames(existing, uploaded);
      StripAllConcat(lines, added);
      NamesConcat(StripAll(lines), StripAll(added));
      var seen := Names(StripAll(lines + added));
      assert seen == existing + Names(StripAll(added));
      forall x | x in uploaded ensures x in seen {
        if x !in existing {
          var j :| 0 <= j < |added| && added[j] == x;
          var i :| 0 <= i < |uploaded| && uploaded[i] == x;
          UnpaddedLineRecorded(added, j);
        }
      }
      NewNamesAllSeen(seen, uploaded);
      assert lines + added + [] == lines + added;
    }
  }

  /** A name with leading whitespace never equals a stripped line, so it
      is appended on every upload: recording it twice lists it twice. */
  lemma PaddedNameRecordedTwice(name: string)
    requires name != [] && IsSpace(name[0])
    ensures RecordedNames(RecordedNames(None, [name]), [name]) == Some([name, name])
  {
    FirstUploadRecorded(name);
    PaddedNameNotRecorded(name);
    assert RecordedNames(Some([name]), [name]) == Some([name] + [name]);
    assert [name] + [name] == [name, name];
  }

  /** A name with leading whitespace is not among the stripped lines of a
      list that holds only that name. */
  lemma PaddedNameNotRecorded(name: string)
    requires name != [] && IsSpace(name[0])
    ensures NewNames(Names(StripAll([name])), [name]) == [name]
  {
    StripShortensPadded(name);
    assert StripAll([name]) == [Strip(name)];
    assert Names([Strip(name)]) == {Strip(name)};
    NewNamesSingle({Strip(name)}, name);
  }

  /** The first upload creates the list with that one name. */
  lemma FirstUploadRecorded(name: string)
    ensures RecordedNames(None, [name]) == Some([name])
  {
    NewNamesSingle({}, name);
    assert Names(StripAll([])) == {};
    assert [] + [name] == [name];
  }

  /** A single upload is appended exactly when it is not recorded yet. */
  lemma NewNamesSingle(existing: set<string>, x: string)
    ensures NewNames(existing, [x]) == if x in existing then [] else [x]
  {
    assert [x][..0] == [];
  }

  // ---------------------------------------------------------------------
  // Selecting new blobs

  /** A blob is a transcript when its lower-cased name ends with ".docx" or
      ".pdf". */
  predicate IsTranscriptName(name: string)
    ensures IsTranscriptName(name) ==>
              (|name| >= 4 && name[|name| - 4] == '.') || (|name| >= 5 && name[|name| - 5] == '.')
  {
    EndsWith(Lower(name), ".docx") || EndsWith(Lower(name), ".pdf")
  }

  /** The blobs to download: transcripts whose name is not yet recorded in
      processed_files.txt, in listing order. */
  function NewBlobs(blobNames: seq<string>, recorded: seq<string>): (r: seq<string>)
    ensures |r| <= |blobNames|
    ensures forall i :: 0 <= i < |r| ==> r[i] in blobNames && IsTranscriptName(r[i]) && r[i] !in recorded
  {
    var selected := Filter((name: string) => IsTranscriptName(name) && name !in recorded, blobNames);
    assert forall i :: 0 <= i < |selected| ==> selected[i] in selected;
    selected
  }

  /** A blob is selected exactly when it is listed, is a transcript and is
      not recorded. */
  lemma NewBlobsExactly(blobNames: seq<string>, recorded: seq<string>)
    ensures forall name :: name in NewBlobs(blobNames, recorded) <==>
              name in blobNames && IsTranscriptName(name) && name !in recorded
  {
  }

  /** The selection loop of `copy_and_process_files`. */
  method SelectNewBlobs(blobNames: seq<string>, recorded: seq<string>) returns (selected: seq<string>)
    ensures selected == NewBlobs(blobNames, recorded)
  {
    selected := [];
    for i := 0 to |blobNames|
      invariant selected == NewBlobs(blobNames[..i], recorded)
    {
      var name := blobNames[i];
      NewBlobsSnoc(blobNames, recorded, i);
      if IsTranscriptName(name) && name !in recorded {
        selected := selected + [name];
      }
    }
    assert blobNames[..|blobNames|] == blobNames;
  }

  /** Listing one more blob selects it or not, and leaves the earlier
      selection as it was. */
  lemma NewBlobsSnoc(blobNames: seq<string>, recorded: seq<string>, i: int)
    requires 0 <= i < |blobNames|
    ensures NewBlobs(blobNames[..i + 1], recorded) ==
            NewBlobs(blobNames[..i], recorded) +
            (if IsTranscriptName(blobNames[i]) && blobNames[i] !in recorded then [blobNames[i]] else [])
  {
    var name := blobNames[i];
    assert blobNames[..i + 1] == blobNames[..i] + [name];
    FilterConcat((name: string) => IsTranscriptName(name) && name !in recorded, blobNames[..i], [name]);
    assert [name][1..] == [];
  }

  /** processed_files.txt after a refresh in which the first `downloads`
      selected blobs are fetched before a download raises (or all of them):
      the file is created if missing and each fetched name is appended. */
  function RecordedBlobs(file: Option<seq<string>>, blobNames: seq<string>, downloads: nat): (r: seq<string>)
    ensures |LinesOf(file)| <= |r| <= |LinesOf(file)| + downloads && r[..|LinesOf(file)|] == LinesOf(file)
    ensures forall i :: |LinesOf(file)| <= i < |r| ==> IsTranscriptName(r[i]) && r[i] !in LinesOf(file)
  {
    var recorded := LinesOf(file);
    var selected := NewBlobs(blobNames, recorded);
    recorded + selected[..if downloads < |selected| then downloads else |selected|]
  }

  /** The names written into the knowledge-base folder during that refresh:
      the fetched blobs and, when a download raises, the blob it was
      fetching, whose destination file was already opened. */
  function FetchedBlobs(file: Option<seq<string>>, blobNames: seq<string>, downloads: nat): (r: seq<string>)
    ensures |r| <= downloads + 1
    ensures forall i :: 0 <= i < |r| ==> r[i] in blobNames && IsTranscriptName(r[i]) && r[i] !in LinesOf(file)
    ensures var recorded := RecordedBlobs(file, blobNames, downloads)[|LinesOf(file)|..];
              |recorded| <= |r| <= |recorded| + 1 && r[..|recorded|] == recorded
  {
    var selected := NewBlobs(blobNames, LinesOf(file));
    selected[..if downloads < |selected| then downloads + 1 else |selected|]
  }

  /** Append one downloaded name to processed_files.txt. */
  method AppendProcessedBlob(ws: Workspace, name: string)
    requires ws.processedBlobs.Some?
    modifies ws
    ensures ws.processedBlobs == Some(old(ws.processedBlobs).value + [name])
    ensures ws.inboxExists == old(ws.inboxExists)
    ensures ws.inbox == old(ws.inbox) && ws.processed == old(ws.processed)
    ensures ws.index == old(ws.index) && ws.ledger == old(ws.ledger)
    ensures ws.uploadedList == old(ws.uploadedList)
  {
    ws.processedBlobs := Some(ws.processedBlobs.value + [name]);
  }

  /** The folder listing after a file called `name` is written into it: a
      file of that name is replaced where it is listed, otherwise the new
      file is listed last. Either way the folder holds its old files and
      `name`. */
  function WithDownload(inbox: seq<string>, name: string): (r: seq<string>)
    ensures Names(r) == Names(inbox) + {name}
  {
    NamesSnoc(inbox, name);
    if name in inbox then inbox else inbox + [name]
  }

  /** Write one blob into the knowledge-base folder. The destination file is
      opened before the download runs, so it is in the folder whether or not
      the download then raises; a file of the same name is replaced. */
  method DownloadBlob(ws: Workspace, name: string)
    modifies ws
    ensures ws.inbox == WithDownload(old(ws.inbox), name)
    ensures Names(ws.inbox) == Names(old(ws.inbox)) + {name}
    ensures forall x :: x in old(ws.inbox) ==> x in ws.inbox
    ensures ws.inboxExists == old(ws.inboxExists) && ws.processed == old(ws.processed)
    ensures ws.index == old(ws.index) && ws.ledger == old(ws.ledger)
    ensures ws.uploadedList == old(ws.uploadedList) && ws.processedBlobs == old(ws.processedBlobs)
  {
    if name !in ws.inbox {
      NamesSnoc(ws.inbox, name);
      ws.inbox := ws.inbox + [name];
    }
  }

  /** The page's `process_documents`: a "documents" build whose outcome is
      kept as the page's `db_exist` flag; every exception is caught. */
  method ProcessDocuments(cfg: DbConfig, ws: Workspace, load: (LoaderKind, string) -> Option<seq<Doc>>,
                          clock: nat -> Timestamp, split: seq<Doc> -> seq<Doc>, embedOk: bool, ledgerOk: bool,
                          mergeWithExist: bool)
    returns (dbExist: bool)
    modifies ws
    ensures var ingest := IngestOf(cfg, load, clock, old(ws.inboxExists), old(ws.inbox));
            var saved := SavedChunks(DocumentsInputType, ingest, split, embedOk);
            && (dbExist <==> saved.Some? && ledgerOk)
            && ws.index == (if saved.Some? then Some(IndexAfterBuild(mergeWithExist, old(ws.index), saved.value))
                            else old(ws.index))
            && ws.ledger == (if dbExist then Some(LedgerAfterBuild(mergeWithExist, old(ws.index).Some?, old(ws.ledger), ingest.rows))
                             else old(ws.ledger))
    ensures var k := MovedCount(cfg, load, old(ws.inboxExists), old(ws.inbox));
            && ws.inbox == old(ws.inbox)[k..]
            && ws.processed == old(ws.processed) + Names(old(ws.inbox)[..k])
    ensures Names(ws.inbox) + ws.processed == Names(old(ws.inbox)) + old(ws.processed)
    ensures forall name :: name in old(ws.inbox) && Unloadable(cfg, name) ==> name in ws.inbox
    ensures (exists name :: name in old(ws.inbox) && Unloadable(cfg, name)) ==>
            !dbExist && ws.index == old(ws.index) && ws.ledger == old(ws.ledger)
    ensures ws.inboxExists == old(ws.inboxExists)
    ensures ws.uploadedList == old(ws.uploadedList) && ws.processedBlobs == old(ws.processedBlobs)
    ensures old(ws.LedgerBacked()) ==> ws.LedgerBacked()
  {
    // The build time is not used, so the readings passed here do not matter.
    var db, _ := RunDbBuild(cfg, ws, DocumentsInputType, load, clock, split, embedOk, ledgerOk, mergeWithExist, 0.0, 0.0);
    dbExist := db.Some?;
  }

  /** What a refresh keeps of the index and ledger it started from: the
      index keeps its chunks as a prefix, and so does the ledger once an
      index exists. */
  predicate KeepsHistory(index0: Option<seq<Doc>>, ledger0: Option<seq<Row>>,
                         index: Option<seq<Doc>>, ledger: Option<seq<Row>>)
  {
    && (index0.Some? ==> index.Some? && index0.value <= index.value)
    && (index0.Some? && ledger0.Some? ==> ledger.Some? && ledger0.value <= ledger.value)
  }

  /** Keeping the history twice in a row keeps it. */
  lemma KeepsHistoryTrans(index0: Option<seq<Doc>>, ledger0: Option<seq<Row>>,
                          index1: Option<seq<Doc>>, ledger1: Option<seq<Row>>,
                          index2: Option<seq<Doc>>, ledger2: Option<seq<Row>>)
    requires KeepsHistory(index0, ledger0, index1, ledger1)
    requires KeepsHistory(index1, ledger1, index2, ledger2)
    ensures KeepsHistory(index0, ledger0, index2, ledger2)
  {
  }

  /** Every listed file without a loader is in the folder. */
  predicate UnloadablesIn(cfg: DbConfig, names: seq<string>, inbox: seq<string>)
  {
    forall name | name in names :: Unloadable(cfg, name) ==> name in inbox
  }

  /** One pass of the refresh loop: download the blob into the folder,
      record its name in processed_files.txt and merge the folder into the
      index. */
  method FetchAndBuild(cfg: DbConfig, ws: Workspace, name: string, load: (LoaderKind, string) -> Option<seq<Doc>>,
                       clock: nat -> Timestamp, split: seq<Doc> -> seq<Doc>, embedOk: bool, ledgerOk: bool)
    requires ws.processedBlobs.Some?
    modifies ws
    ensures ws.processedBlobs == Some(old(ws.processedBlobs).value + [name])
    ensures var inbox := WithDownload(old(ws.inbox), name);
            var ingest := IngestOf(cfg, load, clock, old(ws.inboxExists), inbox);
            var saved := SavedChunks(DocumentsInputType, ingest, split, embedOk);
            var k := MovedCount(cfg, load, old(ws.inboxExists), inbox);
            && ws.index == (if saved.Some? then Some(IndexAfterBuild(true, old(ws.index), saved.value)) else old(ws.index))
            && ws.ledger == (if saved.Some? && ledgerOk
                             then Some(LedgerAfterBuild(true, old(ws.index).Some?, old(ws.ledger), ingest.rows))
                             else old(ws.ledger))
            && ws.inbox == inbox[k..]
            && ws.processed == old(ws.processed) + Names(inbox[..k])
    ensures Names(ws.inbox) + ws.processed == Names(old(ws.inbox)) + old(ws.processed) + {name}
    ensures UnloadablesIn(cfg, old(ws.inbox) + [name], ws.inbox)
    ensures (exists x :: x in old(ws.inbox) + [name] && Unloadable(cfg, x)) ==>
            ws.index == old(ws.index) && ws.ledger == old(ws.ledger)
    ensures KeepsHistory(old(ws.index), old(ws.ledger), ws.index, ws.ledger)
    ensures old(ws.LedgerBacked()) ==> ws.LedgerBacked()
    ensures ws.inboxExists == old(ws.inboxExists) && ws.uploadedList == old(ws.uploadedList)
  {
    DownloadBlob(ws, name);
    AppendProcessedBlob(ws, name);
    var _ := ProcessDocuments(cfg, ws, load, clock, split, embedOk, ledgerOk, true);
  }

  /** One pass of the refresh loop seen from the loop: of the exact state
      `FetchAndBuild` leaves, only what the loop carries from pass to pass
      — the name recorded, the folders' union, the unloadable files left in
      the folder, and the history of the index and the ledger. */
  method FetchStep(cfg: DbConfig, ws: Workspace, name: string, load: (LoaderKind, string) -> Option<seq<Doc>>,
                   clock: nat -> Timestamp, split: seq<Doc> -> seq<Doc>, embedOk: bool, ledgerOk: bool)
    requires ws.processedBlobs.Some?
    modifies ws
    ensures ws.processedBlobs == Some(old(ws.processedBlobs).value + [name])
    ensures Names(ws.inbox) + ws.processed == Names(old(ws.inbox)) + old(ws.processed) + {name}
    ensures UnloadablesIn(cfg, old(ws.inbox) + [name], ws.inbox)
    ensures (exists x :: x in old(ws.inbox) + [name] && Unloadable(cfg, x)) ==>
            ws.index == old(ws.index) && ws.ledger == old(ws.ledger)
    ensures KeepsHistory(old(ws.index), old(ws.ledger), ws.index, ws.ledger)
    ensures old(ws.LedgerBacked()) ==> ws.LedgerBacked()
    ensures ws.inboxExists == old(ws.inboxExists) && ws.uploadedList == old(ws.uploadedList)
  {
    FetchAndBuild(cfg, ws, name, load, clock, split, embedOk, ledgerOk);
  }

  /** The download loop of `copy_and_process_files` up to the first download
      that raises: the first `downloads` selected blobs (or all of them) are
      fetched, recorded and merged one after the other. */
  method FetchNewBlobs(cfg: DbConfig, ws: Workspace, selected: seq<string>, downloads: nat,
                       load: (LoaderKind, string) -> Option<seq<Doc>>, clock: nat -> nat -> Timestamp,
                       split: seq<Doc> -> seq<Doc>, embedOk: nat -> bool, ledgerOk: nat -> bool)
    returns (k: nat)
    requires ws.processedBlobs.Some?
    modifies ws
    ensures k == if downloads < |selected| then downloads else |selected|
    ensures ws.processedBlobs == Some(old(ws.processedBlobs).value + selected[..k])
    ensures Names(ws.inbox) + ws.processed == Names(old(ws.inbox)) + old(ws.processed) + Names(selected[..k])
    ensures UnloadablesIn(cfg, old(ws.inbox) + selected[..k], ws.inbox)
    ensures (exists name :: name in old(ws.inbox) && Unloadable(cfg, name)) ==>
            ws.index == old(ws.index) && ws.ledger == old(ws.ledger)
    ensures KeepsHistory(old(ws.index), old(ws.ledger), ws.index, ws.ledger)
    ensures old(ws.LedgerBacked()) ==> ws.LedgerBacked()
    ensures ws.inboxExists == old(ws.inboxExists) && ws.uploadedList == old(ws.uploadedList)
  {
    ghost var recorded := ws.processedBlobs.value;
    assert recorded + selected[..0] == recorded;
    assert old(ws.inbox) + selected[..0] == old(ws.inbox);
    k := 0;
    while k < |selected| && k < downloads
      invariant k <= |selected| && k <= downloads
      invariant ws.processedBlobs == Some(recorded + selected[..k])
      invariant Names(ws.inbox) + ws.processed == Names(old(ws.inbox)) + old(ws.processed) + Names(selected[..k])
      invariant UnloadablesIn(cfg, old(ws.inbox) + selected[..k], ws.inbox)
      invariant (exists name :: name in old(ws.inbox) && Unloadable(cfg, name)) ==>
                ws.index == old(ws.index) && ws.ledger == old(ws.ledger)
      invariant KeepsHistory(old(ws.index), old(ws.ledger), ws.index, ws.ledger)
      invariant old(ws.LedgerBacked()) ==> ws.LedgerBacked()
      invariant ws.inboxExists == old(ws.inboxExists) && ws.uploadedList == old(ws.uploadedList)
    {
      NamesPrefixSnoc(selected, k);
      AppendPrefixSnoc(old(ws.inbox), selected, k);
      AppendPrefixSnoc(recorded, selected, k);
      ghost var index, ledger := ws.index, ws.ledger;
      FetchStep(cfg, ws, selected[k], load, clock(k), split, embedOk(k), ledgerOk(k));
      KeepsHistoryTrans(old(ws.index), old(ws.ledger), index, ledger, ws.index, ws.ledger);
      k := k + 1;
    }
  }

  /** `copy_and_process_files`: create the knowledge-base folder and the list
      file if missing, select the new blobs, and for each one download it
      into the folder, append its name to the list and merge the folder into
      the index, until a download raises. Download `i` is followed by a build
      that reads the clock `clock(i)` and whose embedding and ledger steps
      succeed as `embedOk(i)` and `ledgerOk(i)` say. */
  method CopyAndProcessFiles(cfg: DbConfig, ws: Workspace, blobNames: seq<string>, downloads: nat,
                             load: (LoaderKind, string) -> Option<seq<Doc>>, clock: nat -> nat -> Timestamp,
                             split: seq<Doc> -> seq<Doc>, embedOk: nat -> bool, ledgerOk: nat -> bool)
    modifies ws
    ensures ws.inboxExists
    ensures ws.processedBlobs == Some(RecordedBlobs(old(ws.processedBlobs), blobNames, downloads))
    ensures Names(ws.inbox) + ws.processed ==
            Names(old(ws.inbox)) + old(ws.processed) + Names(FetchedBlobs(old(ws.processedBlobs), blobNames, downloads))
    ensures UnloadablesIn(cfg, old(ws.inbox) + FetchedBlobs(old(ws.processedBlobs), blobNames, downloads), ws.inbox)
    ensures (exists name :: name in old(ws.inbox) && Unloadable(cfg, name)) ==>
            ws.index == old(ws.index) && ws.ledger == old(ws.ledger)
    ensures KeepsHistory(old(ws.index), old(ws.ledger), ws.index, ws.ledger)
    ensures old(ws.LedgerBacked()) ==> ws.LedgerBacked()
    ensures ws.uploadedList == old(ws.uploadedList)
  {
    ws.inboxExists := true;
    var recorded := LinesOf(ws.processedBlobs);
    ws.processedBlobs := Some(recorded);
    var selected := SelectNewBlobs(blobNames, recorded);
    var k := FetchNewBlobs(cfg, ws, selected, downloads, load, clock, split, embedOk, ledgerOk);
    assert RecordedBlobs(old(ws.processedBlobs), blobNames, downloads) == recorded + selected[..k];
    ghost var fetched := k;
    if k < |selected| {
      // Download `k` raises after its destination file was opened.
      NamesPrefixSnoc(selected, k);
      AppendPrefixSnoc(old(ws.inbox), selected, k);
      DownloadBlob(ws, selected[k]);
      fetched := k + 1;
    }
    assert FetchedBlobs(old(ws.processedBlobs), blobNames, downloads) == selected[..fetched];
  }

  /** Blob names are unique in a container, so a duplicate-free list stays
      duplicate-free however many downloads succeed. */
  lemma RecordedBlobsStayDistinct(file: Option<seq<string>>, blobNames: seq<string>, downloads: nat)
    requires Distinct(LinesOf(file)) && Distinct(blobNames)
    ensures Distinct(RecordedBlobs(file, blobNames, downloads))
  {
    var recorded := LinesOf(file);
    var selected := NewBlobs(blobNames, recorded);
    FilterDistinct((name: string) => IsTranscriptName(name) && name !in recorded, blobNames);
    var k := if downloads < |selected| then downloads else |selected|;
    assert Distinct(selected[..k]) by {
      forall i, j | 0 <= i < j < k ensures selected[..k][i] != selected[..k][j] {
        assert selected[..k][i] == selected[i] && selected[..k][j] == selected[j];
      }
    }
    assert forall x | x in selected[..k] :: x in selected;
    DistinctConcat(recorded, selected[..k]);
  }

  /** After a refresh in which every download succeeded, a second refresh
      over the same listing selects nothing. */
  lemma RefreshSelectsNothingTwice(file: Option<seq<string>>, blobNames: seq<string>)
    ensures NewBlobs(blobNames, RecordedBlobs(file, blobNames, |blobNames|)) == []
  {
    var recorded := LinesOf(file);
    var selected := NewBlobs(blobNames, recorded);
    var after := RecordedBlobs(file, blobNames, |blobNames|);
    assert selected[..|selected|] == selected;
    assert after == recorded + selected;
    FilterNone((name: string) => IsTranscriptName(name) && name !in after, blobNames);
  }

  /** The selection lower-cases names but the ingestion table does not, so
      a blob named like "minutes.PDF" is downloaded and then refused by the
      next ingestion batch. */
  lemma UpperCaseBlobRefusedByIngestion(cfg: DbConfig, stem: string)
    requires cfg.knowledgeBasePath != []
    requires stem == [] || stem[0] != '/'
    ensures IsTranscriptName(stem + ".PDF")
    ensures FileExt(cfg, stem + ".PDF") == ".PDF" && ".PDF" !in LoaderMapping
  {
    UpperCasePdfIsTranscript(stem);
    UpperCasePdfExt(cfg, stem);
    UpperCasePdfUnsupported();
  }

  /** The selection takes an upper-case ".PDF" name for a transcript. */
  lemma UpperCasePdfIsTranscript(stem: string)
    ensures IsTranscriptName(stem + ".PDF")
  {
    var suffix := ".PDF";
    LowerConcat(stem, suffix);
    assert Lower(suffix) == ".pdf";
    assert Lower(stem + suffix)[|stem|..] == ".pdf";
  }

  /** Ingestion reads the extension of such a name as ".PDF". */
  lemma UpperCasePdfExt(cfg: DbConfig, stem: string)
    requires cfg.knowledgeBasePath != []
    requires stem == [] || stem[0] != '/'
    ensures FileExt(cfg, stem + ".PDF") == ".PDF"
  {
    var suffix := ".PDF";
    var name := stem + suffix;
    assert name[|stem|] == '.' && name[0] != '/';
    ExtOfListedFile(cfg.knowledgeBasePath, name);
    LastIndexOfIs(suffix, '.', 0);
    LastIndexOfInTail(stem, suffix, '.');
    assert name[|stem| + 1..] == "PDF";
  }



  // ---------------------------------------------------------------------
  // Reading a transcript

  /** The text `read_text` gives for any path without a known suffix. */
  const UnsupportedFormat := "Unsupported file format"

  /** Each paragraph followed by a newline, as the .docx branch builds it. */
  function JoinLines(paragraphs: seq<string>): string
  {
    if paragraphs == [] then [] else paragraphs[0] + "\n" + JoinLines(paragraphs[1..])
  }

  /** The page texts run together, as the .pdf branch builds them. */
  function Concat(pages: seq<string>): string
  {
    if pages == [] then [] else pages[0] + Concat(pages[1..])
  }

  /** Every page's text fits in the whole, and the whole is empty exactly
      when no page yields any text. */
  lemma {:induction false} ConcatEmptyIff(pages: seq<string>)
    ensures forall i :: 0 <= i < |pages| ==> |pages[i]| <= |Concat(pages)|
    ensures Concat(pages) == [] <==> forall i :: 0 <= i < |pages| ==> pages[i] == []
  {
    if pages != [] {
      ConcatEmptyIff(pages[1..]);
      forall i | 1 <= i < |pages| ensures |pages[i]| <= |Concat(pages)| && pages[1..][i - 1] == pages[i] {
        assert pages[1..][i - 1] == pages[i];
      }
    }
  }

  /** The text of a transcript, chosen by its case-sensitive suffix; the
      paragraph and page texts are what the document parsers return. */
  function TranscriptText(path: string, paragraphs: seq<string>, pages: seq<string>): (r: string)
    ensures EndsWith(path, ".docx") ==> r == Join(paragraphs + [[]], '\n')
    ensures EndsWith(path, ".pdf") ==> r == Concat(pages)
    ensures !EndsWith(path, ".docx") && !EndsWith(path, ".pdf") ==> r == UnsupportedFormat
  {
    JoinLinesIsJoin(paragraphs);
    if EndsWith(path, ".docx") then JoinLines(paragraphs)
    else if EndsWith(path, ".pdf") then Concat(pages)
    else UnsupportedFormat
  }

  /** `read_text`. */
  method ReadText(path: string, paragraphs: seq<string>, pages: seq<string>) returns (text: string)
    ensures text == TranscriptText(path, paragraphs, pages)
  {
    if EndsWith(path, ".docx") {
      text := ReadParagraphs(paragraphs);
    } else if EndsWith(path, ".pdf") {
      text := ReadPages(pages);
    } else {
      text := UnsupportedFormat;
    }
  }

  /** The .docx loop of `read_text`: each paragraph and a newline appended. */
  method ReadParagraphs(paragraphs: seq<string>) returns (text: string)
    ensures text == JoinLines(paragraphs)
  {
    text := "";
    for i := 0 to |paragraphs|
      invariant JoinLines(paragraphs) == text + JoinLines(paragraphs[i..])
    {
      assert paragraphs[i..][1..] == paragraphs[i + 1..];
      text := text + paragraphs[i] + "\n";
    }
  }

  /** The .pdf loop of `read_text`: each page's text appended. */
  method ReadPages(pages: seq<string>) returns (text: string)
    ensures text == Concat(pages)
  {
    text := "";
    for i := 0 to |pages|
      invariant Concat(pages) == text + Concat(pages[i..])
    {
      assert pages[i..][1..] == pages[i + 1..];
      text := text + pages[i];
    }
  }

  /** The newline-joined paragraphs are the newline join of the paragraphs
      and a final empty piece. */
  lemma {:induction false} JoinLinesIsJoin(paragraphs: seq<string>)
    ensures JoinLines(paragraphs) == Join(paragraphs + [[]], '\n')
  {
    if paragraphs != [] {
      JoinLinesIsJoin(paragraphs[1..]);
      assert (paragraphs + [[]])[1..] == paragraphs[1..] + [[]];
    }
  }

  /** Splitting a .docx transcript's text on newlines gives the paragraphs
      back, followed by the empty piece after the last newline, when no
      paragraph holds a newline of its own. */
  lemma JoinLinesSplit(paragraphs: seq<string>)
    requires forall p | p in paragraphs :: '\n' !in p
    ensures Split(JoinLines(paragraphs), '\n') == paragraphs + [[]]
  {
    JoinLinesIsJoin(paragraphs);
    SplitJoin(paragraphs + [[]], '\n');
  }

  /** The .pdf text of a document split in two is the text of the first
      part followed by the text of the second. */
  lemma {:induction false} ConcatAppend(a: seq<string>, b: seq<string>)
    ensures Concat(a + b) == Concat(a) + Concat(b)
  {
    if a == [] {
      assert a + b == b;
    } else {
      var rest := a[1..];
      assert a == [a[0]] + rest;
      assert a + b == [a[0]] + (rest + b);
      ConcatCons(a[0], rest + b);
      ConcatCons(a[0], rest);
      ConcatAppend(rest, b);
      assert a[0] + (Concat(rest) + Concat(b)) == (a[0] + Concat(rest)) + Concat(b);
    }
  }

  /** The text of pages headed by one more page. */
  lemma ConcatCons(page: string, pages: seq<string>)
    ensures Concat([page] + pages) == page + Concat(pages)
  {
    assert ([page] + pages)[1..] == pages;
  }

  /** The suffix test is case-sensitive: a path that ends in ".DOCX" or
      ".PDF" yields the unsupported-format text, whatever its content. */
  lemma UpperCaseSuffixUnsupported(stem: string, paragraphs: seq<string>, pages: seq<string>)
    ensures TranscriptText(stem + ".DOCX", paragraphs, pages) == UnsupportedFormat
    ensures TranscriptText(stem + ".PDF", paragraphs, pages) == UnsupportedFormat
  {
    var d, p := stem + ".DOCX", stem + ".PDF";
    assert d[|d| - 5..] == ".DOCX";
    assert d[|d| - 4..] == "DOCX";
    assert p[|p| - 4..] == ".PDF";
  }

  // ---------------------------------------------------------------------
  // The minutes document

  /** Every word capitalised. */
  function CapitalizeAll(words: seq<string>): (r: seq<string>)
    ensures |r| == |words|
    ensures forall i :: 0 <= i < |words| ==> r[i] == Capitalize(words[i])
  {
    seq(|words|, i requires 0 <= i < |words| => Capitalize(words[i]))
  }

  /** The heading for a minutes key: its `_`-separated words capitalised
      and joined with single spaces. It agrees with the character-by-character
      rule, so it is as long as the key and every `_` became a space. */
  function Heading(key: string): (r: string)
    ensures r == TitleCase(key, true)
    ensures |r| == |key| && '_' !in r
  {
    JoinCapitalized(Split(key, '_'));
    TitleCaseWords(key);
    Join(CapitalizeAll(Split(key, '_')), ' ')
  }

  /** Character by character: `_` becomes a space, a letter right after the
      start or after `_` is upper-cased, every other letter lower-cased. */
  function TitleCase(s: string, atWordStart: bool): (r: string)
    ensures |r| == |s| && '_' !in r
    ensures forall i :: 0 <= i < |s| && s[i] == '_' ==> r[i] == ' '
  {
    if s == [] then []
    else [if s[0] == '_' then ' ' else if atWordStart then UpperChar(s[0]) else LowerChar(s[0])]
         + TitleCase(s[1..], s[0] == '_')
  }

  /** The words after the first, each preceded by a space. */
  function HeadingTail(words: seq<string>): string
    requires |words| >= 1
  {
    if |words| == 1 then [] else " " + Join(CapitalizeAll(words[1..]), ' ')
  }

  lemma JoinCapitalized(words: seq<string>)
    requires |words| >= 1
    ensures Join(CapitalizeAll(words), ' ') == Capitalize(words[0]) + HeadingTail(words)
  {
    if |words| > 1 {
      assert CapitalizeAll(words)[1..] == CapitalizeAll(words[1..]);
    }
  }

  lemma {:induction false} TitleCaseWords(s: string)
    ensures TitleCase(s, true) == Capitalize(Split(s, '_')[0]) + HeadingTail(Split(s, '_'))
    ensures TitleCase(s, false) == Lower(Split(s, '_')[0]) + HeadingTail(Split(s, '_'))
  {
    if s != [] {
      TitleCaseWords(s[1..]);
      if s[0] == '_' {
        TitleCaseAtSeparator(s);
      } else {
        TitleCaseInWord(s);
      }
    }
  }

  /** The inductive step of `TitleCaseWords` at a separator. */
  lemma TitleCaseAtSeparator(s: string)
    requires s != [] && s[0] == '_'
    requires TitleCase(s[1..], true) == Capitalize(Split(s[1..], '_')[0]) + HeadingTail(Split(s[1..], '_'))
    ensures TitleCase(s, true) == Capitalize(Split(s, '_')[0]) + HeadingTail(Split(s, '_'))
    ensures TitleCase(s, false) == Lower(Split(s, '_')[0]) + HeadingTail(Split(s, '_'))
  {
    var rest := Split(s[1..], '_');
    var words := Split(s, '_');
    assert words == [[]] + rest;
    assert words[1..] == rest;
    JoinCapitalized(rest);
  }

  /** The inductive step of `TitleCaseWords` inside a word. */
  lemma TitleCaseInWord(s: string)
    requires s != [] && s[0] != '_'
    requires TitleCase(s[1..], false) == Lower(Split(s[1..], '_')[0]) + HeadingTail(Split(s[1..], '_'))
    ensures TitleCase(s, true) == Capitalize(Split(s, '_')[0]) + HeadingTail(Split(s, '_'))
    ensures TitleCase(s, false) == Lower(Split(s, '_')[0]) + HeadingTail(Split(s, '_'))
  {
    var first, tail := Split(s[1..], '_')[0], HeadingTail(Split(s[1..], '_'));
    SplitAfterLetter(s);
    FirstLetterCased(s[0], first, tail);
  }

  /** Prefixing a letter to a word: capitalising upper-cases the letter and
      lower-cases the rest, lower-casing lower-cases both. */
  lemma FirstLetterCased(c: char, first: string, tail: string)
    ensures Capitalize([c] + first) + tail == [UpperChar(c)] + (Lower(first) + tail)
    ensures Lower([c] + first) + tail == [LowerChar(c)] + (Lower(first) + tail)
  {
    assert ([c] + first)[1..] == first;
    LowerConcat([c], first);
    assert Lower([c]) == [LowerChar(c)];
  }

  /** A letter other than `_` joins the first word of the rest. */
  lemma SplitAfterLetter(s: string)
    requires s != [] && s[0] != '_'
    ensures Split(s, '_')[0] == [s[0]] + Split(s[1..], '_')[0]
    ensures HeadingTail(Split(s, '_')) == HeadingTail(Split(s[1..], '_'))
  {
    var rest := Split(s[1..], '_');
    assert Split(s, '_')[1..] == rest[1..];
  }

  /** The heading of two lower-case words joined by `_`. */
  lemma TwoWordHeading(first: string, second: string)
    requires first != [] && second != []
    requires forall i :: 0 <= i < |first| ==> 'a' <= first[i] <= 'z'
    requires forall i :: 0 <= i < |second| ==> 'a' <= second[i] <= 'z'
    ensures Heading(first + "_" + second) ==
              [UpperChar(first[0])] + first[1..] + " " + [UpperChar(second[0])] + second[1..]
  {
    var words := [first, second];
    assert Join(words, '_') == first + "_" + second by {
      assert words[1..] == [second];
    }
    SplitJoin(words, '_');
    assert Split(first + "_" + second, '_') == words;
    CapitalizeLowerWord(first);
    CapitalizeLowerWord(second);
    var caps := CapitalizeAll(words);
    assert caps == [Capitalize(first), Capitalize(second)];
    assert Join(caps, ' ') == Capitalize(first) + " " + Capitalize(second) by {
      assert caps[1..] == [Capitalize(second)];
    }
  }

  /** Capitalising a lower-case word upper-cases its first letter only. */
  lemma CapitalizeLowerWord(w: string)
    requires w != []
    requires forall i :: 0 <= i < |w| ==> 'a' <= w[i] <= 'z'
    ensures Capitalize(w) == [UpperChar(w[0])] + w[1..]
  {
    assert Lower(w[1..]) == w[1..];
  }

  /** `os.path.splitext(p)[0]` on POSIX: drop the text from the last dot of
      the final path component, unless only dots precede that dot in the
      component (a name like ".docx" has no extension). */
  function SplitExtRoot(p: string): (r: string)
    ensures |r| <= |p| && r == p[..|r|]
    ensures r != p ==> p[|r|] == '.' && '.' !in p[|r| + 1..] && '/' !in p[|r|..]
  {
    var slash := LastIndexOf(p, '/');
    var dot := LastIndexOf(p, '.');
    if dot > slash && exists i | slash < i < dot :: p[i] != '.' then p[..dot] else p
  }

  /** A file name made of a stem with a character other than a dot, a dot
      and a dot-free extension loses exactly the dot and the extension. */
  lemma SplitExtRootOfName(stem: string, ext: string)
    requires '/' !in stem && '/' !in ext && '.' !in ext
    requires exists i :: 0 <= i < |stem| && stem[i] != '.'
    ensures SplitExtRoot(stem + "." + ext) == stem
  {
    var p := stem + "." + ext;
    LastIndexesOfName(stem, ext);
    var i :| 0 <= i < |stem| && stem[i] != '.';
    assert -1 < i < |stem| && p[i] != '.';
    assert p[..|stem|] == stem;
  }

  /** In stem.ext with a dot-free extension and no '/', the last dot is the
      one after the stem and there is no '/'. */
  lemma LastIndexesOfName(stem: string, ext: string)
    requires '/' !in stem && '/' !in ext && '.' !in ext
    ensures LastIndexOf(stem + "." + ext, '.') == |stem|
    ensures LastIndexOf(stem + "." + ext, '/') == -1
  {
    var tail := "." + ext;
    assert stem + "." + ext == stem + tail;
    LastIndexOfIs(tail, '.', 0);
    LastIndexOfInTail(stem, tail, '.');
    assert '/' !in tail;
    LastIndexOfAbsent(stem + tail, '/');
  }

  /** A name without a dot, or whose only dots lead it, is its own root. */
  lemma SplitExtRootKeepsName(p: string)
    requires '/' !in p
    requires forall i :: 0 <= i < LastIndexOf(p, '.') ==> p[i] == '.'
    ensures SplitExtRoot(p) == p
  {
    LastIndexOfIs(p, '/', -1);
  }

  /** The name of the saved minutes document: the fixed prefix, a prefix
      of the upload's name, and ".docx". */
  function OutputFileName(filename: string): (r: string)
    ensures 21 <= |r| <= |filename| + 21 && r[..16] == "Meeting_Minutes_" && EndsWith(r, ".docx")
    ensures r[16..|r| - 5] == filename[..|r| - 21]
  {
    "Meeting_Minutes_" + SplitExtRoot(filename) + ".docx"
  }

  /** The saved document's path: the name directly under the Downloads
      folder of the home directory. */
  function OutputPath(home: string, filename: string): (r: string)
    ensures r == home + "/Downloads/" + OutputFileName(filename)
  {
    var dir := home + "/Downloads/";
    assert dir[|dir| - 1] == '/';
    var name := OutputFileName(filename);
    assert name[0] == 'M';
    JoinPath(dir, name)
  }

  /** For an upload named stem.ext, the minutes document is named
      Meeting_Minutes_<stem>.docx. */
  lemma OutputFileNameOfUpload(stem: string, ext: string)
    requires '/' !in stem && '/' !in ext && '.' !in ext
    requires exists i :: 0 <= i < |stem| && stem[i] != '.'
    ensures OutputFileName(stem + "." + ext) == "Meeting_Minutes_" + stem + ".docx"
  {
    SplitExtRootOfName(stem, ext);
  }

  /** A block of the minutes document. */
  datatype Block = Heading1(text: string) | Paragraph(text: string)

  /** The blocks `save_as_docx` adds for one section: a level-1 heading
      from the key, the section text, and an empty paragraph. */
  function SectionBlocks(section: (string, string)): seq<Block>
  {
    [Heading1(Heading(section.0)), Paragraph(section.1), Paragraph([])]
  }

  /** The blocks of all sections, in order. */
  function MinutesBlocks(minutes: seq<(string, string)>): (r: seq<Block>)
    ensures |r| == 3 * |minutes|
  {
    if minutes == [] then []
    else MinutesBlocks(minutes[..|minutes| - 1]) + SectionBlocks(minutes[|minutes| - 1])
  }

  /** Section `i` of the minutes occupies blocks `3 * i` to `3 * i + 2`. */
  lemma {:induction false} MinutesBlocksSection(minutes: seq<(string, string)>, i: int)
    requires 0 <= i < |minutes|
    ensures MinutesBlocks(minutes)[3 * i..3 * i + 3] == SectionBlocks(minutes[i])
  {
    var prefix := minutes[..|minutes| - 1];
    var front, last := MinutesBlocks(prefix), SectionBlocks(minutes[|minutes| - 1]);
    assert MinutesBlocks(minutes) == front + last;
    if i < |minutes| - 1 {
      MinutesBlocksSection(prefix, i);
      assert prefix[i] == minutes[i];
      SliceOfAppend(front, last, 3 * i, 3 * i + 3);
    } else {
      SliceOfAppend(front, last, 0, 0);
    }
  }

  /** The section loop of `save_as_docx`. */
  method LayOutMinutes(minutes: seq<(string, string)>) returns (blocks: seq<Block>)
    ensures blocks == MinutesBlocks(minutes)
  {
    blocks := [];
    for n := 0 to |minutes|
      invariant blocks == MinutesBlocks(minutes[..n])
    {
      var (key, value) := minutes[n];
      var heading := Join(CapitalizeAll(Split(key, '_')), ' ');
      assert minutes[..n + 1][..n] == minutes[..n];
      blocks := blocks + [Heading1(heading), Paragraph(value), Paragraph([])];
    }
    assert minutes[..|minutes|] == minutes;
  }

  /** `save_as_docx`: the path of the saved document and its blocks. */
  method SaveAsDocx(minutes: seq<(string, string)>, filename: string, home: string)
    returns (path: string, blocks: seq<Block>)
    ensures path == OutputPath(home, filename)
    ensures blocks == MinutesBlocks(minutes)
  {
    var root := SplitExtRoot(filename);
    path := JoinPath(home + "/Downloads/", "Meeting_Minutes_" + root + ".docx");
    blocks := LayOutMinutes(minutes);
  }
}
