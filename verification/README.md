# meeting-minutes-gpt: a Dafny model of the bookkeeping core

meeting-minutes-gpt is a Streamlit application that ingests meeting
transcripts into a FAISS vector index, answers questions over them and writes
minutes documents with the OpenAI API. Almost everything it does is a call
into Streamlit, Azure Blob Storage, OpenAI, LangChain or FAISS. This project
models the deterministic part underneath:

- **Ingestion batch and ledger** (`db_utils.dfy`, after `src/db_utils.py`):
  - `create_documents` works out each file's extension as `"." +` the text
    after the last dot of its path;
  - it dispatches on the four-entry loader table, appends one ledger row per
    file and moves the file to the processed folder, one file at a time;
  - the first unsupported or failing file raises with the earlier files
    already moved;
  - `run_db_build` merges, creates or overwrites the index and the ledger,
    and turns every failure into `(None, 0.00)`;
  - `process_documents` and `load_local_db` are modelled as pure checks.
- **Front-end bookkeeping** (`frontend.dfy`, after `frontend/main.py`):
  - the Delete button (`delete_files_in_folder`, `delete_rows_from_csv`);
  - the dedup loop that records uploaded names in `uploaded_files.txt`;
  - the blob refresh in `copy_and_process_files`: selection, download into
    the knowledge-base folder and a merge rebuild after each download;
  - `read_text`'s suffix dispatch;
  - the heading, file name and section layout of `save_as_docx`.
- **Model selection and request shapes** (`gpt_utils.dfy`, after
  `src/gpt_utils.py`):
  - the 3750-token threshold of `select_model`;
  - the request `get_completion_from_messages` sends;
  - the fixed requests of the three minutes extractors.
- **Prompts** (`prompts.dfy`, after `src/prompts.py`): the three-turn
  `summarize_text` message list and the `prompt_doc_qa` template.
- **Supporting modules:**
  - `text.dfy` has Python's string operations on `seq<char>`: `rfind`,
    `endswith`, `lower`, `capitalize`, `strip`, `split`, `join` and `str(int)`;
  - `collections.dfy` has filter and distinctness facts;
  - `disk.dfy` has the on-disk state;
  - `chat.dfy` has role-tagged messages;
  - `wrappers.dfy` has `Option` and `Result`.

The files, folders and name lists the application shares between button
presses form one object, `Disk.Workspace`. It holds the knowledge-base
folder listing, the processed-documents folder, the index directory, the
ledger `db_details.csv`, `uploaded_files.txt` and `processed_files.txt`. The
methods that change them (`CreateDocuments`, `RunDbBuild`,
`DeleteRowsFromCsv`, `RecordUploadedNames`, `CopyAndProcessFiles` and the
others) change this object in place. Most methods state their whole new
state in terms of the old one and of specification functions such as
`IngestOf`, `KeepRows`, `RecordedNames` and `RecordedBlobs`. The blob refresh
is stated partly: `DownloadBlob` and `FetchAndBuild` give the exact new
folders, index and ledger (`WithDownload`, `MovedCount`, `IndexAfterBuild`,
`LedgerAfterBuild`), but the loop in `FetchNewBlobs` and
`CopyAndProcessFiles` gives the two folders only through their union and the
index and ledger only as growth (see "Left out"). Lemmas prove what the
application promises about those functions.

Calls whose behaviour is not visible here become parameters:

- a document loader, `(LoaderKind, path) -> Option<docs>`, where `None`
  means the loader raised;
- a clock giving each ledger row its Executed_Time;
- the text splitter;
- whether embedding succeeds;
- whether reading and writing the ledger succeeds;
- start and end times;
- the paragraphs and pages the document parsers return;
- the number of blob downloads that succeed before one raises;
- the prompt's token count, as an `Option`.

The model pins down these behaviours of the code as written:

- `select_model` forms `num_tokens + max_tokens` before testing for `None`.
  An unknown model's missing token count therefore raises a TypeError, and
  the `is not None` guard never sees `None`. `SelectTier` models this as the
  error `TokenCountUnavailable`, not as a fall-back to the large model. The
  comments at `src/gpt_utils.py:84` and `:88` say 3500; the code compares
  against 3750.
- For a missing or empty folder, `create_documents` returns `None`. A caller
  might expect a "nothing to ingest" report; instead `run_db_build` fails to
  unpack `None` into two names and returns `(None, 0.00)` (`RunDbBuild`).
- `run_db_build` saves the index before it reads or writes the ledger. A
  failing `read_csv` or `to_csv` therefore returns `(None, 0.00)` with the
  new index saved and the ledger as it was (`RunDbBuild`). A batch whose
  documents split into no chunks also fails, in `FAISS.from_documents`.
- The `filter` object tested at `frontend/main.py:242` is always truthy, so
  the ledger is rewritten on every delete. When `db_details.csv` is missing,
  the upload list is never cleared (`DropUploadedTranscripts`).
- Blob selection lower-cases names but the loader table does not. A blob
  named `minutes.PDF` is therefore downloaded and then refused by ingestion
  (`UpperCaseBlobRefusedByIngestion`). The file stays in the knowledge-base
  folder (`CopyAndProcessFiles`). The rebuild that follows its download, and
  every later build while it is there, fails and leaves the index and the
  ledger unchanged (`FetchAndBuild` for each pass of the refresh,
  `RunDbBuild` for any build). A fresh
  download that `os.listdir` lists before the stuck file is moved to the
  processed folder before the batch raises (`src/db_utils.py:86-89`,
  `CreateDocuments`, `IngestFailsAtFirstOffender`): it never reaches the
  index or the ledger, and it is never fetched again because
  `processed_files.txt` already names it.
- A download that raises has already opened its destination file, so the
  blob's file stays in the knowledge-base folder although its name is not
  recorded in `processed_files.txt` (`CopyAndProcessFiles`).
- Recorded names are compared after `strip()`, but uploaded names are not.
  A name with leading whitespace is therefore appended again on every upload
  (`PaddedNameRecordedTwice`).
- A file name without a dot gets an "extension" that runs back into the
  folder path, and so is always refused (`DotlessNameRefused`).

## Model

| member | source | states |
|---|---|---|
| DbUtils.UpperCasePdfUnsupported | src/db_utils.py:50-55 | the loader table is matched exactly, so ".PDF" has no loader |
| DbUtils.ExtIsDotFreeTail | src/db_utils.py:66 | the extension is "." followed by the longest dot-free tail of the path; that tail starts at 0 or right after a dot, so a path without a dot yields "." + the whole path |
| DbUtils.ExtAfterDirectory | src/db_utils.py:65-66 | for a name that has a dot, putting a directory in front does not change the extension |
| DbUtils.ExtRunsIntoDirectory | src/db_utils.py:65-66 | for a dot-free name under a directory ending in '/', the extension contains that '/' |
| DbUtils.SlashAfterLastDot | src/db_utils.py:66 | a '/' after the last dot of the path lies inside the extension |
| DbUtils.ExtOfListedFile | src/db_utils.py:65-66 | for a file in the knowledge-base folder, a name with a dot keeps its own extension and a dot-free name gets one containing '/' |
| DbUtils.SlashedExtUnsupported | src/db_utils.py:50-55 | no supported extension contains a '/' |
| DbUtils.DotlessNameRefused | src/db_utils.py:65-68 | a listed name without a dot never matches the loader table |
| DbUtils.JoinPathParts | src/db_utils.py:65 | os.path.join ends with the name; an absolute name replaces the folder; a relative one follows the folder, after a '/' when the folder does not end with one |
| DbUtils.StepFor | src/db_utils.py:64-89 | a file is unsupported iff its extension has no loader, and the error carries that extension; a supported file loads iff its loader returns documents |
| DbUtils.MovedCount | src/db_utils.py:64-89 | nothing moves from a missing folder; every file before the count loads, and the file at the count, if any, does not |
| DbUtils.IngestOf | src/db_utils.py:58-93 | nothing to ingest iff the folder is missing or empty; a successful batch has every file loaded; a raised batch has a file that does not load |
| DbUtils.Steps | src/db_utils.py:64-72 | one outcome per listed file, in listing order, each being what that file's extension and loader give |
| DbUtils.LoadedPrefix | src/db_utils.py:64-89 | the length of the run of loaded outcomes at the front: every earlier outcome loaded and the one at that index did not |
| DbUtils.Accepted | src/db_utils.py:64-89 | the number of files ingested before the first one that raises: all files before it load and the file at that index does not |
| DbUtils.IngestSucceedsIff | src/db_utils.py:58-93 | a batch succeeds iff the folder exists, is not empty and every file has a supported extension whose loader does not raise |
| DbUtils.UnsupportedFileRaises | src/db_utils.py:64-89 | one listed file with an unsupported extension, anywhere in the listing, makes the whole batch raise |
| DbUtils.IngestFailsAtFirstOffender | src/db_utils.py:64-89 | a raised batch names the first offending file: all files before it loaded (and are moved), and the error is its unsupported extension or, for a supported one, its loader failure |
| DbUtils.IngestRaisesAt | src/db_utils.py:64-89 | when file i is the first that does not load, exactly i files are moved and the batch raises on file i |
| DbUtils.IngestRows | src/db_utils.py:74-84 | a successful batch has one row per file in listing order, with Input_Type "Document", File_Type the file's supported extension and the i-th clock reading |
| DbUtils.IngestNext | src/db_utils.py:68-87 | one loop pass over a file that loads adds its documents and its row, moves it from the folder to the processed set and changes nothing else |
| DbUtils.CreateDocuments | src/db_utils.py:46-93 | the result is IngestOf(listing); exactly the first MovedCount files leave the folder and join the processed set, earlier ones staying moved when a later one raises; index, ledger and name lists unchanged |
| DbUtils.ProcessDocuments | src/db_utils.py:95-108 | the result is None exactly for an empty document list |
| DbUtils.LoadLocalDb | src/db_utils.py:174-180 | an index is returned iff the directory exists and holds index.faiss, and it is the stored one |
| DbUtils.LoadSavedIndex | src/db_utils.py:115-180 | loading the index directory, which the build has just created, gives back exactly the saved index or None |
| DbUtils.UnloadableFileStays | src/db_utils.py:64-89 | a listed file without a loader makes the batch fail and is not among the files moved |
| DbUtils.UnloadableListing | src/db_utils.py:64-89 | over a listing holding such a file the batch fails, and every such file stays in the folder |
| DbUtils.MoveKeepsFiles | src/db_utils.py:86-87 | moving the first k files loses none: folder and processed folder together hold the same names |
| DbUtils.SaveBuild | src/db_utils.py:130-158 | the index is saved (merged into the stored one when merging and one exists) before the ledger, which becomes old + new rows or the new rows when its step succeeds and is left as it was when it raises |
| DbUtils.SavedChunks | src/db_utils.py:113-128 | chunks are saved only for "documents", a successful non-empty batch and a working embedding, and they are the split of the batch's documents |
| DbUtils.IndexAfterBuild | src/db_utils.py:130-155 | the new chunks end the index; merging into a stored index keeps it as a prefix, otherwise only the new chunks remain |
| DbUtils.LedgerAfterBuild | src/db_utils.py:140-158 | the new rows end the ledger; merging into a stored index keeps an existing ledger as a prefix, otherwise only the new rows remain |
| DbUtils.BuildLedgerNames | src/db_utils.py:140-158 | after a build the File_Name column is the old names (only when merging into an existing index and the ledger exists) followed by exactly this batch's files in folder order |
| DbUtils.BatchRowsMoved | src/db_utils.py:74-87 | every row of a successful batch names a file the batch moved |
| DbUtils.LedgerAfterBuildBacked | src/db_utils.py:130-158 | on every merge/overwrite branch, a ledger whose rows name processed files keeps that property when the new rows also do |
| DbUtils.RunDbBuild | src/db_utils.py:110-172 | the index is saved iff input_type is "documents", the batch succeeds with documents, the split gives chunks and embedding succeeds, and it is then existing + new only when merging into a stored index; an index is returned iff it was saved and the ledger step succeeds, and otherwise (None, 0.00) with the ledger untouched; the ledger becomes old rows + new rows when merging into a stored index and exactly the new rows otherwise; earlier moves are kept, no file is lost, a file without a loader stays in the folder and blocks the build, and a ledger backed by the processed folder stays backed |
| Collections.Filter | frontend/main.py:237 | the kept elements are exactly those in the input that satisfy the predicate, never more than the input |
| Collections.FilterConcat | frontend/main.py:237 | filtering keeps order: the survivors of a + b are those of a followed by those of b |
| Collections.FilterIdempotent | frontend/main.py:237 | filtering twice with the same predicate equals filtering once |
| Collections.FilterDistinct | frontend/main.py:181-184 | filtering a duplicate-free list gives a duplicate-free list |
| Collections.DistinctConcat | frontend/main.py:193-194 | two duplicate-free lists with no common element concatenate to a duplicate-free list |
| Collections.SliceOfAppend | frontend/main.py:291-297 | a slice inside the first part of a + b is that slice of a, and what follows a is b |
| Text.LastIndexOf | src/db_utils.py:66 | rfind: -1 or an index holding the character, with no occurrence after it |
| Text.LastIndexOfIs | src/db_utils.py:66 | an index holding the character with none after it is the one rfind reports |
| Text.LastIndexOfAbsent | src/db_utils.py:66 | rfind reports -1 exactly when the character does not occur |
| Text.LastIndexOfInTail | src/db_utils.py:66 | when the tail holds the character, the last one of a + b is in b, offset by |a| |
| Text.LastIndexOfInHead | src/db_utils.py:66 | when the tail lacks the character, the last one of a + b is the last one of a |
| Text.EndsWith | frontend/main.py:182 | endswith holds only when the string is some prefix followed by the suffix, so their last characters agree |
| Text.Lower | frontend/main.py:182 | lower() keeps the length and lower-cases each character in place |
| Text.LowerConcat | frontend/main.py:182 | lower-casing distributes over concatenation |
| Text.Capitalize | frontend/main.py:293 | capitalize() keeps the length, upper-cases the first character and lower-cases the rest |
| Text.IsSpace | frontend/main.py:229 | whitespace is ASCII and never a letter, a digit, '.', '/' or '_' |
| Text.StripStart | frontend/main.py:229 | lstrip is no longer than the string and does not start with whitespace |
| Text.StripStartIs | frontend/main.py:229 | lstrip drops exactly a whitespace prefix: the result is a suffix, everything dropped is whitespace and the result does not start with whitespace |
| Text.StripEnd | frontend/main.py:229 | rstrip is no longer than the string and does not end with whitespace |
| Text.StripEndIs | frontend/main.py:229 | rstrip drops exactly a whitespace suffix: the result is a prefix, everything dropped is whitespace and the result does not end with whitespace |
| Text.Strip | frontend/main.py:229 | strip is no longer than the string and has no surrounding whitespace |
| Text.StripShortensPadded | frontend/main.py:364 | strip() shortens a string that starts with whitespace |
| Text.StripUnpadded | frontend/main.py:364 | a string with no surrounding whitespace is its own strip |
| Text.StripAll | frontend/main.py:229 | the list comprehension strips each line in place, keeping the count |
| Text.StripAllSnoc | frontend/main.py:363-364 | stripping one more line appends that line's strip |
| Text.StripAllConcat | frontend/main.py:229 | stripping a concatenation of lists strips each part |
| Text.Split | frontend/main.py:293 | split never returns an empty list and no piece contains the separator |
| Text.JoinParts | frontend/main.py:293 | a join starts with the first word, followed by the separator when there are more words, and ends with the last word |
| Text.JoinSplit | frontend/main.py:293 | joining the pieces of a split gives the original string back |
| Text.SplitJoin | frontend/main.py:293 | splitting the join of separator-free words gives the words back |
| Text.NatToDecimal | src/prompts.py:9 | str(n) of a natural number is a non-empty run of decimal digits |
| Text.IntToDecimal | src/prompts.py:9 | str(n) of any integer is non-empty and starts with '-' iff n is negative |
| Text.DecimalRoundTrip | src/prompts.py:9 | reading back the digits str writes gives the number |
| Text.IntDecimalRoundTrip | src/prompts.py:9 | for any integer, the digits after the sign (for a negative number) or all of them read back as its magnitude |
| Text.IntToDecimalInjective | src/prompts.py:9 | different integers are written differently |
| Frontend.KeepRowsExactly | frontend/main.py:236-237 | a row survives iff it was in the ledger and its File_Name is not a stripped upload-list name; no surviving File_Name is in that list |
| Frontend.KeepRowsConcat | frontend/main.py:237 | survivors keep ledger order across any split of the ledger |
| Frontend.KeepRowsNothingRemoved | frontend/main.py:237-253 | with the upload list emptied by a delete, deleting again keeps every row |
| Frontend.KeepRows | frontend/main.py:237 | no more rows than the ledger; each kept row is a ledger row whose File_Name is not in the upload list |
| Frontend.DeleteRowsFromCsv | frontend/main.py:219-260 | a missing ledger or upload list leaves both unchanged; otherwise the ledger becomes the rows whose File_Name is not a stripped uploaded name, always rewritten, and the upload list becomes empty; nothing else changes |
| Frontend.NamesDirectory | frontend/main.py:207-211 | the names that reach a directory under the folder (the empty name, "." and ".."), where os.remove raises |
| Frontend.DeletableCount | frontend/main.py:207-217 | the number of names handled before the first that names a directory (where os.remove raises) |
| Frontend.DeletableCountIs | frontend/main.py:207-217 | the first index naming a directory, or the length, is that count |
| Frontend.RemoveListedFiles | frontend/main.py:207-216 | the processed set loses exactly the names before the first directory-like name; nothing else changes |
| Frontend.DeleteFilesInFolder | frontend/main.py:200-217 | a missing upload list changes nothing; otherwise the stripped listed names are removed as above |
| Frontend.DropUploadedTranscripts | frontend/main.py:406-413 | the Delete button removes the listed files, filters the ledger and empties the upload list when both files exist; a missing ledger leaves the upload list as it was; the ledger stays backed by the processed folder |
| Frontend.DropKeepsLedgerBacked | frontend/main.py:406-413 | every surviving row names a file that the delete did not remove |
| Frontend.NewNames | frontend/main.py:366-373 | the appended names are exactly the uploaded names not already recorded, each once |
| Frontend.NewNamesSnoc | frontend/main.py:367-373 | one more upload is appended iff it is neither recorded nor already appended in this pass |
| Frontend.NewNamesConcat | frontend/main.py:366-373 | two upload batches append the first's new names then the second's, excluding the first batch's names |
| Frontend.ReadRecordedNames | frontend/main.py:359-364 | the set read line by line is the set of stripped lines |
| Frontend.AppendNewNames | frontend/main.py:366-373 | the dedup loop writes exactly NewNames(existing, uploaded), in upload order |
| Frontend.RecordUploadedNames | frontend/main.py:358-373 | uploaded_files.txt becomes RecordedNames(old, uploaded): unchanged for an empty upload, else created if missing with the new names after the existing lines; nothing else changes |
| Frontend.RecordedNamesStayNormal | frontend/main.py:358-373 | recording whitespace-free names into a duplicate-free, whitespace-free list keeps it duplicate-free and whitespace-free |
| Frontend.NormalAppend | frontend/main.py:366-371 | appending fresh, distinct, whitespace-free names keeps a list duplicate-free and whitespace-free |
| Frontend.NewNamesAllSeen | frontend/main.py:369-373 | nothing is appended when every uploaded name is already recorded |
| Frontend.UnpaddedLineRecorded | frontend/main.py:361-364 | a whitespace-free line is among the names read back |
| Frontend.RecordedNamesIdempotent | frontend/main.py:358-373 | recording the same whitespace-free batch twice appends nothing the second time |
| Frontend.PaddedNameRecordedTwice | frontend/main.py:361-370 | a name with leading whitespace uploaded twice is listed twice |
| Frontend.PaddedNameNotRecorded | frontend/main.py:361-370 | such a name is not among the stripped lines of a list holding only it |
| Frontend.FirstUploadRecorded | frontend/main.py:358-373 | the first upload into a missing list creates it with that one name |
| Frontend.RecordedNames | frontend/main.py:358-373 | a non-empty upload keeps the existing lines as a prefix, and every listed name was either there or uploaded |
| Frontend.NewNamesSingle | frontend/main.py:367-373 | a single upload is appended iff it is not recorded |
| Frontend.IsTranscriptName | frontend/main.py:182 | a transcript name has a dot four or five characters from its end |
| Frontend.NewBlobs | frontend/main.py:181-184 | no more names than listed; each selected name is listed, a transcript and not recorded |
| Frontend.NewBlobsExactly | frontend/main.py:181-184 | a blob is selected iff it is listed, its lower-cased name ends with .docx or .pdf and it is not in processed_files.txt |
| Frontend.SelectNewBlobs | frontend/main.py:181-184 | the selection loop collects exactly NewBlobs, in listing order |
| Frontend.NewBlobsSnoc | frontend/main.py:181-184 | one more listed blob is appended to the selection iff it is a transcript and not recorded |
| Frontend.RecordedBlobs | frontend/main.py:176-194 | processed_files.txt keeps its lines as a prefix and gains at most `downloads` names, each a transcript not listed before |
| Frontend.FetchedBlobs | frontend/main.py:186-194 | the blobs written into the folder: listed transcripts not recorded before, the recorded ones in order plus at most the one whose download raised |
| Frontend.AppendProcessedBlob | frontend/main.py:193-194 | one name is appended to processed_files.txt and nothing else changes |
| Frontend.DownloadBlob | frontend/main.py:187-191 | the folder listing becomes WithDownload of the old one: the blob's name joins the knowledge-base folder (replacing a same-named file) and nothing else changes |
| Frontend.WithDownload | frontend/main.py:188-191 | the folder afterwards holds its old files and the downloaded name |
| Frontend.ProcessDocuments | frontend/main.py:63-80 | db_exist is true iff the "documents" build saved an index and wrote the ledger; the state changes as the build's do |
| Frontend.KeepsHistoryTrans | frontend/main.py:186-195 | keeping the index and ledger as prefixes over two rebuilds keeps them over both |
| Frontend.FetchAndBuild | frontend/main.py:186-195 | one download, its name recorded and a merge rebuild over the folder with the download: the index and ledger are exactly what that build saves (IndexAfterBuild, LedgerAfterBuild over IngestOf and SavedChunks) or unchanged, and exactly the first MovedCount files move to the processed folder; hence the name joins the files, files without a loader, the fetched blob included, stay in the folder and block this pass's rebuild, and the index and ledger only grow |
| Frontend.FetchStep | frontend/main.py:186-195 | the facts one pass hands to the next: the name recorded, the union of the folders, files without a loader kept, no index or ledger change when the folder or the fetched blob holds such a file, the index and ledger history |
| Frontend.FetchNewBlobs | frontend/main.py:186-195 | the first min(downloads, selected) blobs are fetched, recorded in order and merged, with the same guarantees summed over the loop |
| Frontend.CopyAndProcessFiles | frontend/main.py:166-198 | the knowledge-base folder exists afterwards; processed_files.txt gains the selected names of the downloads that succeeded, in order; the folder and the processed folder together hold the old files plus every fetched blob, including the one whose download raised; fetched or older files without a loader stay in the folder, and if one was in the folder before the refresh the index and ledger do not change (a blob without a loader fetched during the refresh blocks each later pass, which FetchAndBuild states per pass); the index and, once an index exists, the ledger only grow; a ledger backed by the processed folder stays backed |
| Frontend.RecordedBlobsStayDistinct | frontend/main.py:181-194 | a duplicate-free processed list stays duplicate-free after a refresh |
| Frontend.RefreshSelectsNothingTwice | frontend/main.py:181-194 | after a refresh whose downloads all succeed, refreshing the same listing selects nothing |
| Frontend.UpperCaseBlobRefusedByIngestion | frontend/main.py:181-184 | a name like "minutes.PDF" is selected for download, but ingestion reads its extension as ".PDF", which has no loader |
| Frontend.UpperCasePdfIsTranscript | frontend/main.py:182 | a ".PDF" name passes the lower-cased suffix test |
| Frontend.UpperCasePdfExt | src/db_utils.py:65-66 | ingestion reads the extension of stem.PDF as ".PDF" |
| Frontend.ReadText | frontend/main.py:262-279 | the text is TranscriptText: paragraphs each followed by a newline for .docx, pages run together for .pdf, and "Unsupported file format" otherwise |
| Frontend.TranscriptText | frontend/main.py:262-279 | a .docx path gives the newline join of the paragraphs and a final empty piece, a .pdf path the pages run together, anything else "Unsupported file format" |
| Frontend.ReadParagraphs | frontend/main.py:265-268 | the paragraph loop builds each paragraph followed by a newline |
| Frontend.ReadPages | frontend/main.py:273-277 | the page loop runs the pages' text together |
| Frontend.JoinLinesIsJoin | frontend/main.py:265-268 | the .docx text is the newline join of the paragraphs and a final empty piece |
| Frontend.JoinLinesSplit | frontend/main.py:265-268 | splitting the .docx text on newlines gives the paragraphs back, plus one empty piece |
| Frontend.ConcatAppend | frontend/main.py:273-277 | the .pdf text of a split page list is the first part's text followed by the second's |
| Frontend.ConcatCons | frontend/main.py:273-277 | one more leading page puts its text in front |
| Frontend.ConcatEmptyIff | frontend/main.py:273-277 | every page's text fits in the .pdf text, and that text is empty iff every page is empty |
| Frontend.UpperCaseSuffixUnsupported | frontend/main.py:262-279 | the suffix test is case-sensitive: ".DOCX" and ".PDF" paths yield "Unsupported file format" |
| Frontend.CapitalizeAll | frontend/main.py:293 | every word capitalised, in place |
| Frontend.JoinCapitalized | frontend/main.py:293 | the heading is the first word capitalised followed by the other words, each after a space |
| Frontend.TitleCaseWords | frontend/main.py:293 | the character-by-character rule equals the first word capitalised (or lower-cased) followed by the other words, each after a space |
| Frontend.Heading | frontend/main.py:293 | the heading is the character-by-character title-case rule applied to the key: same length, no '_' left |
| Frontend.TitleCase | frontend/main.py:293 | same length as the key, no '_' left, and every '_' becomes a space in place |
| Frontend.TwoWordHeading | frontend/main.py:292-293 | two lower-case words joined by '_' give "First Second" (abstract_summary gives Abstract Summary) |
| Frontend.CapitalizeLowerWord | frontend/main.py:293 | capitalising a lower-case word only upper-cases its first letter |
| Frontend.SplitExtRoot | frontend/main.py:282 | splitext's root is a prefix of the path; when it differs it stops at the last dot, after which there is no '.' or '/' |
| Frontend.SplitExtRootOfName | frontend/main.py:282 | splitext drops exactly ".ext" from stem.ext when the stem has a non-dot character |
| Frontend.SplitExtRootKeepsName | frontend/main.py:282 | a name without a dot, or whose only dots lead it, is its own root |
| Frontend.OutputFileName | frontend/main.py:282-289 | "Meeting_Minutes_", then a prefix of the upload's name, then ".docx" |
| Frontend.OutputFileNameOfUpload | frontend/main.py:282-289 | an upload stem.ext gives Meeting_Minutes_stem.docx |
| Frontend.OutputPath | frontend/main.py:286-289 | the document lands directly in home + "/Downloads/", under the generated file name |
| Frontend.MinutesBlocks | frontend/main.py:291-297 | three blocks per section |
| Frontend.MinutesBlocksSection | frontend/main.py:291-297 | section i occupies blocks 3i to 3i+2: its heading, its text and an empty paragraph |
| Frontend.LayOutMinutes | frontend/main.py:291-297 | the section loop produces exactly MinutesBlocks, in section order |
| Frontend.SaveAsDocx | frontend/main.py:281-299 | the document is saved at OutputPath(home, filename) with MinutesBlocks as its content |
| GptUtils.SelectModel | src/gpt_utils.py:72-90 | an error exactly when the token count is missing; otherwise one of the two configured model identifiers |
| GptUtils.SelectTier | src/gpt_utils.py:79-88 | an error iff the token count is missing; otherwise the default tier iff tokens + max_tokens < 3750 and the large-context tier iff the total is 3750 or more |
| GptUtils.SelectTierMonotone | src/gpt_utils.py:79-81 | more tokens or a larger max_tokens never switches from the large-context model back to the default |
| GptUtils.CompletionRequest | src/gpt_utils.py:92-113 | the request uses the selected model, the messages unchanged, the given temperature and the same max_tokens; functions and function_call "auto" are sent iff the function list is non-empty; an error iff the token count is missing |
| GptUtils.CompletionRequestDefaults | src/gpt_utils.py:92-113 | with the default arguments the request offers no functions, uses temperature 0.5 and max_tokens 1750, and keeps the default model iff the prompt has fewer than 2000 tokens |
| GptUtils.MinutesRequest | src/gpt_utils.py:132-196 | an extractor request: the large-context model at temperature 0, exactly two turns (the instruction as system, the transcription unchanged as user), no max_tokens and no functions |
| GptUtils.AbstractSummaryRequest | src/gpt_utils.py:132-147 | the large-context model at temperature 0 with the abstract-summary instruction as system turn and the transcription as user turn |
| GptUtils.KeyPointsRequest | src/gpt_utils.py:157-172 | the large-context model at temperature 0 with the key-points instruction as system turn and the transcription as user turn |
| GptUtils.ActionItemRequest | src/gpt_utils.py:182-197 | the large-context model at temperature 0 with the action-item instruction as system turn and the transcription as user turn |
| Prompts.SummarizeText | src/prompts.py:4-18 | three messages with roles system, user, assistant; the user content is "####" + text + "####"; the assistant content is the fixed primer |
| Prompts.SummarizeTextDefaultLimit | src/prompts.py:4-11 | without a word limit the prompt is the one for 250, and its system turn contains "250" |
| Prompts.DefaultWordLimitDecimal | src/prompts.py:4-9 | the default limit is written as "250" |
| Prompts.SummarizeTextInputOnlyInUserTurn | src/prompts.py:7-16 | the text reaches only the user turn: system and assistant turns do not depend on it, and different texts give different user turns |
| Prompts.SummarizeTextUndelimit | src/prompts.py:6-14 | dropping the four-character delimiter from both ends of the user turn gives the text back |
| Prompts.SummarySystemMessage | src/prompts.py:7-11 | the system turn contains the delimiter and the decimal word limit |
| Prompts.SummarySystemMessageInjective | src/prompts.py:7-11 | different word limits give different system turns |
| Prompts.PromptDocQa | src/prompts.py:20-37 | the template declares exactly the variables context and question |
| Prompts.PromptDocQaPlaceholders | src/prompts.py:23-35 | every declared variable's placeholder occurs in the template, {context} before {question} |

## Left out

- The Streamlit UI is not modelled: forms, tabs, buttons, toasts, session state and `frontend/pages/settings.py`. Only the state changes behind the buttons are modelled.
- Azure Blob Storage is not modelled. Listing arrives as a sequence of names, and downloading is a count of downloads that succeed before one raises. The `for blob.name in new_docx_files` reassignment and `get_blob_client(blob)` are not modelled. A downloaded file that is new to the folder is listed after the existing ones; `os.listdir` order is otherwise not modelled.
- OpenAI, LangChain and FAISS are not modelled: `validate_key`, `retrieval_qa`, the completion calls, embedding, `merge_from`, save and load, and MMR search. The index is the list of chunks it was built from. Merging is concatenation. Embedding success is a boolean.
- The text splitter (chunking), the document loaders, PyPDF2, python-docx and tiktoken become parameters.
- Wall-clock time becomes parameters: `time.time()` is given as start and end times, and `datetime.now()` as a clock per ledger row.
- The front end's `input_documents` is left out. It forwards to `run_db_build` and the settings page.
- `Frontend.ProcessDocuments`: `st.session_state.gpt` is taken to be set, so reading its embeddings does not raise; the error message is not modelled.
- `Frontend.CopyAndProcessFiles`: the folders after the refresh are stated through their union (old files plus the fetched blobs), not as which files were moved; the index and the ledger are stated as growth (old contents kept as a prefix) and as the blocking effect of a file without a loader that was in the folder before the refresh; the blocking effect of one fetched during the refresh is stated per pass by `Frontend.FetchAndBuild`, not over the whole loop. Their exact contents after each rebuild are what `FetchAndBuild` states for that rebuild.
- `Frontend.FetchNewBlobs`: the same summary as `Frontend.CopyAndProcessFiles`, carried as its loop invariant through `Frontend.FetchStep`; the exact state after each pass is stated by `Frontend.FetchAndBuild`, not accumulated over the loop.
- `delete_folder_contents` and `write_uploaded_files` are in the settings page, which is not part of this model.
- `Text.Lower`, `Text.Capitalize`, `Text.StripAll`: only ASCII letters change case and only ASCII whitespace is stripped. Python's Unicode tables are not modelled.
- File names are taken as plain names. A name containing '/' (an absolute or nested path) or a newline is outside the model of the folders and name lists.
- `Frontend.DeleteRowsFromCsv`: a PermissionError or other failure while writing is not modelled; only the missing-file cases are. The ledger is modelled as its data rows; its fixed header row is not modelled.
- `Frontend.DropUploadedTranscripts`: the processed-documents folder is taken to exist. A missing folder holds no name, so deleting from it changes nothing.
- `Frontend.RecordUploadedNames`: the dedup loop uses the working-directory path `uploaded_files.txt`, while the Delete button uses the project-root path. The model treats them as one file, as when the application is started from the project root.
- `Frontend.RecordUploadedNames`: the file contents after each single write are not modelled. The new names are appended as one batch, giving the same final file.
- `Frontend.SaveAsDocx`: the minutes dictionary is a sequence of (key, text) pairs in insertion order. The document is its list of blocks, and writing it, the success message and the uploads clean-up are not modelled.
- `GptUtils.SelectModel`: the token count of `str(messages)` is an input, not computed.
