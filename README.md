# file_crawler, modelled in Dafny

file_crawler takes snapshots ("crawls") of the immediate children of a set of
directories and compares two crawls. This project models its core from
`src/main.rs`:

- `entries.dfy` (module `Entries`): `EntryType`, `EntryInfo` with its identity
  `(type, path, octets)` and its hash key, `Crawl` with the hand-written
  equality that ignores the date, and `octets_is_zero`.
- `args.dfy` (module `Args`): `read_args`. It is a loop over the arguments,
  each either text or invalid Unicode (where the argument iterator panics).
  The four process-wide flags become a `Flags` value that the scan returns.
- `read_path.dfy` (module `ReadPath`): the per-child loop of `read_path`. It
  turns one directory listing into one batch. The filesystem's answers for
  each child are inputs: listed, still exists, is-file, is-dir, path string
  and metadata length.
- `recorder.dfy` (module `Recorder`): the receive loop of `file_recorder` and
  the crawl it builds. The channel is the finite sequence of signals the
  recorder receives, in arrival order, and the end of that sequence is the end
  of the stream.
- `compare.dfy` (module `Compare`): the pure part of `compare_analysis`,
  meaning the intersection and difference of the two entry sets and the two
  loops that turn them into report lines.

Three behaviours of the code a reader might not expect:

- A directory that cannot be opened sends no batch at all. It does not send
  an empty one (`read_path` returns early at src/main.rs:406-417). The recorder
  still ends, because `Close` is queued after every scan has finished.
  `Recorder.RecordsEverySentBatch` proves that the crawl is then the union of
  the batches that were sent.
- The report only ever holds `NoChange` and `New` lines. The `New` lines are
  the entries of the first crawl that are missing from the second, not the
  other way round (see Findings).
- With zero jobs, the recorder does not finish at once. It runs until the
  stream ends (`Recorder.RunsToEndOfStream`).

## Model

| member | source | states |
|---|---|---|
| `Entries.HashKeyIdentifies` | src/main.rs:188-194 | two entries hash the same key iff they are equal, so hashing agrees with the derived equality |
| `Entries.SizeIsPartOfIdentity` | src/main.rs:177-194 | the same type and path with different octets are two set members; equal octets collapse to one |
| `Entries.CrawlEqIgnoresDateTime` | src/main.rs:208-215 | crawl equality holds iff the crawls are equal once their dates are made equal: revision, count and entry set all match, and the date is ignored |
| `Entries.CrawlEqIsEquivalence` | src/main.rs:196-215 | crawl equality is reflexive, symmetric and transitive, as `Eq` requires |
| `Args.FirstStop` | src/main.rs:46-52 | index of the first argument that ends the scan: none before it is a help argument or invalid, and the one at it is, unless it is the end |
| `Args.ReadArgs` | src/main.rs:44-59 | the scan proceeds iff no argument is `-h`/`--help` or invalid Unicode; it returns None iff a help argument precedes every invalid one, and the iterator panics iff an invalid argument precedes every help argument; each flag ends true iff its short or long form occurs before the argument that ends the scan |
| `Args.UnrecognisedArgumentIgnored` | src/main.rs:47-53 | inserting a valid unrecognised argument anywhere changes neither the flags nor how the scan ends |
| `ReadPath.ToEntryFields` | src/main.rs:432-458 | type is File iff is-file, Directory iff is-dir and not is-file, Unknown otherwise; the path is the converted string or "Invalid path"; the octets are the metadata length or 0 |
| `ReadPath.BatchContents` | src/main.rs:422-467 | the batch has one entry per child that listed and still exists, never more entries than children, and holds exactly those children's entries |
| `ReadPath.BatchAppend` | src/main.rs:422-467 | the batch of concatenated listings is the concatenation of their batches, so listing order is kept |
| `ReadPath.ReadPath` | src/main.rs:401-480 | nothing is sent iff the directory fails to open; otherwise exactly one batch is sent, built from the children in order |
| `Recorder.FileRecorder` | src/main.rs:346-392 | the loop takes `Consumed` signals; the crawl's entries are the union of the batches taken, its count is that set's size, its revision is 1 and its date is the clock reading |
| `Recorder.ConsumedStopsAtFirstCompletion` | src/main.rs:351-370 | if the loop stops before the stream ends, the last signal it took is the batch that brought the count to `jobs_working`, and no earlier batch did; `Close` never stops it |
| `Recorder.StopsAfterLastJob` | src/main.rs:358-366 | with at least `jobs_working > 0` batches, exactly `jobs_working` batches are taken and the loop stops right after the last one, so no later batch is consumed |
| `Recorder.RunsToEndOfStream` | src/main.rs:351-370 | with fewer batches than jobs, or zero jobs, every signal is consumed |
| `Recorder.UnionAllMembers` | src/main.rs:353-356 | an entry is recorded iff some batch taken carries it, and duplicates within or across batches collapse |
| `Recorder.ArrivalOrderIrrelevant` | src/main.rs:353-356 | batches arriving in any order give the same recorded set |
| `Recorder.RecordsEverySentBatch` | src/main.rs:351-370 | when at most `jobs_working` batches are sent and then `Close`, the crawl holds exactly the union of all sent batches |
| `Compare.GroupsPartitionFirst` | src/main.rs:296-302 | the unchanged group (first ∩ second) and the New group (first − second) are disjoint, together make up the first crawl, and their sizes add up to its size |
| `Compare.PushLines` | src/main.rs:306-322 | a push loop appends one line per member of its set, each member visited exactly once, and keeps the lines already there |
| `Compare.CompareAnalysis` | src/main.rs:296-322 | one NoChange line (path present, difference 0) for each entry of first ∩ second, then one New line (difference = the entry's octets) for each entry of first − second; line count = \|first\|; no Removed or SizeChange line; comparing equal entry sets gives only NoChange |
| `Compare.ReportLines` | src/main.rs:304-322 | in a report laid out as the two loops lay it out, every line is NoChange or New, and a New line for an entry appears iff that entry is in the New group |
| `Compare.AsWrittenNewMeansVanished` | src/main.rs:300-321 | comparing an older first crawl {a} with a newer second crawl {b} gives a report of exactly one line, New for the vanished "a"; the "b" that appeared is in neither group and gets no line |
| `Compare.CompareSnapshots` | src/main.rs:296-322 | corrected comparison: the New lines are exactly the entries in the newer crawl that are not in the older one; one line per entry of the newer crawl |

## Left out

- Task spawning, `join_all`, the unbounded channel and async/await. This is
  concurrency. The channel is replaced by the sequence of received signals,
  and parallel and sequential dispatch differ only in arrival order
  (`Recorder.ArrivalOrderIrrelevant`).
- `Close` also closes the receiver so that later sends fail. This is not
  modelled, because the signal sequence already holds only what was received.
  A failed send in `read_path` only prints a message, so a failed send is the
  same as a batch that never appears in the sequence.
- Filesystem calls (`read_dir`, `exists`, `is_file`, `is_dir`, `metadata`,
  `to_str`). These are foreign I/O. Their outcomes are the fields of
  `ReadPath.Child` and `ReadPath.Listing`. The kind of an open error only
  changes a printed message.
- JSON reading and writing, and the creation and writing of the record and
  analysis files. This is I/O and library serialisation. The model returns
  the crawl or the report that would be serialised, whether or not the file
  can be created.
- `load_auto_mode_folders` (environment variables) and
  `load_manual_mode_folders` (reading `folders.json`). This is environment and
  file I/O.
- The clock (`Local::now`, `Instant`), `println!` logging and the wait on
  standard input. The date strings are a parameter `now`.
- The commented-out chunked comparison, and the scanning code in `main` that
  follows its early `return`. Both are dead code.
- The accessors for the `static mut` flags. They are replaced by the `Flags`
  value.
- `Recorder.FileRecorder`: `jobs_done` and `entry_count` are `usize`, and here
  they are unbounded naturals. Overflow would need more than 2^64 batches.
- `Args.ReadArgs`: the arguments include the program name, as `env::args` does. The
  model does not assume that name is not a flag.
- A per-(type, path) lookup that would produce `Removed` and `SizeChange`
  lines is not in the code. It is not modelled, and neither
  `Compare.CompareAnalysis` nor `Compare.CompareSnapshots` ever produces such
  a line.

## Findings

| source | as written | input that shows it | evidently intended | confidence | as-written member | corrected member |
|---|---|---|---|---|---|---|
| src/main.rs:300-321 | New lines are the entries of the first crawl missing from the second. `main` passes the older record file first (src/main.rs:73-76) | older = {File "a", 10 octets}, newer = {File "b", 20 octets}: "a" is reported New, "b" is not reported | New lines are the entries of the newer crawl missing from the older one | medium, not executed | `Compare.AsWrittenNewMeansVanished` | `Compare.CompareSnapshots` |
