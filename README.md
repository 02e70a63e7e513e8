# SDR-Rewind chunk store, in Dafny

SDR-Rewind keeps a rolling window of recently captured radio samples on disk
and lets a user cut out ("rewind to") any part of that window afterwards. The
store is one directory of chunk pairs: `<ms>.iq` holds raw samples and
`<ms>.json` holds the chunk descriptor (center frequency, sample rate,
`timestamp_utc`, `duration_s`). The stem is the chunk's start time in integer
milliseconds. This project models that directory and the three operations
that change or read it:

- **Retention pruner** (`prune_seconds`, module `Retention`). It lists the
  descriptors in file-name order and walks them newest-first, adding up
  `duration_s`. It keeps every chunk it visits and stops right after the total
  reaches `buffer_sec`. Then it deletes both files of every chunk it did not
  keep.
- **Window extractor** (`extract_slice`, module `Extraction`). It resolves a
  window relative to "now". It selects every chunk whose descriptor parses
  and whose interval meets the window. It orders the selection by descriptor
  timestamp, concatenates the `.iq` files into the output file, and writes an
  output descriptor taken from the earliest chunk.
- **One capture iteration** and the capture loop around it (`capture_loop`,
  module `Capture`). The iteration writes `<t0 ms>.iq` and then
  `<t0 ms>.json`, and prunes. The loop also covers the driver checks and the
  gain fallback.

Module `Chunks` holds the data model. The directory is a
`map<nat, Chunk>` inside the class `ChunkDir`, and a `Chunk` is an optional
descriptor plus an optional byte sequence. A descriptor is either `Garbled`
(not a JSON object, or unreadable) or `Parsed(meta)`. Each field of `meta` is
optional. For `timestamp_utc`, None means the key is absent or its value does
not convert. For `duration_s`, None means the key is present but `float` does
not convert its value. An absent `duration_s` is `Some(0)`, the default the
code passes to `get`, so the extractor still selects such a chunk with
duration 0. `center_freq_hz` and `samp_rate_hz` are copied and
never converted, so for them None means only that the key is absent. A stem
with neither file is not in the map (`WellFormed`). The `ChunkDir`
constructor requires this, and every method that changes the directory keeps
it: the file operations, `PruneSeconds`, `CaptureChunk` and `CaptureLoop`.
The file operations are methods of `ChunkDir` that reassign the map: write
`.iq`, write `.json`, unlink either file (a missing file is ignored), and the
sorted glob.

Modelling choices:

- Times and durations are integer milliseconds. `buffer_sec` and `chunk_sec`
  stay whole seconds and are multiplied by 1000 where they are compared with
  durations. Since both are integers in the source, this is exact.
- Stems are naturals of equal width, so sorting file names sorts stems.
- The pruner orders chunks by stem (the file name). The extractor orders them
  by the `timestamp_utc` field, which capture takes after the device read, so
  it is not the stem. The model keeps the two keys apart: `Frame.t0Ms` names
  the chunk, and `Frame.stampMs` goes into the descriptor.
- The enumeration order of `glob("*.json")` in the extractor is the parameter
  `order`, a listing of the descriptor stems with no repeats. Python's sort is
  stable, and so is `SortByTime` (`SortStable`): chunks with equal timestamps
  come out in enumeration order. On such a tie, the first-enumerated chunk is
  the one whose frequency and rate go into the output descriptor. Order
  independence is therefore proved only for distinct timestamps.
- "Now", the time written into the output descriptor, the device's samples
  and the stop signal are all parameters. A capture session is the sequence of
  frames read before the stop signal is seen.

Behaviours of the code that a reader might not expect, which the model keeps:

- The overlap test is `t <= end and t + dur >= start`, inclusive at both ends
  (sdrrewind.py:139). A chunk that only touches the window, ending exactly
  where the window starts, is selected (`TouchingChunkSelected`).
- A selected chunk whose `.iq` is missing is not skipped. `read_bytes` raises
  (sdrrewind.py:150), so the extraction fails. The output file is left with
  the bytes written so far, and the output descriptor is not written.
- A garbled descriptor is not excluded from pruning. It counts as duration 0
  and is still kept or deleted like any other chunk (sdrrewind.py:102-108).
- A descriptor whose `.iq` file is missing still counts in pruning. Its
  `duration_s` adds to the total like any other, and the pruner never looks
  at the `.iq` file (sdrrewind.py:101-108). `PruneDuration` depends on the
  descriptor alone.
- The pruner orders by file name, not by the timestamp inside the descriptor.
- The docstring says "prune to keep <= buffer_sec" (sdrrewind.py:34). The
  code keeps at least `buffer_sec` whenever that much is on disk
  (`RetentionCoversBuffer`), and, for a positive buffer, less than
  `buffer_sec` plus the longest chunk (`RetentionBound`). A buffer of 0 or
  less still keeps the newest chunk (`PruneKeepsNewest`).

## Model

| member | source | states |
|---|---|---|
| `Chunks.Ascending` | sdrrewind.py:98 | the sorted listing is strictly increasing and holds exactly the stems given |
| `Chunks.IncreasingUnique` | sdrrewind.py:98 | two strictly increasing listings of the same stems are equal, so the sorted listing is determined by the directory |
| `Chunks.ChunkDir.SortedDescriptorStems` | sdrrewind.py:98 | returns the stems of all `.json` files in ascending order |
| `Chunks.UnlinkPair` | sdrrewind.py:116-121 | unlinking `.json` then `.iq`, ignoring missing files, removes exactly that chunk, whichever of its files existed |
| `Chunks.WithSamples` | sdrrewind.py:82 | after writing `<stem>.iq` the stem holds exactly those samples, and a well-formed directory stays well-formed |
| `Chunks.WithDescriptor` | sdrrewind.py:83 | after writing `<stem>.json` the stem holds exactly that descriptor, and a well-formed directory stays well-formed |
| `Chunks.WithoutDescriptor` | sdrrewind.py:117-121 | after the unlink the stem has no `.json`, and a well-formed directory stays well-formed |
| `Chunks.WithoutSamples` | sdrrewind.py:116-121 | after the unlink the stem has no `.iq`, and a well-formed directory stays well-formed |
| `Chunks.ChunkDir.WriteSamples` | sdrrewind.py:82 | `<stem>.iq` now holds the samples; the stem's descriptor and every other stem are unchanged |
| `Chunks.ChunkDir.WriteDescriptor` | sdrrewind.py:83 | `<stem>.json` now holds the descriptor; the stem's samples and every other stem are unchanged |
| `Chunks.ChunkDir.UnlinkDescriptor` | sdrrewind.py:117-121 | removes `<stem>.json` if present, and the stem once neither file is left |
| `Chunks.ChunkDir.UnlinkSamples` | sdrrewind.py:116-121 | removes `<stem>.iq` if present, and the stem once neither file is left |
| `Retention.CutFrom` | sdrrewind.py:101-110 | walking down from index i, the walk stops at the first index whose newest-first total reaches the buffer, or at the oldest chunk |
| `Retention.PruneDuration` | sdrrewind.py:102-106 | the duration counted is the descriptor's `duration_s`, and 0 for a garbled descriptor or a value `float` does not convert; the `.iq` file plays no part |
| `Retention.Cut` | sdrrewind.py:99-110 | the newest chunk is always kept; no shorter newest-first run reaches the buffer; when something is deleted, the kept run reaches it |
| `Retention.CutUnique` | sdrrewind.py:101-110 | those three facts determine the cut |
| `Retention.NothingDeletedIff` | sdrrewind.py:107-115 | nothing is deleted if and only if no proper newest-first run of chunks reaches the buffer |
| `Retention.RetentionCovers` | sdrrewind.py:107-115 | for non-negative durations: a history shorter than the buffer loses nothing, and otherwise the kept chunks sum to at least the buffer |
| `Retention.RetentionOvershoot` | sdrrewind.py:107-110 | for a positive buffer, the kept chunks minus the oldest kept sum to less than the buffer |
| `Retention.CutOfKept` | sdrrewind.py:101-110 | applied to what was kept, the cut deletes nothing |
| `Retention.Pruned` | sdrrewind.py:112-121 | every chunk left after a prune is unchanged, and a stem with no `.json` is never removed |
| `Retention.PrunedWellFormed` | sdrrewind.py:112-121 | a prune, which removes both files of a stem together, never leaves a stem with neither file |
| `Retention.PruneRemovesOlder` | sdrrewind.py:112-121 | a chunk with a descriptor survives if and only if it is in the newest-first kept run; otherwise both its files are gone |
| `Retention.PruneKeepsNewest` | sdrrewind.py:101-110 | the chunk with the greatest stem survives unchanged, so some descriptor survives whatever the buffer |
| `Retention.PrunedListing` | sdrrewind.py:112-121 | the sorted listing after a prune is the kept suffix of the listing before it |
| `Retention.PrunedFiles` | sdrrewind.py:112-121 | after a prune the listing and its durations are the kept suffixes of the old ones |
| `Retention.PruneIdempotent` | sdrrewind.py:97-121 | a second prune with no new chunk deletes nothing |
| `Retention.RetentionBelowBuffer` | sdrrewind.py:107-115 | with non-negative durations, a directory holding less than the buffer is left as it is |
| `Retention.RetentionCoversBuffer` | sdrrewind.py:107-110 | whatever the durations, a directory holding at least the buffer keeps at least the buffer |
| `Retention.RetentionBound` | sdrrewind.py:107-110 | with chunks of at most d ms and a positive buffer, less than buffer + d is kept |
| `Retention.RetentionWindow` | sdrrewind.py:97-121 | the three retention facts together, for chunks of 0 to d ms |
| `Retention.KeepNewest` | sdrrewind.py:99-110 | the first loop keeps exactly the listing from the cut onwards |
| `Retention.DeleteUnkept` | sdrrewind.py:112-121 | the second loop removes exactly the listed stems that are not kept, and nothing else |
| `Retention.NotKeptIsOlder` | sdrrewind.py:112-115 | the listed stems outside the kept set are exactly those before the cut |
| `Retention.PruneSeconds` | sdrrewind.py:97-121 | the directory afterwards is `Pruned(old directory, buffer_sec * 1000)` |
| `Extraction.Resolve` | sdrrewind.py:126-128 | the window starts `start_rel` after now and spans `duration` |
| `Extraction.Overlaps` | sdrrewind.py:139 | a chunk of non-negative duration starting inside the window passes |
| `Extraction.OverlapsMeetsWindow` | sdrrewind.py:139 | for a non-negative duration and a window that does not run backwards, the test passes exactly when `[t, t + dur]` and `[start, end]` share an instant |
| `Extraction.Candidate` | sdrrewind.py:132-140 | an entry built from a descriptor carries that descriptor's stem |
| `Extraction.Selected` | sdrrewind.py:130-140 | an entry is collected if and only if its stem is enumerated and its descriptor parses with a timestamp and a numeric duration whose interval meets the window (inclusive) |
| `Extraction.SelectedOnce` | sdrrewind.py:131-140 | with each descriptor enumerated once, each entry is collected at most once |
| `Extraction.CollectEntries` | sdrrewind.py:130-140 | the collecting loop returns exactly `Selected` for the enumeration order |
| `Extraction.Insert` | sdrrewind.py:142 | insertion keeps the list sorted by timestamp and adds exactly the one entry |
| `Extraction.SortByTime` | sdrrewind.py:142 | the sort returns a permutation sorted ascending by timestamp |
| `Extraction.InsertStable` | sdrrewind.py:142 | insertion puts the new entry ahead of every entry with the same timestamp and keeps their order |
| `Extraction.SortStable` | sdrrewind.py:142 | the sort is stable: for every timestamp, the entries carrying it come out in their input order |
| `Extraction.SortedUnique` | sdrrewind.py:142 | with distinct timestamps, two sorted permutations of the same entries are equal |
| `Extraction.Plan` | sdrrewind.py:142 | the sorted selection holds exactly the selected entries |
| `Extraction.PlanIndependentOfOrder` | sdrrewind.py:131-142 | with distinct timestamps, the output order does not depend on the directory's enumeration order |
| `Extraction.FirstMissing` | sdrrewind.py:148-150 | every entry before the returned index has its `.iq`, and the entry at it (if any) does not |
| `Extraction.Concat` | sdrrewind.py:148-150 | the output starts with the `.iq` bytes of the first entry |
| `Extraction.ConcatAppend` | sdrrewind.py:147-150 | writing two runs of entries one after the other gives their two concatenations one after the other |
| `Extraction.StreamSamples` | sdrrewind.py:147-150 | the output holds the `.iq` bytes of the entries before the first missing one, and the missing stem is reported |
| `Extraction.SliceFiles.Create` | sdrrewind.py:147 | the output file exists and is empty; the output descriptor is untouched |
| `Extraction.SliceFiles.Append` | sdrrewind.py:150 | the bytes are appended to the output file |
| `Extraction.SliceFiles.WriteDescriptor` | sdrrewind.py:162 | the output descriptor is written; the output file is untouched |
| `Extraction.CaptureParams` | sdrrewind.py:152-155 | the parameters are present exactly when the descriptor parses and has both `center_freq_hz` and `samp_rate_hz`, and they are those values |
| `Extraction.ExtractSlice` | sdrrewind.py:125-163 | no chunk in the window: failure, and neither output file is touched; otherwise the output holds the `.iq` bytes in timestamp order, up to the first missing `.iq` (failure); on success the descriptor carries the earliest chunk's frequency and rate and the requested `(start_rel, duration)` verbatim |
| `Extraction.OverlapExample` | sdrrewind.py:139 | chunks at 0, 5, 10 and 15 s of 5 s each against the window 3 s to 12 s: the first three are selected |
| `Extraction.TouchingChunkSelected` | sdrrewind.py:139 | a chunk that ends exactly at the window start is selected |
| `Capture.DeviceGain` | sdrrewind.py:46-52 | the gain is automatic for "auto" and for text `float` does not convert, and otherwise the number requested of the device |
| `Capture.ChunkMeta` | sdrrewind.py:75-81 | the descriptor carries the read-time timestamp and `duration_s = chunk_sec` |
| `Capture.Written` | sdrrewind.py:82-83 | writing `.iq` then `.json` leaves the stem with exactly the new descriptor and samples |
| `Capture.CaptureStep` | sdrrewind.py:70-85 | after one iteration every chunk other than the new one is an old chunk as it was, and an `.iq` without a descriptor that the frame did not overwrite is still there |
| `Capture.CaptureAll` | sdrrewind.py:69-85 | after a session every chunk that no frame wrote is an old chunk as it was, and an `.iq` without a descriptor that no frame overwrote is still there |
| `Capture.CaptureKeepsPairs` | sdrrewind.py:82-85 | if every descriptor has its `.iq` beside it before an iteration, the same holds after it |
| `Capture.NewChunkSurvives` | sdrrewind.py:73-85 | a chunk named later than every chunk on disk survives its own prune with both files |
| `Capture.CaptureRetention` | sdrrewind.py:79-85 | with every duration on disk between 0 and the configured chunk length: that bound is kept; below the buffer nothing is deleted; otherwise at least the buffer is kept; with a positive buffer, less than buffer + one chunk is kept |
| `Capture.SessionRetention` | sdrrewind.py:69-85 | after any number of iterations every duration on disk stays between 0 and the configured chunk length; after at least one iteration with a positive buffer, less than buffer + one chunk stays on disk |
| `Capture.CaptureChunk` | sdrrewind.py:70-85 | one iteration writes both files of the frame and then prunes |
| `Capture.CaptureLoop` | sdrrewind.py:32-95 | an unsupported driver or a missing library exits before touching the directory; otherwise one iteration runs per frame, the gain is `DeviceGain`, and paired files stay paired |

## Left out

- Device construction, configuration, `read_samples`, `close` and the numpy conversions (sdrrewind.py:43-45, 54, 71, 82, 91-95) are foreign hardware and library calls. A gain that `float` converts but the device's setter rejects also falls back to automatic (sdrrewind.py:50-52); the model assumes the device accepts every number, so `DeviceGain` gives the number requested. The samples of each read arrive in `Frame.samples`, and `samples_per_chunk` is not modelled. Whether the import at sdrrewind.py:13-16 succeeded is the flag `Config.libraryPresent`.
- The signal handlers and the `running` flag (sdrrewind.py:57-64) are asynchronous. A session is the finite sequence of frames read before the stop is seen, so an iteration is never cut short.
- Wall-clock time, the post-chunk sleep and `utcnow_iso` (sdrrewind.py:20-21, 70, 87-90) are clock arithmetic. Times enter as integer milliseconds in `Frame` and in the parameters of `ExtractSlice`.
- JSON text and ISO-8601 parsing (sdrrewind.py:27-28, 103, 133-134) are not modelled. A descriptor is a record with optional fields, or `Garbled`.
- Float values are not modelled. Durations, times and windows are integer milliseconds, and frequencies and rates enter already truncated by `int()`. The gain is "auto" or text that does or does not convert to a number.
- `ensure_dir`, `replay_stub` and the CLI `main` (sdrrewind.py:23-25, 167-213) are plumbing and a print-only stub.
- Concurrency between a capture and an extraction is not modelled: each operation runs against one fixed directory state. The extractor re-reads the earliest descriptor at sdrrewind.py:152, and the model reads the same state it selected from.
- The output file is modelled apart from the chunk directory. An output path inside the capture directory, which a later glob would pick up, is not modelled.
- Capture.CaptureRetention and Capture.SessionRetention assume every descriptor already on disk has a duration between 0 and the configured chunk length. The pruner itself accepts any durations, and `Retention.Cut` and `Retention.NothingDeletedIff` hold for any durations, negative ones included.
- Extraction.PlanIndependentOfOrder assumes the selected timestamps are distinct. With equal timestamps, the stable sort keeps the enumeration order.
- I/O errors other than a missing file are not modelled. Examples are a `PermissionError` from `unlink`, which only `FileNotFoundError` guards (sdrrewind.py:118-121), and a failed `write_json` (sdrrewind.py:83). In the source they end the prune part-way and the capture session with it. In the model, `UnlinkDescriptor`, `UnlinkSamples`, `WriteSamples` and `WriteDescriptor` always succeed. Likewise, an unreadable earliest descriptor when the extractor re-reads it (sdrrewind.py:152) is not modelled.
- A present `center_freq_hz` or `samp_rate_hz` that is not an integer is not modelled. The source copies any value, such as a string, a float or `null`, into the output descriptor (sdrrewind.py:154-155), while `Meta` can hold only an integer or an absent key.
- A `timestamp_utc` without a time zone is not modelled. `fromisoformat` then returns a naive time, and the comparison at sdrrewind.py:139, which lies outside the `try`, raises `TypeError`, so the whole extraction aborts. In the model, a timestamp either converts to milliseconds or makes the descriptor skipped.
