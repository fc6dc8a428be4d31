# Resumable S3 multipart upload: the checkpoint protocol in Dafny

This project models the core of `S3Client`, a C++ client that uploads a local file to an S3
bucket in 52 MiB parts and can resume across runs. It resumes from a checkpoint file: the file
path with `.scp` appended.

The checkpoint has two kinds of line:
- the first line is a *descriptor*: upload id, path, size, bucket, key and part count;
- each part the store accepted appends one *part record*: etag, offset and part number.

The object store is abstract. The upload id, each part's etag or failure, and the completion
result come from an `Environment` value. The same value gives the file size and whether the
files open.

Modules, in dependency order:

- `Decimal`: the `%d`/`%zu` rendering of numbers, and `atoi`/`atoll` as "digits give their
  value, anything else gives 0".
- `S3Types`: `UploadState` and `s3_resum_info_t` from `include/s3_resumable.h`.
- `KvCodec`: `parse_kv_str` as a function on a line (`KvParse`), and the exact text of both
  line writers.
- `Checkpoint`: `parseCheckpointFile` as a function on the file's lines (`Recover`), and the
  part collection of `finishUploadMultipart` (`Collect`).
- `PartPlanner`: the part count, the parts the loop sends from a start point, and the resume
  decision.
- `UploadEngine`: one run of `uploadMultipartThread` as a function (`Attempt`), with the part
  loop (`PartLoop`) and finalisation (`Finish`).
- `S3Resumable`: the `FileSystem` disk and the `S3Client` class. The methods that run the
  upload (`ParseKvStr`, `ParseCheckpointFile`, `FinishUploadMultipart`, `PrepareCheckpoint`,
  `DecideStart`, `SendParts`, `RunUpload`, `UploadMultipartThread`) are proved equal to the
  functions above; those that change state do so in place. The others (the constructor,
  `Open`, `Close`, `UploadFrom`, `GetLastError`) state the new fields directly.

## What the code does with its own checkpoints

The model follows the code. The behaviours below are the code's own. Each is proved about the
model, except the descriptor-only hang (see "## Left out"). Where a comment in the source says
what was meant, it is cited.

- **The writers and the reader use different field separators.**
  - Both writers join fields with `:` (src/s3_resumable_upload.cpp:152, 231), but
    `parse_kv_str` splits on `,` (line 273).
  - Suppose the upload id, path, bucket and key hold no `,`. Then a written descriptor parses as
    the single pair `upload_id -> <rest of line>` (`DescriptorLineParse`).
  - A record with a comma-free etag parses as the single pair `etag -> <rest of line>`
    (`PartLineParse`).
  - A field that does hold a `,` (a local path such as `/data/a,b.bin`) splits the line into
    more pairs, which the lemmas do not cover.
  - The comment at line 369 says recovery only needs the part number and offset of the last
    record. The code writes records from which it cannot read them back.
- **Consequences, with comma-free etags** (`CommaFreeEtags`):
  - a checkpoint this code wrote never holds a usable record (`SelfWrittenHasNoUsableRecord`);
  - recovering from it yields offset 0, so an upload is never resumed (`RecoverSelfWritten`,
    `UnusableCheckpointStartsFresh`);
  - on a non-empty file, finalisation meets the first record, finds no `part_num`, and gives
    up; the run fails and the checkpoint stays (`UnusableCheckpointNeverSucceeds`);
  - in the model, retrying never helps (`RetriesNeverSucceed`).
- **A checkpoint holding only its descriptor.**
  - The code writes every line with a trailing line break.
  - With only the descriptor line, the code never takes the "file has only one line" branch
    (lines 361-368, comment at line 362). Its backward scan (lines 370-380) never returns.
  - The model does not capture this: it gives part 1 at offset 0 there (see "## Left out").
- **Recovered numbers.**
  - Recovery returns the part number and the recorded offset of the last record. The resume
    rule then adds `part_size` (lines 164-165).
  - A last line that fails to parse leaves num and offset as they were passed in
    (lines 387-392).
  - A last line without `part_num` or `offset` gives `(0, 0)` (lines 397-401).
- **Finalisation.**
  - The comment at line 470 says the checkpoint is removed whether or not completion succeeds.
    The code does that only once every record line was read. A line that does not parse, or
    has no `part_num`, returns false first and keeps the checkpoint (lines 428-441).
  - A failed completion sets `Failed` but records no error text (lines 258-259).
- **Starting an upload.**
  - `uploadFrom` checks only that the path is present and non-empty. It does not check that the
    file opens; that failure shows up later, in the thread.
  - `uploadFrom` never stores its argument, and no other method assigns `_local_file_path`.
    It keeps the empty string the constructor gives it, in the code and in the model alike.
  - So the thread always uses the checkpoint path `.scp` and reads the local path "".

## Model

| member | source | states |
|---|---|---|
| Decimal.NatToString | src/s3_resumable_upload.cpp:152-153 | the printed form of a number is a non-empty string of decimal digits, one digit exactly for numbers below 10 |
| Decimal.ParseNatOfNatToString | src/s3_resumable_upload.cpp:356-359 | atoi/atoll of a number as the writers print it gives back that number |
| Decimal.NatToStringHasNoSeparator | src/s3_resumable_upload.cpp:231-232 | a printed number holds no separator character (no ',', ':' or '=') |
| Decimal.ParseNat | src/s3_resumable_upload.cpp:356-359 | atoi/atoll: the value of a string of decimal digits, 0 for anything else (see ParseNatOfNatToString) |
| KvCodec.IndexOf | src/s3_resumable_upload.cpp:281 | find_first_of: the position of the first occurrence of the character, or the length when there is none |
| KvCodec.Pieces | src/s3_resumable_upload.cpp:271-273 | getline on ',' gives no piece for an empty line; no piece contains a comma |
| KvCodec.PiecesJoinBack | src/s3_resumable_upload.cpp:271-273 | joining the pieces with ',' gives the line back, up to the one trailing comma getline swallows |
| KvCodec.EmptyPieceIffCommaRun | src/s3_resumable_upload.cpp:273-279 | an empty piece occurs exactly when the line starts with a comma or holds two commas in a row |
| KvCodec.SplitPair | src/s3_resumable_upload.cpp:281-293 | a piece without '=' is a key with empty value; otherwise the piece is key '=' value with no '=' in the key |
| KvCodec.TrimKey | src/s3_resumable_upload.cpp:301-306 | an all-space key is left as it is; otherwise the result is the key's inner run, with no space at either end and only spaces cut away |
| KvCodec.AbsorbOkIff | src/s3_resumable_upload.cpp:273-279 | the parse loop returns false exactly when some piece is empty |
| KvCodec.KvParseOkIff | src/s3_resumable_upload.cpp:269-311 | parse_kv_str returns false exactly on a leading comma or a doubled comma |
| KvCodec.AbsorbFirstWins | src/s3_resumable_upload.cpp:295-308 | a key is in the result exactly when it was there already or some piece carries it (pieces with an empty key skipped), with the first value winning |
| KvCodec.KvParseFirstWins | src/s3_resumable_upload.cpp:295-310 | after a successful parse, each key maps to the verbatim value of its first non-empty-key occurrence and no other key is present |
| KvCodec.Absorb | src/s3_resumable_upload.cpp:273-308 | the loop over the pieces: stop with false at an empty piece, else split, skip an empty key, trim and emplace (see AbsorbOkIff, AbsorbFirstWins) |
| KvCodec.KvParse | src/s3_resumable_upload.cpp:269-311 | parse_kv_str on one line: the result and the map it fills from empty (see KvParseOkIff, KvParseFirstWins) |
| KvCodec.SinglePairLine | src/s3_resumable_upload.cpp:273-308 | a line name=rest with no comma anywhere parses as the single pair name -> rest |
| KvCodec.DescriptorLine | src/s3_resumable_upload.cpp:152-153 | the descriptor text: upload_id, path, size, bucket, key and part_count joined with ':' (see DescriptorLineParse) |
| KvCodec.PartLine | src/s3_resumable_upload.cpp:231-232 | the record text: etag, offset and part_num joined with ':' (see PartLineParse) |
| KvCodec.DescriptorLineParse | src/s3_resumable_upload.cpp:152-153 | the descriptor as written parses as the single pair upload_id -> everything after "upload_id=" |
| KvCodec.PartLineParse | src/s3_resumable_upload.cpp:231-232 | a part record as written parses as the single pair etag -> everything after "etag=" |
| Checkpoint.Recover | src/s3_resumable_upload.cpp:313-410 | parseCheckpointFile: a missing file gives part 1 at offset 0; an unreadable file or a first line that fails to parse keeps the values passed in; otherwise the info from the first line, then (1, 0) for a file of at most one line, else what the last line gives (see the lemmas below) |
| Checkpoint.RecoverReadsOnlyFirstAndLast | src/s3_resumable_upload.cpp:338-406 | recovery depends only on the first and the last line of the file |
| Checkpoint.RecoverReadsLastRecord | src/s3_resumable_upload.cpp:394-406 | when the last line carries printed part_num and offset values, recovery returns exactly those numbers |
| Checkpoint.PartOf | src/s3_resumable_upload.cpp:428-447 | the part one record line yields: none when the line does not parse or has no part_num, else its etag and atoi of part_num (see RecordLineUnusable) |
| Checkpoint.Collect | src/s3_resumable_upload.cpp:425-449 | the collection loop of finishUploadMultipart over the lines after the first (see CollectInFileOrder) |
| Checkpoint.CollectWithGathers | src/s3_resumable_upload.cpp:425-449 | the collection loop succeeds exactly when every line yields an item, and then holds the items gathered so far followed by one item per line in order |
| Checkpoint.CollectInFileOrder | src/s3_resumable_upload.cpp:422-449 | finishUploadMultipart's list is one (etag, part number) per line in file order, and it gives up exactly when some line fails to parse or lacks part_num |
| Checkpoint.RecordLineUnusable | src/s3_resumable_upload.cpp:231-232 | a part record as written parses, but has no part_num, so it yields no part |
| Checkpoint.SelfWrittenHasNoUsableRecord | src/s3_resumable_upload.cpp:152-153 | a descriptor followed by records as this code writes them holds no usable record |
| Checkpoint.NoUsableRecordRecoversOffsetZero | src/s3_resumable_upload.cpp:385-406 | from the thread's initial values, a checkpoint without usable record recovers offset 0 |
| Checkpoint.RecoverSinglePairDescriptorOnly | src/s3_resumable_upload.cpp:347-368 | a one-line checkpoint whose line is the single pair upload_id=rest recovers that id, empty bucket and key, size and part count 0, part 1 at offset 0 |
| Checkpoint.RecoverSinglePairDescriptorAndRecord | src/s3_resumable_upload.cpp:347-401 | with a further last line that parses without part_num, recovery gives part 0 at offset 0 |
| Checkpoint.RecoverSelfWritten | src/s3_resumable_upload.cpp:313-410 | recovery from a checkpoint this code wrote gives the whole rest of the descriptor as upload id, empty bucket and key, offset 0, and part 1 without records or part 0 with them |
| PartPlanner.PartCount | src/s3_resumable_upload.cpp:150 | part_count is the ceiling of size / part_size: enough parts to cover the file and no more, 0 only for an empty file |
| PartPlanner.PlannedParts | src/s3_resumable_upload.cpp:202-236 | the parts the loop reads from a part number and offset: one per PartSize bytes until the end of the file (see PlannedPartsShape, PlannedPartsSplit) |
| PartPlanner.PlannedPartsShape | src/s3_resumable_upload.cpp:202-236 | the loop sends PartCount(remaining) parts with consecutive numbers, offsets PartSize apart, all full but the last, the last ending at the end of the file |
| PartPlanner.PlannedPartsSplit | src/s3_resumable_upload.cpp:233-234 | starting k parts later (number + k, offset + k * part_size) sends the rest of the same plan |
| PartPlanner.FreshPlanCoversFile | src/s3_resumable_upload.cpp:138-140 | a fresh upload sends PartCount(size) parts numbered from 1 at offsets k * part_size, ending at the end of the file |
| PartPlanner.ResumeDecision | src/s3_resumable_upload.cpp:160-167 | the start point after the checkpoint step: resume after the recorded part, or part 1 at offset 0 with the new id (see ResumeOnlyForMatchingTarget) |
| PartPlanner.ResumeOnlyForMatchingTarget | src/s3_resumable_upload.cpp:160-167 | the upload resumes exactly when the recovered offset is non-zero and bucket and key match; it then continues after the recorded part with the recorded id; otherwise it starts at part 1, offset 0, with the new id |
| PartPlanner.SkipOnlyWhenAllPartsRecorded | src/s3_resumable_upload.cpp:160-163 | the loop is skipped exactly when a resumed upload's recovered part number equals the recorded part count |
| PartPlanner.ResumeContinuesPlan | src/s3_resumable_upload.cpp:160-167 | a checkpoint ending at part 1 never resumes; one ending at part k >= 2 resumes the fresh plan right after part k and runs the loop exactly when parts remain |
| UploadEngine.PartLoop | src/s3_resumable_upload.cpp:202-247 | the part loop: one UploadPart per part, one record per success, stopping at the first failure (see PartLoopFollowsParts) |
| UploadEngine.PartLoopFollowsParts | src/s3_resumable_upload.cpp:202-247 | one record per accepted part, in order, with its etag, offset and number; the loop stops at the first failure and reports that part, and reports none exactly when all parts were recorded |
| UploadEngine.FirstRecordIsPartOne | src/s3_resumable_upload.cpp:138-140 | a fresh upload's first record is part 1 at offset 0 |
| UploadEngine.RecordsRiseByOnePart | src/s3_resumable_upload.cpp:231-236 | the record part numbers rise by 1 and offsets by part_size |
| UploadEngine.Finish | src/s3_resumable_upload.cpp:412-473 | finishUploadMultipart: its result, the disk afterwards and whether the handle is open (see FinishDeletesExactlyWhenAllLinesParse) |
| UploadEngine.FinishDeletesExactlyWhenAllLinesParse | src/s3_resumable_upload.cpp:412-473 | the checkpoint is removed exactly when the id is non-empty and every line after the first yields a part; the result is then completion's answer for those parts in file order, and otherwise false with nothing changed |
| UploadEngine.RunFrom | src/s3_resumable_upload.cpp:168-266 | the run after the checkpoint step: the two open checks, the part loop and finalisation, with their messages and states (see RunFromPartFailure) |
| UploadEngine.Attempt | src/s3_resumable_upload.cpp:99-267 | one run of uploadMultipartThread: the checkpoint step, the resume decision, then RunFrom (see the lemmas below) |
| UploadEngine.AttemptTouchesOnlyCheckpoint | src/s3_resumable_upload.cpp:99-267 | a run ends Success or Failed, touches no file but the checkpoint, and a checkpoint that survives only grows |
| UploadEngine.SuccessRequiresCompletion | src/s3_resumable_upload.cpp:248-260 | the run ends in Success exactly when both files open, no part fails, the id is non-empty, every line after the descriptor yields a part and the store accepts completion of those parts; then every part was recorded, the checkpoint is removed, the handle closed and the last error unchanged |
| UploadEngine.PartFailureKeepsRecords | src/s3_resumable_upload.cpp:238-246 | a failed part gives Failed, "Upload part N failed." for that part, an open handle, and the records of all earlier parts kept |
| UploadEngine.RunFromPartFailure | src/s3_resumable_upload.cpp:202-246 | from any start point after the checkpoint step, a failed part gives Failed with that part's message, an open handle, and the disk with the earlier parts' records appended |
| UploadEngine.UnusableCheckpointStartsFresh | src/s3_resumable_upload.cpp:145-167 | a missing checkpoint, or one without a usable record, starts at part 1, offset 0, with the new id |
| UploadEngine.AppendKeepsNoUsableRecord | src/s3_resumable_upload.cpp:231-236 | appending records as written keeps a checkpoint without usable records so |
| UploadEngine.UnusableCheckpointNeverSucceeds | src/s3_resumable_upload.cpp:145-266 | on a non-empty file, a run from a missing or self-written checkpoint fails and leaves a checkpoint still without usable records |
| UploadEngine.RetriesNeverSucceed | src/s3_resumable_upload.cpp:145-266 | every run in a series of retries on the same target fails |
| S3Resumable.FileSystem.Create | src/s3_resumable_upload.cpp:149-156 | a created file holds exactly the one line written |
| S3Resumable.FileSystem.AppendLine | src/s3_resumable_upload.cpp:235-236 | one line is appended to the file and nothing else changes |
| S3Resumable.FileSystem.Remove | src/s3_resumable_upload.cpp:470 | the file is gone and nothing else changes |
| S3Resumable.S3Client.constructor | include/s3_resumable.h:40-81 | a new client is in Wait with empty configuration strings, empty last error, no thread and no open checkpoint |
| S3Resumable.S3Client.Open | src/s3_resumable_upload.cpp:23-33 | the six settings are stored and nothing else changes |
| S3Resumable.S3Client.Close | src/s3_resumable_upload.cpp:35-50 | the thread is joined; last error, endpoint, credentials, bucket and key are cleared; the state is Wait; region, content type, path and handle are kept |
| S3Resumable.S3Client.GetLastError | src/s3_resumable_upload.cpp:52-57 | returns the stored last error |
| S3Resumable.S3Client.UploadFrom | src/s3_resumable_upload.cpp:59-97 | a null or empty path is refused with "Invaild local file path."; a call while a thread is joinable is refused with nothing changed; otherwise the state is Running or Failed as the thread starts or not; the path is never stored |
| S3Resumable.S3Client.ParseKvStr | src/s3_resumable_upload.cpp:269-311 | the getline loop returns what KvParse gives: the result and the filled map |
| S3Resumable.S3Client.ParseCheckpointFile | src/s3_resumable_upload.cpp:313-410 | the out-parameters are what Recover gives for the file on disk and the values passed in |
| S3Resumable.S3Client.FinishUploadMultipart | src/s3_resumable_upload.cpp:412-473 | the result, the disk and the handle afterwards are what Finish gives for the disk and the handle before |
| S3Resumable.S3Client.PrepareCheckpoint | src/s3_resumable_upload.cpp:134-158 | an existing checkpoint is parsed from the initial values and kept, and a missing one is created holding the descriptor |
| S3Resumable.S3Client.DecideStart | src/s3_resumable_upload.cpp:159-167 | the resume check yields the start point ResumeDecision gives |
| S3Resumable.S3Client.RunUpload | src/s3_resumable_upload.cpp:168-266 | opening the checkpoint and the file, the part loop and finishing leave the disk, state, last error and handle RunFrom gives |
| S3Resumable.S3Client.SendParts | src/s3_resumable_upload.cpp:196-247 | the disk gains the lines of PartLoop's records; a failure sets "Upload part N failed." and Failed, and otherwise error and state are unchanged |
| S3Resumable.S3Client.UploadMultipartThread | src/s3_resumable_upload.cpp:99-267 | the disk, state, last error and handle afterwards are what Attempt gives, and the configuration is unchanged |

## Left out

- The AWS SDK client, its configuration and credentials are left out. CreateMultipartUpload, UploadPart and CompleteMultipartUpload are the `Environment` fields `createdUploadId`, `uploadPart` and `completeUpload`, whose results the model takes as given.
- `std::thread`, `std::mutex` and `std::atomic` are left out: the model is sequential. `UploadFrom` records whether a thread started, and `UploadMultipartThread` is that thread's body run as a separate call. A `Close` that joins the thread just clears the joinable flag. A state change racing with the caller's reads is not modelled.
- The write races of the source are not modelled, because the model runs the thread body only after `UploadFrom` returns:
  - `uploadFrom` sets `_state` to Running (src/s3_resumable_upload.cpp:78) after it starts the thread (line 76), so a thread that finishes first is left at Running;
  - the thread writes `_last_error` and `_state` without taking `_mutex` (lines 173, 177, 189-190, 242-244, 254, 259), while `close` and `getLastError` hold it.
- The file system is a map from path to lines, and the byte contents of parts are not modelled: a part is its number, offset and length. `get_file_size` is the input `fileSize`. Whether each file opens is an input too.
- Reading the local file is modelled as chunks of at most 52 MiB, with the loop running while bytes remain. With `std::istream` eof timing, when the bytes left are an exact multiple of the part size (an empty file included), the code makes one more zero-byte read and sends it as a part. The model sends no such part.
- A checkpoint line never contains a line break in the model. An etag or path holding one is not modelled.
- Whether the last line ends with a line break is not modelled. A checkpoint of at most one line is treated as the case where the first `getline` reaches end of file (src/s3_resumable_upload.cpp:361-368), and the result is part 1 at offset 0. The model does not follow the backward byte scan (lines 370-380) in its own terms: it takes the last line.
- Checkpoint.RecoverSelfWritten: its no-records case, part 1 at offset 0, is the model's choice, not the code's. The code writes the descriptor with a trailing line break, so a checkpoint holding only that line does not meet end of file during the first `getline`. The backward scan then walks to the first byte, where `seekg(-2, cur)` fails and `get` stops assigning, and `parseCheckpointFile` never returns. The code's thread hangs there, and a later `close()` blocks joining it. A run leaves this file behind whenever it stops before recording a part. The source failing to open is one such stop, and with the local path never set, that happens on every run. The same choice stands under `UnusableCheckpointStartsFresh`, `UnusableCheckpointNeverSucceeds` and `RetriesNeverSucceed` for a descriptor-only checkpoint: there the code does not fail, it does not return. A non-terminating run is not modelled, because every function here is total.
- UploadEngine.UnusableCheckpointStartsFresh: for a checkpoint holding only its descriptor, the code never reaches the start decision (lines 160-167): `parseCheckpointFile` does not return from the backward scan (lines 370-380), so the run neither starts fresh nor goes on.
- UploadEngine.UnusableCheckpointNeverSucceeds: for a checkpoint holding only its descriptor, the code does not fail; its run never returns (lines 370-380). The lemma's Failed result holds for the code only on a missing checkpoint or one with at least one record.
- UploadEngine.RetriesNeverSucceed: a run that stops before its first record leaves a checkpoint holding only its descriptor (lines 149-156), and the next run on it hangs in the backward scan (lines 370-380) instead of failing. In the code, with the local path never set, that is the second run.
- printf logging and errno/strerror: the errno value and text in the open-failure message are inputs.
- `atoi`/`atoll` on arbitrary text: a string of decimal digits gives its value and any other string gives 0. Signs, leading spaces and partial numbers are not modelled.
- Integer widths are not modelled: sizes, offsets and part numbers are unbounded, so the 32-bit `part_num` and `part_count` never wrap.
- Buffer lengths are not modelled:
  - snprintf truncation at 1024 and 4096 characters;
  - `getline(buffer, 8192)` into a 4096-byte buffer;
  - the 4096-character line limit of the finalisation reader;
  - PATH_MAX.
- The `range` string and `current_filepos` (src/s3_resumable_upload.cpp:199, 210-212) are not modelled: they are never sent.
- The seek of the source stream to the resume offset (line 193-194) is not modelled separately: the parts carry their offsets.
- A null checkpoint path in `parseCheckpointFile` (lines 315-319) cannot arise from the thread, so it is not modelled. Neither is a failing `fopen(cp, "w")` of a fresh checkpoint (line 149), which the code does not check.
- The content type sent with CreateMultipartUpload (lines 125-129) is not modelled.
- Everything in src/s3_resumable.utils.cpp and include/s3_resumable_utils.h is not part of this model: file size, clock and realpath.
