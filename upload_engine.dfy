/** What one run of uploadMultipartThread does, as functions of the disk, the client's target and
    an environment that stands for everything outside the program: the object store's answers,
    the size of the local file and whether the files open.

    The object store is abstract: CreateMultipartUpload yields an upload id ("" when it fails),
    UploadPart yields an etag or fails, CompleteMultipartUpload succeeds or fails. */
module UploadEngine {
  import opened Optional
  import opened Decimal
  import opened KvCodec
  import opened S3Types
  import opened Checkpoint
  import opened PartPlanner

  /** The disk: each file's lines. */
  type Disk = map<string, seq<string>>

  /** One UploadPart request: target, upload id, and the part (its number and byte range). */
  datatype PartRequest = PartRequest(bucket: string, key: string, uploadId: string, part: Part)

  /** One CompleteMultipartUpload request with its (etag, part number) list. */
  datatype CompleteRequest = CompleteRequest(bucket: string, key: string, uploadId: string,
                                             parts: seq<CompletedPart>)

  /** Everything a run depends on that the program does not compute. */
  datatype Environment = Environment(
    createdUploadId: string,                  // the upload id CreateMultipartUpload returns
    fileSize: nat,                            // get_file_size of the local file
    checkpointReadable: bool,                 // an existing checkpoint opens for reading
    checkpointOpens: bool,                    // the checkpoint opens for reading and appending
    openErrno: nat,                           // errno when it does not
    openErrorText: string,                    // strerror(errno) when it does not
    sourceOpens: bool,                        // the local file opens for reading
    uploadPart: PartRequest -> Option<string>, // the etag, or None when the part fails
    completeUpload: CompleteRequest -> bool)   // whether completion succeeds

  /** The client fields the thread reads: _bucket, _object_key, _local_file_path. */
  datatype Target = Target(bucket: string, key: string, localFilePath: string)

  /** The checkpoint file: the local path with ".scp" appended. */
  function CheckpointPath(localFilePath: string): string {
    localFilePath + ".scp"
  }

  // ---------------------------------------------------------------------------
  // Before the loop

  /** The descriptor a fresh checkpoint is created with. */
  function FreshDescriptor(t: Target, env: Environment): string {
    DescriptorLine(env.createdUploadId, t.localFilePath, env.fileSize, t.bucket, t.key, PartCount(env.fileSize))
  }

  /** The disk after the checkpoint step: an existing checkpoint is left alone, a missing one is
      created holding the descriptor. */
  function Prepared(files: Disk, t: Target, env: Environment): Disk {
    var cp := CheckpointPath(t.localFilePath);
    if cp in files then files else files[cp := [FreshDescriptor(t, env)]]
  }

  /** The (info, num, offset) the thread holds after the checkpoint step. */
  function Recovered(files: Disk, t: Target, env: Environment): Recovery {
    var cp := CheckpointPath(t.localFilePath);
    if cp in files then Recover(Some(files[cp]), env.checkpointReadable, InitialRecovery) else InitialRecovery
  }

  /** Where the part loop starts. */
  function StartOf(files: Disk, t: Target, env: Environment): StartPoint {
    ResumeDecision(Recovered(files, t, env), t.bucket, t.key, env.createdUploadId)
  }

  /** The parts the loop goes through: none when need_upload is false. */
  function PartsToSend(s: StartPoint, fileSize: nat): seq<Part> {
    if s.needUpload then PlannedParts(s.partNum, s.offset, fileSize) else []
  }

  // ---------------------------------------------------------------------------
  // The part loop

  /** The records the loop appended, and the number of the part that failed, if one did. */
  datatype LoopResult = LoopResult(records: seq<PartRecord>, failed: Option<nat>)

  function Request(t: Target, uploadId: string, p: Part): PartRequest {
    PartRequest(t.bucket, t.key, uploadId, p)
  }

  /** The loop over the remaining parts, with the records appended so far. */
  function PartLoop(env: Environment, t: Target, uploadId: string, parts: seq<Part>, done: seq<PartRecord>): LoopResult
    decreases |parts|
  {
    if parts == [] then LoopResult(done, None)
    else
      match env.uploadPart(Request(t, uploadId, parts[0]))
      case None => LoopResult(done, Some(parts[0].num))
      case Some(etag) => PartLoop(env, t, uploadId, parts[1..], done + [PartRecord(etag, parts[0].offset, parts[0].num)])
  }

  /** The loop appends one record per part, in order, carrying the part's etag, start offset and
      number, for every part up to the first one that fails; it stops there and reports that part's
      number, and reports none exactly when every part was recorded. */
  lemma {:induction false} PartLoopFollowsParts(env: Environment, t: Target, uploadId: string,
                                                parts: seq<Part>, done: seq<PartRecord>)
    ensures var r := PartLoop(env, t, uploadId, parts, done);
            |done| <= |r.records| <= |done| + |parts| && r.records[..|done|] == done &&
            (forall i :: 0 <= i < |r.records| - |done| ==>
               env.uploadPart(Request(t, uploadId, parts[i])) == Some(r.records[|done| + i].etag) &&
               r.records[|done| + i].offset == parts[i].offset && r.records[|done| + i].partNum == parts[i].num) &&
            (r.failed.None? <==> |r.records| == |done| + |parts|) &&
            (r.failed.Some? ==>
               |r.records| - |done| < |parts| &&
               r.failed == Some(parts[|r.records| - |done|].num) &&
               env.uploadPart(Request(t, uploadId, parts[|r.records| - |done|])).None?)
    decreases |parts|
  {
    if parts != [] {
      var e := env.uploadPart(Request(t, uploadId, parts[0]));
      if e.Some? {
        var rec := PartRecord(e.value, parts[0].offset, parts[0].num);
        PartLoopFollowsParts(env, t, uploadId, parts[1..], done + [rec]);
        var r := PartLoop(env, t, uploadId, parts, done);
        assert r.records[..|done| + 1][..|done|] == r.records[..|done|];
        assert r.records[|done|] == rec;
        forall i | 1 <= i < |r.records| - |done|
          ensures env.uploadPart(Request(t, uploadId, parts[i])) == Some(r.records[|done| + i].etag)
          ensures r.records[|done| + i].offset == parts[i].offset && r.records[|done| + i].partNum == parts[i].num
        {
          assert parts[1..][i - 1] == parts[i];
          assert |done + [rec]| + (i - 1) == |done| + i;
        }
        if r.failed.Some? {
          assert parts[1..][|r.records| - |done| - 1] == parts[|r.records| - |done|];
        }
      }
    }
  }

  /** A fresh upload of a non-empty file whose first part succeeds records that part: the loop's
      first record is part 1 at offset 0. */
  lemma FirstRecordIsPartOne(env: Environment, t: Target, uploadId: string, size: nat)
    requires size > 0
    requires env.uploadPart(Request(t, uploadId, PlannedParts(1, 0, size)[0])).Some?
    ensures var r := PartLoop(env, t, uploadId, PlannedParts(1, 0, size), []);
            |r.records| >= 1 && r.records[0].partNum == 1 && r.records[0].offset == 0
  {
    PartLoopFollowsParts(env, t, uploadId, PlannedParts(1, 0, size), []);
  }

  /** The records of a run appended in plan order: part numbers rise by 1 and offsets by PartSize. */
  lemma RecordsRiseByOnePart(env: Environment, t: Target, uploadId: string, num: nat, offset: nat, size: nat)
    ensures var r := PartLoop(env, t, uploadId, PlannedParts(num, offset, size), []);
            forall i :: 0 <= i < |r.records| ==>
              r.records[i].partNum == num + i && r.records[i].offset == offset + i * PartSize
  {
    var ps := PlannedParts(num, offset, size);
    PlannedPartsShape(num, offset, size);
    PartLoopFollowsParts(env, t, uploadId, ps, []);
    var r := PartLoop(env, t, uploadId, ps, []);
    var none: seq<PartRecord> := [];
    forall i | 0 <= i < |r.records|
      ensures r.records[i].partNum == num + i && r.records[i].offset == offset + i * PartSize
    {
      assert r.records[|none| + i] == r.records[i];
      assert r.records[i].partNum == ps[i].num && r.records[i].offset == ps[i].offset;
    }
  }

  // ---------------------------------------------------------------------------
  // finishUploadMultipart

  /** Its result, the disk afterwards, and whether the checkpoint handle is still open. */
  datatype FinishResult = FinishResult(ok: bool, files: Disk, checkpointOpen: bool)

  /** What the checkpoint handle reads from its start: nothing when it is not open. */
  function HandleLines(files: Disk, cp: string, open: bool): seq<string> {
    if open && cp in files then files[cp] else []
  }

  /** finishUploadMultipart: gives up on an empty upload id or on the first line after the
      descriptor that yields no part; otherwise sends the parts, closes the handle and removes
      the checkpoint whether or not completion succeeds. */
  function Finish(files: Disk, cp: string, open: bool, uploadId: string, t: Target, env: Environment): FinishResult {
    if uploadId == "" then FinishResult(false, files, open)
    else
      match Collect(AfterFirst(HandleLines(files, cp, open)), [])
      case None => FinishResult(false, files, open)
      case Some(parts) =>
        FinishResult(env.completeUpload(CompleteRequest(t.bucket, t.key, uploadId, parts)), files - {cp}, false)
  }

  /** The checkpoint is removed exactly when the upload id is not empty and every line after the
      first yields a part; only then is completion asked for, with those parts in file order,
      and the result is completion's answer. Otherwise the result is false and nothing changes. */
  lemma FinishDeletesExactlyWhenAllLinesParse(files: Disk, cp: string, open: bool, uploadId: string,
                                              t: Target, env: Environment)
    requires cp in files
    ensures var lines := HandleLines(files, cp, open);
            var f := Finish(files, cp, open, uploadId, t, env);
            (cp !in f.files <==>
               uploadId != "" && forall i :: 1 <= i < |lines| ==> PartOf(lines[i]).Some?) &&
            (cp !in f.files ==>
               f.files == files - {cp} && !f.checkpointOpen &&
               exists parts: seq<CompletedPart> ::
                 |parts| == |AfterFirst(lines)| &&
                 (forall i :: 1 <= i < |lines| ==> PartOf(lines[i]) == Some(parts[i - 1])) &&
                 f.ok == env.completeUpload(CompleteRequest(t.bucket, t.key, uploadId, parts))) &&
            (cp in f.files ==> f == FinishResult(false, files, open))
  {
    var lines := HandleLines(files, cp, open);
    var rest := AfterFirst(lines);
    CollectInFileOrder(rest);
    assert forall i :: 1 <= i < |lines| ==> lines[i] == rest[i - 1];
    if uploadId != "" && Collect(rest, []).Some? {
      var parts := Collect(rest, []).value;
      assert forall i :: 1 <= i < |lines| ==> PartOf(lines[i]) == Some(parts[i - 1]);
    }
  }

  // ---------------------------------------------------------------------------
  // The whole run

  /** The disk, the client's state and last error, and whether the checkpoint handle is open. */
  datatype AttemptResult = AttemptResult(files: Disk, state: UploadState, lastError: string, checkpointOpen: bool)

  /** The message stored when the checkpoint does not open for appending. */
  function OpenErrorMessage(cp: string, env: Environment): string {
    "Open " + cp + " failed, errno:" + NatToString(env.openErrno) + ", str:" + env.openErrorText + ".\n"
  }

  /** The message stored when part n fails. */
  function PartFailedMessage(n: nat): string {
    "Upload part " + NatToString(n) + " failed."
  }

  /** The disk after the loop appended its records to the checkpoint. */
  function Appended(files: Disk, cp: string, records: seq<PartRecord>): Disk
    requires cp in files
  {
    files[cp := files[cp] + RecordLines(records)]
  }

  /** The run after the checkpoint step, from the disk with the checkpoint in place and the start
      point: open the checkpoint for appending, open the file, send the parts, finish. */
  function RunFrom(disk: Disk, t: Target, env: Environment, s: StartPoint, lastError: string): AttemptResult
    requires CheckpointPath(t.localFilePath) in disk
  {
    var cp := CheckpointPath(t.localFilePath);
    if !env.checkpointOpens then AttemptResult(disk, Failed, OpenErrorMessage(cp, env), false)
    else if !env.sourceOpens then AttemptResult(disk, Failed, "Failed to open" + t.localFilePath, true)
    else
      var r := PartLoop(env, t, s.uploadId, PartsToSend(s, env.fileSize), []);
      var written := Appended(disk, cp, r.records);
      match r.failed
      case Some(n) => AttemptResult(written, Failed, PartFailedMessage(n), true)
      case None =>
        var f := Finish(written, cp, true, s.uploadId, t, env);
        AttemptResult(f.files, if f.ok then Success else Failed, lastError, f.checkpointOpen)
  }

  /** One run of the upload thread, from the disk, the target, the environment and the last error
      the client held before. */
  function Attempt(files: Disk, t: Target, env: Environment, lastError: string): AttemptResult {
    RunFrom(Prepared(files, t, env), t, env, StartOf(files, t, env), lastError)
  }

  /** Only the file cp may differ between the two disks, and a cp on both only grew. */
  ghost predicate OnlyCheckpointGrows(before: Disk, after: Disk, cp: string) {
    (forall p :: p != cp ==> (p in after <==> p in before)) &&
    (forall p :: p != cp && p in before ==> after[p] == before[p]) &&
    (cp in before && cp in after ==> before[cp] <= after[cp])
  }

  /** A run ends in Success or Failed, and only the checkpoint file changes: every other file is
      untouched, and a checkpoint that survives the run holds what it held before plus new lines. */
  lemma AttemptTouchesOnlyCheckpoint(files: Disk, t: Target, env: Environment, lastError: string)
    ensures var a := Attempt(files, t, env, lastError);
            (a.state == Success || a.state == Failed) &&
            OnlyCheckpointGrows(files, a.files, CheckpointPath(t.localFilePath))
  {
    var cp := CheckpointPath(t.localFilePath);
    var disk := Prepared(files, t, env);
    assert OnlyCheckpointGrows(files, disk, cp);
    if env.checkpointOpens && env.sourceOpens {
      var s := StartOf(files, t, env);
      var r := PartLoop(env, t, s.uploadId, PartsToSend(s, env.fileSize), []);
      var written := Appended(disk, cp, r.records);
      assert OnlyCheckpointGrows(files, written, cp);
      if r.failed.None? {
        var f := Finish(written, cp, true, s.uploadId, t, env);
        assert f.files == written || f.files == written - {cp};
      }
    }
  }

  /** A run succeeds exactly when both files open, the loop records every part it sends, the
      upload id is not empty, every line after the descriptor yields a part, and the store
      accepts the completion of those parts; a successful run leaves the checkpoint gone, the
      handle closed and the last error as it was. */
  lemma SuccessRequiresCompletion(files: Disk, t: Target, env: Environment, lastError: string)
    ensures var a := Attempt(files, t, env, lastError);
            var cp := CheckpointPath(t.localFilePath);
            var s := StartOf(files, t, env);
            var r := PartLoop(env, t, s.uploadId, PartsToSend(s, env.fileSize), []);
            var disk := Prepared(files, t, env);
            cp in disk &&
            (a.state == Success ==>
               env.checkpointOpens && env.sourceOpens && r.failed.None? &&
               |r.records| == |PartsToSend(s, env.fileSize)| && s.uploadId != "" &&
               cp !in a.files && !a.checkpointOpen && a.lastError == lastError) &&
            var c := Collect(AfterFirst(Appended(disk, cp, r.records)[cp]), []);
            (a.state == Success <==>
               env.checkpointOpens && env.sourceOpens && r.failed.None? && s.uploadId != "" &&
               c.Some? && env.completeUpload(CompleteRequest(t.bucket, t.key, s.uploadId, c.value)))
  {
    var s := StartOf(files, t, env);
    PartLoopFollowsParts(env, t, s.uploadId, PartsToSend(s, env.fileSize), []);
  }

  /** When a part fails, the run fails with "Upload part N failed." for that part, the handle
      stays open, and the checkpoint keeps one record for each part before it. */
  lemma PartFailureKeepsRecords(files: Disk, t: Target, env: Environment, lastError: string)
    requires env.checkpointOpens && env.sourceOpens
    ensures var a := Attempt(files, t, env, lastError);
            var cp := CheckpointPath(t.localFilePath);
            var s := StartOf(files, t, env);
            var parts := PartsToSend(s, env.fileSize);
            var r := PartLoop(env, t, s.uploadId, parts, []);
            r.failed.Some? ==>
              var j := |r.records|;
              j < |parts| && a.state == Failed && a.checkpointOpen &&
              a.lastError == PartFailedMessage(parts[j].num) &&
              env.uploadPart(Request(t, s.uploadId, parts[j])).None? &&
              a.files == Prepared(files, t, env)[cp := Prepared(files, t, env)[cp] + RecordLines(r.records)] &&
              forall i :: 0 <= i < j ==> r.records[i].partNum == parts[i].num && r.records[i].offset == parts[i].offset
  {
    var disk := Prepared(files, t, env);
    assert CheckpointPath(t.localFilePath) in disk;
    RunFromPartFailure(disk, t, env, StartOf(files, t, env), lastError);
  }

  /** The same, from the disk after the checkpoint step and any start point. */
  lemma RunFromPartFailure(disk: Disk, t: Target, env: Environment, s: StartPoint, lastError: string)
    requires CheckpointPath(t.localFilePath) in disk
    requires env.checkpointOpens && env.sourceOpens
    ensures var a := RunFrom(disk, t, env, s, lastError);
            var cp := CheckpointPath(t.localFilePath);
            var parts := PartsToSend(s, env.fileSize);
            var r := PartLoop(env, t, s.uploadId, parts, []);
            r.failed.Some? ==>
              var j := |r.records|;
              j < |parts| && a.state == Failed && a.checkpointOpen &&
              a.lastError == PartFailedMessage(parts[j].num) &&
              env.uploadPart(Request(t, s.uploadId, parts[j])).None? &&
              a.files == disk[cp := disk[cp] + RecordLines(r.records)] &&
              forall i :: 0 <= i < j ==> r.records[i].partNum == parts[i].num && r.records[i].offset == parts[i].offset
  {
    PartLoopFollowsParts(env, t, s.uploadId, PartsToSend(s, env.fileSize), []);
  }

  // ---------------------------------------------------------------------------
  // The checkpoints this code writes are never used

  /** A checkpoint without a usable record makes the run start afresh: part 1, offset 0, the new
      upload id, the loop running. */
  lemma UnusableCheckpointStartsFresh(files: Disk, t: Target, env: Environment)
    requires var cp := CheckpointPath(t.localFilePath); cp in files ==> NoUsableRecord(files[cp])
    ensures StartOf(files, t, env) == StartPoint(1, 0, env.createdUploadId, true)
  {
    var cp := CheckpointPath(t.localFilePath);
    if cp in files {
      NoUsableRecordRecoversOffsetZero(files[cp], env.checkpointReadable);
    }
  }

  /** No record's etag holds the reader's separator. */
  predicate CommaFreeRecords(rs: seq<PartRecord>) {
    forall i :: 0 <= i < |rs| ==> ',' !in rs[i].etag
  }

  /** Appending records as this code writes them keeps a checkpoint without usable records so. */
  lemma AppendKeepsNoUsableRecord(lines: seq<string>, rs: seq<PartRecord>)
    requires lines != [] && NoUsableRecord(lines)
    requires CommaFreeRecords(rs)
    ensures NoUsableRecord(lines + RecordLines(rs))
  {
    var unusable := (line: string) => PartOf(line).None?;
    forall i | 0 <= i < |rs| ensures unusable(RecordLine(rs[i])) {
      RecordLineUnusable(RecordLine(rs[i]), rs[i]);
    }
    RecordLinesAll(unusable, rs);
    var all := lines + RecordLines(rs);
    assert forall i :: |lines| <= i < |all| ==> all[i] == RecordLines(rs)[i - |lines|];
  }

  /** The collection gives up on a checkpoint with a line after the first and no usable record. */
  lemma CollectFailsWithoutUsableRecord(lines: seq<string>)
    requires |lines| >= 2 && NoUsableRecord(lines)
    ensures Collect(AfterFirst(lines), []).None?
  {
    CollectInFileOrder(AfterFirst(lines));
    assert AfterFirst(lines)[0] == lines[1];
  }

  /** The store returns etags without a comma (an S3 etag is a quoted hex digest). */
  ghost predicate CommaFreeEtags(env: Environment) {
    forall req :: env.uploadPart(req).Some? ==> ',' !in env.uploadPart(req).value
  }

  /** The records a run appends carry etags the store returned. */
  lemma {:induction false} RecordEtagsFromStore(env: Environment, t: Target, uploadId: string,
                                                parts: seq<Part>, done: seq<PartRecord>)
    requires CommaFreeEtags(env) && CommaFreeRecords(done)
    ensures CommaFreeRecords(PartLoop(env, t, uploadId, parts, done).records)
    decreases |parts|
  {
    if parts != [] {
      var e := env.uploadPart(Request(t, uploadId, parts[0]));
      if e.Some? {
        var rec := PartRecord(e.value, parts[0].offset, parts[0].num);
        assert ',' !in rec.etag;
        assert CommaFreeRecords(done + [rec]) by {
          assert forall i :: 0 <= i < |done| ==> (done + [rec])[i] == done[i];
        }
        RecordEtagsFromStore(env, t, uploadId, parts[1..], done + [rec]);
        assert PartLoop(env, t, uploadId, parts, done) == PartLoop(env, t, uploadId, parts[1..], done + [rec]);
      }
    }
  }

  /** Because the writers join fields with ':' and the reader splits on ',', a run on a non-empty
      file never succeeds from a checkpoint that is missing or that this code wrote: it starts
      afresh, and either fails somewhere or reaches finishUploadMultipart with at least one record
      that yields no part number, so finalisation gives up and the checkpoint stays, still without
      a usable record. */
  lemma UnusableCheckpointNeverSucceeds(files: Disk, t: Target, env: Environment, lastError: string)
    requires env.fileSize > 0 && CommaFreeEtags(env)
    requires var cp := CheckpointPath(t.localFilePath);
             cp in files ==> files[cp] != [] && NoUsableRecord(files[cp])
    ensures var a := Attempt(files, t, env, lastError);
            var cp := CheckpointPath(t.localFilePath);
            a.state == Failed && cp in a.files && a.files[cp] != [] && NoUsableRecord(a.files[cp])
  {
    var cp := CheckpointPath(t.localFilePath);
    var disk := Prepared(files, t, env);
    if cp !in files {
      SelfWrittenHasNoUsableRecord(FreshDescriptor(t, env), []);
      assert disk[cp] == [FreshDescriptor(t, env)] + RecordLines([]);
    }
    assert disk[cp] != [] && NoUsableRecord(disk[cp]);
    UnusableCheckpointStartsFresh(files, t, env);
    var s := StartOf(files, t, env);
    if env.checkpointOpens && env.sourceOpens {
      var parts := PartsToSend(s, env.fileSize);
      assert |parts| >= 1;
      LoopKeepsNoUsableRecord(disk, cp, env, t, s.uploadId, parts);
      var r := PartLoop(env, t, s.uploadId, parts, []);
      if r.failed.None? {
        CollectFailsWithoutUsableRecord(Appended(disk, cp, r.records)[cp]);
      }
    }
  }

  /** The part loop, run against a checkpoint without a usable record, leaves it so; when no part
      fails and there was one to send, a record follows the first line. */
  lemma LoopKeepsNoUsableRecord(disk: Disk, cp: string, env: Environment, t: Target, uploadId: string,
                                parts: seq<Part>)
    requires cp in disk && disk[cp] != [] && NoUsableRecord(disk[cp]) && CommaFreeEtags(env)
    ensures var r := PartLoop(env, t, uploadId, parts, []);
            var lines := Appended(disk, cp, r.records)[cp];
            NoUsableRecord(lines) && lines != [] &&
            (r.failed.None? && parts != [] ==> |lines| >= 2)
  {
    RecordEtagsFromStore(env, t, uploadId, parts, []);
    AppendKeepsNoUsableRecord(disk[cp], PartLoop(env, t, uploadId, parts, []).records);
    PartLoopFollowsParts(env, t, uploadId, parts, []);
  }

  /** The states of a series of runs on the same target, each on the disk the previous one left. */
  function Retries(files: Disk, t: Target, envs: seq<Environment>, lastError: string): seq<UploadState>
    decreases |envs|
  {
    if envs == [] then []
    else
      var a := Attempt(files, t, envs[0], lastError);
      [a.state] + Retries(a.files, t, envs[1..], a.lastError)
  }

  /** Retrying never helps: on a non-empty file, every run of a series that starts without a
      checkpoint, or with one this code wrote, fails. */
  lemma {:induction false} RetriesNeverSucceed(files: Disk, t: Target, envs: seq<Environment>, lastError: string)
    requires forall i :: 0 <= i < |envs| ==> envs[i].fileSize > 0 && CommaFreeEtags(envs[i])
    requires var cp := CheckpointPath(t.localFilePath);
             cp in files ==> files[cp] != [] && NoUsableRecord(files[cp])
    ensures var states := Retries(files, t, envs, lastError);
            |states| == |envs| && forall i :: 0 <= i < |states| ==> states[i] == Failed
    decreases |envs|
  {
    if envs != [] {
      var a := Attempt(files, t, envs[0], lastError);
      UnusableCheckpointNeverSucceeds(files, t, envs[0], lastError);
      RetriesNeverSucceed(a.files, t, envs[1..], a.lastError);
      var states := Retries(files, t, envs, lastError);
      assert states == [a.state] + Retries(a.files, t, envs[1..], a.lastError);
      forall i | 1 <= i < |states| ensures states[i] == Failed {
        assert states[i] == Retries(a.files, t, envs[1..], a.lastError)[i - 1];
        assert envs[1..][i - 1] == envs[i];
      }
    }
  }
}
