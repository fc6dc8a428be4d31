/** The S3Client class of include/s3_resumable.h and its methods in src/s3_resumable_upload.cpp,
    over a modelled disk. Each method is proved against the functions of the modules it imports.

    The upload thread is not concurrent here: UploadFrom records that a thread was started, and
    UploadMultipartThread is the body that thread runs, called on its own. */
module S3Resumable {
  import opened Optional
  import opened Decimal
  import opened KvCodec
  import opened S3Types
  import opened Checkpoint
  import opened PartPlanner
  import opened UploadEngine

  /** The disk the checkpoint lives on: each file's lines. */
  class FileSystem {
    var files: Disk

    constructor (initial: Disk)
      ensures files == initial
    {
      files := initial;
    }

    /** fopen(path, "w") and one written line. */
    method Create(path: string, line: string)
      modifies this
      ensures files == old(files)[path := [line]]
    {
      files := files[path := [line]];
    }

    /** One line appended through the open handle and flushed. */
    method AppendLine(path: string, line: string)
      requires path in files
      modifies this
      ensures files == old(files)[path := old(files)[path] + [line]]
    {
      files := files[path := files[path] + [line]];
    }

    /** remove(path). */
    method Remove(path: string)
      modifies this
      ensures files == old(files) - {path}
    {
      files := files - {path};
    }
  }

  /** Appending one record's line extends the record lines by one. */
  lemma RecordLinesSnoc(rs: seq<PartRecord>, r: PartRecord)
    ensures RecordLines(rs + [r]) == RecordLines(rs) + [RecordLine(r)]
  {
    assert RecordLines(rs + [r])[|rs|] == RecordLine(r);
  }

  /** One step of the loop over a line's pieces: the first piece runs up to the first comma,
      and the pieces after it are those of the text after that comma. */
  lemma PiecesStep(rest: string)
    requires rest != []
    ensures IndexOf(rest, ',') == |rest| ==> Pieces(rest) == [rest]
    ensures IndexOf(rest, ',') < |rest| ==>
              Pieces(rest) == [rest[..IndexOf(rest, ',')]] + Pieces(rest[IndexOf(rest, ',') + 1..])
  {
  }

  /** One step of the parse loop: an empty first piece stops it, any other piece is emplaced. */
  lemma AbsorbHead(ps: seq<string>, kv: string, tail: seq<string>, acc: KvMap)
    requires ps == [kv] + tail
    ensures kv == [] ==> Absorb(ps, acc) == KvOutcome(false, acc)
    ensures kv != [] ==>
              var e := SplitPair(kv);
              Absorb(ps, acc) == Absorb(tail, if e.key == [] then acc else Emplace(acc, TrimKey(e.key), e.value))
  {
    assert ps[0] == kv && ps[1..] == tail;
  }

  class S3Client {
    var endPoint: string
    var region: string
    var accessId: string
    var accessSecret: string
    var bucket: string
    var objectKey: string
    var contentType: string
    var localFilePath: string
    /** Whether _upload_thread is joinable. */
    var threadJoinable: bool
    /** Whether _checkpoint_fp is open. */
    var checkpointOpen: bool
    var state: UploadState
    var lastError: string

    /** S3Client() = default: every string empty, no thread, no open checkpoint, kUploadWait. */
    constructor ()
      ensures endPoint == "" && region == "" && accessId == "" && accessSecret == ""
      ensures bucket == "" && objectKey == "" && contentType == "" && localFilePath == ""
      ensures !threadJoinable && !checkpointOpen && state == Wait && lastError == ""
    {
      endPoint, region, accessId, accessSecret := "", "", "", "";
      bucket, objectKey, contentType, localFilePath := "", "", "", "";
      threadJoinable, checkpointOpen := false, false;
      state, lastError := Wait, "";
    }

    /** Stores the six connection settings and changes nothing else. */
    method Open(endPoint': string, region': string, accessId': string, accessSecret': string,
                bucket': string, objectKey': string)
      modifies this
      ensures endPoint == endPoint' && region == region' && accessId == accessId'
      ensures accessSecret == accessSecret' && bucket == bucket' && objectKey == objectKey'
      ensures contentType == old(contentType) && localFilePath == old(localFilePath)
      ensures threadJoinable == old(threadJoinable) && checkpointOpen == old(checkpointOpen)
      ensures state == old(state) && lastError == old(lastError)
    {
      endPoint, region, accessId, accessSecret := endPoint', region', accessId', accessSecret';
      bucket, objectKey := bucket', objectKey';
    }

    /** Joins the thread, clears the last error, endpoint, credentials, bucket and key, and goes back
        to kUploadWait; the region, content type, local path and checkpoint handle are kept. */
    method Close()
      modifies this
      ensures !threadJoinable && state == Wait && lastError == ""
      ensures endPoint == "" && accessId == "" && accessSecret == "" && bucket == "" && objectKey == ""
      ensures region == old(region) && contentType == old(contentType) && localFilePath == old(localFilePath)
      ensures checkpointOpen == old(checkpointOpen)
    {
      if threadJoinable {
        threadJoinable := false;
      }
      lastError := "";
      endPoint, accessId, accessSecret, bucket, objectKey := "", "", "", "", "";
      state := Wait;
    }

    method GetLastError() returns (e: string)
      ensures e == lastError
    {
      e := lastError;
    }

    /** uploadFrom: path is None for a null pointer; threadStarts says whether std::thread manages
        to start the upload thread. An empty or missing path is refused with an error message; a
        call while the previous thread is joinable is refused with nothing changed; otherwise the
        client is Running when the thread starts and Failed when it does not. The path is not
        stored: the thread reads localFilePath as it was. */
    method UploadFrom(path: Option<string>, threadStarts: bool) returns (ok: bool)
      modifies this
      ensures endPoint == old(endPoint) && region == old(region) && accessId == old(accessId)
      ensures accessSecret == old(accessSecret) && bucket == old(bucket) && objectKey == old(objectKey)
      ensures contentType == old(contentType) && localFilePath == old(localFilePath)
      ensures checkpointOpen == old(checkpointOpen)
      ensures path == None || path == Some("") ==>
                !ok && lastError == "Invaild local file path." && state == old(state) &&
                threadJoinable == old(threadJoinable)
      ensures path != None && path != Some("") && old(threadJoinable) ==>
                !ok && lastError == old(lastError) && state == old(state) && threadJoinable
      ensures path != None && path != Some("") && !old(threadJoinable) ==>
                ok == threadStarts && threadJoinable == threadStarts && lastError == old(lastError) &&
                state == (if threadStarts then Running else Failed)
    {
      if path == None || path == Some("") {
        lastError := "Invaild local file path.";
        return false;
      }
      if threadJoinable {
        return false;
      }
      ok := false;
      if threadStarts {
        threadJoinable := true;
        ok := true;
        state := Running;
      }
      if !ok {
        state := Failed;
      }
    }

    /** parse_kv_str on one line, into a map that starts empty. */
    method ParseKvStr(line: string) returns (ok: bool, pairs: KvMap)
      ensures KvOutcome(ok, pairs) == KvParse(line)
    {
      pairs := map[];
      var pos := 0;
      while pos < |line|
        invariant 0 <= pos <= |line|
        invariant KvParse(line) == Absorb(Pieces(line[pos..]), pairs)
        decreases |line| - pos
      {
        var rest := line[pos..];
        var i := IndexOf(rest, ',');
        var kv := rest[..i];
        var next := if i == |rest| then |line| else pos + i + 1;
        assert Pieces(rest) == [kv] + Pieces(line[next..]) by {
          PiecesStep(rest);
          if i < |rest| {
            assert rest[i + 1..] == line[next..];
          } else {
            assert kv == rest && line[next..] == [];
          }
        }
        AbsorbHead(Pieces(rest), kv, Pieces(line[next..]), pairs);
        if kv == [] {
          return false, pairs;
        }
        var e := SplitPair(kv);
        if e.key != [] {
          var k := TrimKey(e.key);
          if k !in pairs {
            pairs := pairs[k := e.value];
          }
        }
        pos := next;
      }
      assert line[pos..] == [];
      ok := true;
    }

    /** parseCheckpointFile on the file at path with in/out parameters info, num and offset;
        readable says whether the file opens for reading. */
    method ParseCheckpointFile(fs: FileSystem, path: string, readable: bool, info: ResumeInfo, num: nat, offset: nat)
      returns (info': ResumeInfo, num': nat, offset': nat)
      ensures Recovery(info', num', offset') ==
              Recover(if path in fs.files then Some(fs.files[path]) else None, readable, Recovery(info, num, offset))
    {
      info', num', offset' := info, num, offset;
      if path !in fs.files {
        num', offset' := 1, 0;
        return;
      }
      if !readable {
        return;
      }
      var lines := fs.files[path];
      var ok, kv := ParseKvStr(FirstLine(lines));
      if !ok {
        return;
      }
      var sSize, sPartCount := Get(kv, "size"), Get(kv, "part_count");
      if sSize == "" {
        sSize := "0";
      }
      if sPartCount == "" {
        sPartCount := "0";
      }
      info' := info'.(uploadId := Get(kv, "upload_id"), size := ParseNat(sSize), bucket := Get(kv, "bucket"),
                      key := Get(kv, "key"), partCount := ParseNat(sPartCount));
      if |lines| <= 1 {
        num', offset' := 1, 0;
        return;
      }
      ok, kv := ParseKvStr(lines[|lines| - 1]);
      if !ok {
        return;
      }
      var sNum, sOffset := Get(kv, "part_num"), Get(kv, "offset");
      if sNum == "" || sOffset == "" {
        num', offset' := 0, 0;
      } else {
        num', offset' := ParseNat(sNum), ParseNat(sOffset);
      }
    }

    /** finishUploadMultipart with the given upload id against the store in env. */
    method FinishUploadMultipart(fs: FileSystem, uploadId: string, env: Environment) returns (ok: bool)
      modifies this`checkpointOpen, fs
      ensures FinishResult(ok, fs.files, checkpointOpen) ==
              Finish(old(fs.files), CheckpointPath(localFilePath), old(checkpointOpen), uploadId,
                     Target(bucket, objectKey, localFilePath), env)
    {
      if uploadId == "" {
        return false;
      }
      var cp := CheckpointPath(localFilePath);
      var rest := AfterFirst(HandleLines(fs.files, cp, checkpointOpen));
      ghost var expected := Finish(fs.files, cp, checkpointOpen, uploadId, Target(bucket, objectKey, localFilePath), env);
      var parts: seq<CompletedPart> := [];
      var i := 0;
      while i < |rest|
        invariant 0 <= i <= |rest|
        invariant Collect(rest, []) == Collect(rest[i..], parts)
        invariant fs.files == old(fs.files) && checkpointOpen == old(checkpointOpen)
      {
        assert rest[i..][0] == rest[i] && rest[i..][1..] == rest[i + 1..];
        var parsed, kv := ParseKvStr(rest[i]);
        assert Collect(rest[i..], parts) ==
               match PartOf(rest[i])
               case None => None
               case Some(p) => Collect(rest[i + 1..], parts + [p]);
        if !parsed {
          assert expected == FinishResult(false, fs.files, checkpointOpen);
          return false;
        }
        var etag, sPartNum := Get(kv, "etag"), Get(kv, "part_num");
        if sPartNum == "" {
          assert expected == FinishResult(false, fs.files, checkpointOpen);
          return false;
        }
        parts := parts + [CompletedPart(etag, ParseNat(sPartNum))];
        i := i + 1;
      }
      assert rest[i..] == [];
      assert Collect(rest, []) == Some(parts);
      ok := env.completeUpload(CompleteRequest(bucket, objectKey, uploadId, parts));
      checkpointOpen := false;
      fs.Remove(cp);
    }

    /** The checkpoint step of uploadMultipartThread: an existing checkpoint is parsed starting
        from the thread's initial values, a missing one is created holding the descriptor. */
    method PrepareCheckpoint(fs: FileSystem, env: Environment) returns (rec: Recovery)
      modifies fs
      ensures fs.files == Prepared(old(fs.files), Target(bucket, objectKey, localFilePath), env)
      ensures rec == Recovered(old(fs.files), Target(bucket, objectKey, localFilePath), env)
    {
      var cp := CheckpointPath(localFilePath);
      rec := InitialRecovery;
      if cp in fs.files {
        var info, num, offset := ParseCheckpointFile(fs, cp, env.checkpointReadable, DefaultInfo, 1, 0);
        rec := Recovery(info, num, offset);
      } else {
        fs.Create(cp, DescriptorLine(env.createdUploadId, localFilePath, env.fileSize, bucket, objectKey,
                                     PartCount(env.fileSize)));
      }
    }

    /** The part loop of uploadMultipartThread from the given start: one UploadPart per part,
        one appended record per success; the first failure sets the error and Failed. */
    method SendParts(fs: FileSystem, env: Environment, start: StartPoint) returns (failed: bool)
      requires CheckpointPath(localFilePath) in fs.files
      modifies fs, this`lastError, this`state
      ensures var t := Target(bucket, objectKey, localFilePath);
              var r := PartLoop(env, t, start.uploadId, PartsToSend(start, env.fileSize), []);
              failed == r.failed.Some? &&
              fs.files == Appended(old(fs.files), CheckpointPath(localFilePath), r.records) &&
              (failed ==> lastError == PartFailedMessage(r.failed.value) && state == Failed) &&
              (!failed ==> lastError == old(lastError) && state == old(state))
    {
      var t := Target(bucket, objectKey, localFilePath);
      var cp := CheckpointPath(localFilePath);
      var fileSize := env.fileSize;
      var partNum: nat, offset: nat, uploadId, needUpload := start.partNum, start.offset, start.uploadId, start.needUpload;
      ghost var disk := fs.files;
      ghost var parts := PartsToSend(start, fileSize);
      ghost var written: seq<PartRecord> := [];
      assert RecordLines(written) == [] && disk[cp] + [] == disk[cp];
      assert disk[cp := disk[cp] + RecordLines(written)] == disk;
      while offset < fileSize && needUpload
        invariant cp in disk && fs.files == Appended(disk, cp, written)
        invariant PartLoop(env, t, uploadId, parts, []) ==
                  PartLoop(env, t, uploadId, PartsToSend(StartPoint(partNum, offset, uploadId, needUpload), fileSize), written)
        invariant lastError == old(lastError) && state == old(state)
        decreases Remaining(offset, fileSize)
      {
        var part := Part(partNum, offset, Min(PartSize, fileSize - offset));
        var etag := env.uploadPart(PartRequest(bucket, objectKey, uploadId, part));
        if etag.None? {
          lastError := "Upload part " + NatToString(partNum) + " failed.";
          state := Failed;
          return true;
        }
        var r := PartRecord(etag.value, offset, partNum);
        RecordLinesSnoc(written, r);
        assert disk[cp] + RecordLines(written + [r]) == disk[cp] + RecordLines(written) + [RecordLine(r)];
        written := written + [r];
        partNum := partNum + 1;
        offset := offset + PartSize;
        fs.AppendLine(cp, PartLine(etag.value, r.offset, r.partNum));
      }
      assert PartsToSend(StartPoint(partNum, offset, uploadId, needUpload), fileSize) == [];
      failed := false;
    }

    /** The resume check of uploadMultipartThread after the checkpoint step. */
    method DecideStart(rec: Recovery, createdUploadId: string) returns (start: StartPoint)
      ensures start == ResumeDecision(rec, bucket, objectKey, createdUploadId)
    {
      var partNum: nat, offset: nat, uploadId, needUpload := 1, 0, createdUploadId, true;
      if rec.offset != 0 && bucket == rec.info.bucket && objectKey == rec.info.key {
        if rec.num == rec.info.partCount {
          needUpload := false;
        }
        partNum := rec.num + 1;
        offset := rec.offset + PartSize;
        uploadId := rec.info.uploadId;
      }
      start := StartPoint(partNum, offset, uploadId, needUpload);
    }

    /** uploadMultipartThread after the checkpoint step: open the checkpoint for appending and
        the file for reading, send the parts from start, and finish the upload. */
    method RunUpload(fs: FileSystem, env: Environment, start: StartPoint)
      requires CheckpointPath(localFilePath) in fs.files
      modifies fs, this`lastError, this`state, this`checkpointOpen
      ensures AttemptResult(fs.files, state, lastError, checkpointOpen) ==
              RunFrom(old(fs.files), Target(bucket, objectKey, localFilePath), env, start, old(lastError))
    {
      var cp := CheckpointPath(localFilePath);
      if !env.checkpointOpens {
        lastError := OpenErrorMessage(cp, env);
        checkpointOpen := false;
        state := Failed;
        return;
      }
      checkpointOpen := true;
      if !env.sourceOpens {
        lastError := "Failed to open" + localFilePath;
        state := Failed;
        return;
      }
      var failed := SendParts(fs, env, start);
      if failed {
        return;
      }
      ghost var written := fs.files;
      var ok := FinishUploadMultipart(fs, start.uploadId, env);
      state := if ok then Success else Failed;
      assert FinishResult(ok, fs.files, checkpointOpen) ==
             Finish(written, cp, true, start.uploadId, Target(bucket, objectKey, localFilePath), env);
    }

    /** uploadMultipartThread: the run Attempt describes, on the disk fs. */
    method UploadMultipartThread(fs: FileSystem, env: Environment)
      modifies this, fs
      ensures AttemptResult(fs.files, state, lastError, checkpointOpen) ==
              Attempt(old(fs.files), Target(old(bucket), old(objectKey), old(localFilePath)), env, old(lastError))
      ensures endPoint == old(endPoint) && region == old(region) && accessId == old(accessId)
      ensures accessSecret == old(accessSecret) && bucket == old(bucket) && objectKey == old(objectKey)
      ensures contentType == old(contentType) && localFilePath == old(localFilePath)
      ensures threadJoinable == old(threadJoinable)
    {
      var rec := PrepareCheckpoint(fs, env);
      var start := DecideStart(rec, env.createdUploadId);
      RunUpload(fs, env, start);
    }
  }
}
