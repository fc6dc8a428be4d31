/** The pure arithmetic of uploadMultipartThread: how many parts a file is cut into, which parts
    the loop sends from a given start, and where an upload starts after the checkpoint was read.

    The file is a byte count cut into consecutive parts of PartSize bytes, the last one shorter;
    the loop runs while bytes remain. */
module PartPlanner {
  import opened Checkpoint
  import opened S3Types

  /** part_size: 52 MiB. */
  const PartSize: nat := 52 * 1024 * 1024

  /** The part_count the descriptor records for a file of the given size. */
  function PartCount(size: nat): (n: nat)
    ensures n * PartSize >= size
    ensures n > 0 ==> (n - 1) * PartSize < size
    ensures n == 0 <==> size == 0
  {
    (size + PartSize - 1) / PartSize
  }

  function Min(a: nat, b: nat): nat {
    if a <= b then a else b
  }

  /** One part as the loop sends it: its part number, the offset of its first byte, its length. */
  datatype Part = Part(num: nat, offset: nat, length: nat)

  /** The bytes left from offset on. */
  function Remaining(offset: nat, size: nat): nat {
    if offset < size then size - offset else 0
  }

  /** The parts the loop sends when it starts at part number num and byte offset offset. */
  function PlannedParts(num: nat, offset: nat, size: nat): seq<Part>
    decreases Remaining(offset, size)
  {
    if offset >= size then []
    else [Part(num, offset, Min(PartSize, size - offset))] + PlannedParts(num + 1, offset + PartSize, size)
  }

  /** The plan cuts the remaining bytes into PartCount(remaining) parts with consecutive numbers,
      each starting PartSize bytes after the previous one, all full except the last, which ends
      at the end of the file. */
  lemma {:induction false} PlannedPartsShape(num: nat, offset: nat, size: nat)
    ensures var ps := PlannedParts(num, offset, size);
            |ps| == PartCount(Remaining(offset, size)) &&
            (forall k :: 0 <= k < |ps| ==>
               ps[k].num == num + k && ps[k].offset == offset + k * PartSize &&
               0 < ps[k].length <= PartSize && ps[k].offset + ps[k].length <= size) &&
            (forall k :: 0 <= k < |ps| - 1 ==> ps[k].length == PartSize) &&
            (ps != [] ==> ps[|ps| - 1].offset + ps[|ps| - 1].length == size)
    decreases Remaining(offset, size)
  {
    var ps := PlannedParts(num, offset, size);
    if offset < size {
      var rest := PlannedParts(num + 1, offset + PartSize, size);
      PlannedPartsShape(num + 1, offset + PartSize, size);
      assert ps == [Part(num, offset, Min(PartSize, size - offset))] + rest;
      forall k | 1 <= k < |ps|
        ensures ps[k].num == num + k && ps[k].offset == offset + k * PartSize
      {
        assert ps[k] == rest[k - 1];
        assert (k - 1) * PartSize + PartSize == k * PartSize;
      }
      PartCountStep(Remaining(offset, size));
    }
  }

  /** One more part is one PartSize more bytes. */
  lemma PartCountStep(r: nat)
    requires r > 0
    ensures PartCount(r) == 1 + PartCount(if r > PartSize then r - PartSize else 0)
  {
  }

  /** Starting k parts later continues the same plan. */
  lemma {:induction false} PlannedPartsSplit(num: nat, offset: nat, size: nat, k: nat)
    requires k <= |PlannedParts(num, offset, size)|
    ensures PlannedParts(num, offset, size)[k..] == PlannedParts(num + k, offset + k * PartSize, size)
    decreases k
  {
    if k > 0 {
      var ps := PlannedParts(num, offset, size);
      var rest := PlannedParts(num + 1, offset + PartSize, size);
      assert ps == [ps[0]] + rest;
      PlannedPartsSplit(num + 1, offset + PartSize, size, k - 1);
      assert ps[k..] == rest[k - 1..];
      assert offset + PartSize + (k - 1) * PartSize == offset + k * PartSize;
    }
  }

  /** A fresh upload sends every byte of the file: PartCount(size) parts from part 1 at offset 0. */
  lemma FreshPlanCoversFile(size: nat)
    ensures var ps := PlannedParts(1, 0, size);
            |ps| == PartCount(size) &&
            (forall k :: 0 <= k < |ps| ==> ps[k].num == k + 1 && ps[k].offset == k * PartSize) &&
            (ps != [] ==> ps[|ps| - 1].offset + ps[|ps| - 1].length == size)
  {
    PlannedPartsShape(1, 0, size);
  }

  // ---------------------------------------------------------------------------
  // The resume decision

  /** Where the part loop starts: part number, byte offset, upload id, and whether it runs at all. */
  datatype StartPoint = StartPoint(partNum: nat, offset: nat, uploadId: string, needUpload: bool)

  /** The decision after the checkpoint was read: resume only when the recovered offset is not 0
      and the checkpoint names the current bucket and key. */
  function ResumeDecision(rec: Recovery, bucket: string, key: string, createdUploadId: string): StartPoint {
    if rec.offset != 0 && bucket == rec.info.bucket && key == rec.info.key then
      StartPoint(rec.num + 1, rec.offset + PartSize, rec.info.uploadId, rec.num != rec.info.partCount)
    else
      StartPoint(1, 0, createdUploadId, true)
  }

  /** The upload resumes (starts past offset 0) exactly when the recovered offset is not 0 and the
      target matches; a resumed upload keeps the recorded upload id, and a fresh one starts at
      part 1, offset 0 with the newly created upload id and always runs the loop. */
  lemma ResumeOnlyForMatchingTarget(rec: Recovery, bucket: string, key: string, createdUploadId: string)
    ensures var s := ResumeDecision(rec, bucket, key, createdUploadId);
            (s.offset != 0 <==> rec.offset != 0 && bucket == rec.info.bucket && key == rec.info.key) &&
            (s.offset != 0 ==>
               s.uploadId == rec.info.uploadId && s.partNum == rec.num + 1 && s.offset == rec.offset + PartSize) &&
            (s.offset == 0 ==> s == StartPoint(1, 0, createdUploadId, true))
  {
  }

  /** The loop is skipped exactly when a resumed upload had recorded its last part already. */
  lemma SkipOnlyWhenAllPartsRecorded(rec: Recovery, bucket: string, key: string, createdUploadId: string)
    ensures !ResumeDecision(rec, bucket, key, createdUploadId).needUpload <==>
            rec.offset != 0 && bucket == rec.info.bucket && key == rec.info.key && rec.num == rec.info.partCount
  {
  }

  /** Suppose a fresh upload of a size-byte file recorded parts 1..k and the checkpoint gives back
      part k at its offset, with the right target and part count. Part 1 (offset 0) is never
      resumed. From part 2 on, the upload continues the fresh plan at part k + 1, skipping exactly
      the k recorded parts, and runs the loop exactly when parts remain. */
  lemma ResumeContinuesPlan(info: ResumeInfo, size: nat, k: nat, bucket: string, key: string,
                            createdUploadId: string)
    requires 1 <= k <= PartCount(size)
    requires info.bucket == bucket && info.key == key && info.partCount == PartCount(size)
    ensures |PlannedParts(1, 0, size)| == PartCount(size)
    ensures var s := ResumeDecision(Recovery(info, k, (k - 1) * PartSize), bucket, key, createdUploadId);
            (k == 1 ==> s == StartPoint(1, 0, createdUploadId, true)) &&
            (k >= 2 ==> s.partNum == k + 1 && s.offset == k * PartSize && s.uploadId == info.uploadId &&
                        PlannedParts(s.partNum, s.offset, size) == PlannedParts(1, 0, size)[k..] &&
                        (s.needUpload <==> k < PartCount(size)))
  {
    FreshPlanCoversFile(size);
    if k >= 2 {
      assert (k - 1) * PartSize + PartSize == k * PartSize;
      PlannedPartsSplit(1, 0, size, k);
    }
  }
}
