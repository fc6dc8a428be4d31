/** The checkpoint store's readers: what parseCheckpointFile recovers from a checkpoint file,
    and which (etag, part number) list finishUploadMultipart assembles from it.

    A checkpoint file is modelled as the sequence of its lines, without their line breaks.
    A file of at most one line is the case in which the first getline reaches the end of the
    file; the line the backward byte scan finds is the last element of the sequence. */
module Checkpoint {
  import opened Optional
  import opened Decimal
  import opened KvCodec
  import opened S3Types

  // ---------------------------------------------------------------------------
  // What the writer appends

  /** One appended part record: the etag the backend returned, the start offset of the part
      and its part number. */
  datatype PartRecord = PartRecord(etag: string, offset: nat, partNum: nat)

  function RecordLine(r: PartRecord): string {
    PartLine(r.etag, r.offset, r.partNum)
  }

  /** The lines a run of part records occupies in the file, in append order. */
  function RecordLines(rs: seq<PartRecord>): (ls: seq<string>)
    ensures |ls| == |rs|
    ensures forall i :: 0 <= i < |rs| ==> ls[i] == RecordLine(rs[i])
  {
    seq(|rs|, i requires 0 <= i < |rs| => RecordLine(rs[i]))
  }

  // ---------------------------------------------------------------------------
  // parseCheckpointFile

  /** The three out-parameters of parseCheckpointFile: info, num and offset. */
  datatype Recovery = Recovery(info: ResumeInfo, num: nat, offset: nat)

  /** The values the upload thread holds before it consults a checkpoint. */
  const InitialRecovery: Recovery := Recovery(DefaultInfo, 1, 0)

  /** atoll / atoi of a field, after the source's substitution of "0" for an empty value. */
  function NumberField(m: KvMap, k: string): nat {
    var s := Get(m, k);
    ParseNat(if s == "" then "0" else s)
  }

  /** The descriptor fields the reader takes from the first line. The path is read into a
      local variable and never stored, so info.path keeps its value. */
  function InfoFrom(m: KvMap, info: ResumeInfo): ResumeInfo {
    info.(uploadId := Get(m, "upload_id"), size := NumberField(m, "size"),
          bucket := Get(m, "bucket"), key := Get(m, "key"), partCount := NumberField(m, "part_count"))
  }

  /** The text the first getline delivers: an empty file delivers the empty line. */
  function FirstLine(lines: seq<string>): string {
    if lines == [] then "" else lines[0]
  }

  /** parseCheckpointFile on a checkpoint that is absent (None) or holds the given lines;
      readable says whether the file opens for reading; prior holds the in/out parameters. */
  function Recover(file: Option<seq<string>>, readable: bool, prior: Recovery): Recovery {
    match file
    case None => prior.(num := 1, offset := 0)
    case Some(lines) =>
      if !readable then prior
      else
        var first := KvParse(FirstLine(lines));
        if !first.ok then prior
        else
          var info := InfoFrom(first.pairs, prior.info);
          if |lines| <= 1 then Recovery(info, 1, 0)
          else
            var last := KvParse(lines[|lines| - 1]);
            if !last.ok then prior.(info := info)
            else if Get(last.pairs, "part_num") == "" || Get(last.pairs, "offset") == "" then
              Recovery(info, 0, 0)
            else
              Recovery(info, ParseNat(Get(last.pairs, "part_num")), ParseNat(Get(last.pairs, "offset")))
  }

  /** Only the first and the last line are read: the records in between never matter. */
  lemma RecoverReadsOnlyFirstAndLast(a: seq<string>, b: seq<string>, readable: bool, prior: Recovery)
    requires |a| >= 2 && |b| >= 2
    requires a[0] == b[0] && a[|a| - 1] == b[|b| - 1]
    ensures Recover(Some(a), readable, prior) == Recover(Some(b), readable, prior)
  {
  }

  /** When the first line parses and the last line carries a printed part number and offset,
      recovery returns exactly those two numbers. */
  lemma RecoverReadsLastRecord(lines: seq<string>, prior: Recovery, n: nat, o: nat)
    requires |lines| >= 2 && KvParse(lines[0]).ok
    requires KvParse(lines[|lines| - 1]).ok
    requires Get(KvParse(lines[|lines| - 1]).pairs, "part_num") == NatToString(n)
    requires Get(KvParse(lines[|lines| - 1]).pairs, "offset") == NatToString(o)
    ensures Recover(Some(lines), true, prior).num == n
    ensures Recover(Some(lines), true, prior).offset == o
  {
    ParseNatOfNatToString(n);
    ParseNatOfNatToString(o);
  }

  // ---------------------------------------------------------------------------
  // finishUploadMultipart's collection loop

  /** One entry of the CompleteMultipartUpload request. */
  datatype CompletedPart = CompletedPart(etag: string, partNum: nat)

  /** What one line after the first contributes, or None when finishUploadMultipart gives up on it
      (the line does not parse, or its part_num is missing or empty). A missing etag is sent as "". */
  function PartOf(line: string): Option<CompletedPart> {
    var r := KvParse(line);
    if !r.ok || Get(r.pairs, "part_num") == "" then None
    else Some(CompletedPart(Get(r.pairs, "etag"), ParseNat(Get(r.pairs, "part_num"))))
  }

  /** Every line after the first (the first getline skips the descriptor). */
  function AfterFirst(lines: seq<string>): seq<string> {
    if lines == [] then [] else lines[1..]
  }

  /** A loop that turns each line into an item and gives up at the first line that yields none,
      with the items gathered so far. */
  function CollectWith<T>(partOf: string -> Option<T>, lines: seq<string>, acc: seq<T>): Option<seq<T>>
    decreases |lines|
  {
    if lines == [] then Some(acc)
    else
      match partOf(lines[0])
      case None => None
      case Some(p) => CollectWith(partOf, lines[1..], acc + [p])
  }

  /** The collection loop over the remaining lines, with the parts gathered so far. */
  function Collect(lines: seq<string>, acc: seq<CompletedPart>): Option<seq<CompletedPart>> {
    CollectWith(PartOf, lines, acc)
  }

  lemma {:induction false} CollectWithGathers<T>(partOf: string -> Option<T>, lines: seq<string>, acc: seq<T>)
    ensures CollectWith(partOf, lines, acc).Some? <==> forall i :: 0 <= i < |lines| ==> partOf(lines[i]).Some?
    ensures CollectWith(partOf, lines, acc).Some? ==>
              var ps := CollectWith(partOf, lines, acc).value;
              |ps| == |acc| + |lines| && ps[..|acc|] == acc &&
              forall i :: 0 <= i < |lines| ==> partOf(lines[i]) == Some(ps[|acc| + i])
    decreases |lines|
  {
    if lines != [] {
      var p := partOf(lines[0]);
      if p.Some? {
        var tail := lines[1..];
        CollectWithGathers(partOf, tail, acc + [p.value]);
        assert forall i :: 1 <= i < |lines| ==> tail[i - 1] == lines[i];
        if CollectWith(partOf, lines, acc).Some? {
          var ps := CollectWith(partOf, lines, acc).value;
          assert ps[..|acc| + 1][..|acc|] == ps[..|acc|];
        }
      }
    }
  }

  /** The parts are collected from every line in file order, one per line, and the collection
      gives up exactly when some line does not partOf a part. */
  lemma CollectInFileOrder(lines: seq<string>)
    ensures Collect(lines, []).Some? <==> forall i :: 0 <= i < |lines| ==> PartOf(lines[i]).Some?
    ensures Collect(lines, []).Some? ==>
              |Collect(lines, []).value| == |lines| &&
              forall i :: 0 <= i < |lines| ==> PartOf(lines[i]) == Some(Collect(lines, []).value[i])
  {
    CollectWithGathers(PartOf, lines, []);
  }

  // ---------------------------------------------------------------------------
  // The checkpoints this code writes

  /** No line after the first yields a part record for either reader. */
  predicate NoUsableRecord(lines: seq<string>) {
    forall i :: 1 <= i < |lines| ==> PartOf(lines[i]).None?
  }

  /** A part record as the code writes it never yields a part to the readers: its fields are
      joined with ':', so the reader sees one pair keyed "etag" and no "part_num". */
  lemma RecordLineUnusable(line: string, r: PartRecord)
    requires line == RecordLine(r) && ',' !in r.etag
    ensures PartOf(line).None?
    ensures KvParse(line).ok && "part_num" !in KvParse(line).pairs
  {
    PartLineParse(r.etag, r.offset, r.partNum);
  }

  /** Whatever holds of every record line holds of every line of a run of records. */
  lemma RecordLinesAll(holds: string -> bool, rs: seq<PartRecord>)
    requires forall i :: 0 <= i < |rs| ==> holds(RecordLine(rs[i]))
    ensures forall i :: 0 <= i < |rs| ==> holds(RecordLines(rs)[i])
  {
  }

  /** A checkpoint made of a descriptor line and part records, as this code writes them,
      holds no usable record. */
  lemma SelfWrittenHasNoUsableRecord(descriptor: string, rs: seq<PartRecord>)
    requires forall i :: 0 <= i < |rs| ==> ',' !in rs[i].etag
    ensures NoUsableRecord([descriptor] + RecordLines(rs))
  {
    var unusable := (line: string) => PartOf(line).None?;
    forall i | 0 <= i < |rs| ensures unusable(RecordLine(rs[i])) {
      RecordLineUnusable(RecordLine(rs[i]), rs[i]);
    }
    RecordLinesAll(unusable, rs);
    var lines := [descriptor] + RecordLines(rs);
    assert forall i :: 1 <= i < |lines| ==> lines[i] == RecordLines(rs)[i - 1];
  }

  /** Recovery from a checkpoint without a usable record returns offset 0 whatever else happens,
      when it starts from the thread's initial values. */
  lemma NoUsableRecordRecoversOffsetZero(lines: seq<string>, readable: bool)
    requires NoUsableRecord(lines)
    ensures Recover(Some(lines), readable, InitialRecovery).offset == 0
  {
    if |lines| >= 2 {
      assert PartOf(lines[|lines| - 1]).None?;
    }
  }

  /** Recovery from a checkpoint of one line, the single pair upload_id=rest. */
  lemma RecoverSinglePairDescriptorOnly(lines: seq<string>, rest: string)
    requires |lines| == 1 && KvParse(lines[0]) == KvOutcome(true, map["upload_id" := rest])
    ensures Recover(Some(lines), true, InitialRecovery) == Recovery(DefaultInfo.(uploadId := rest), 1, 0)
  {
    assert ParseNat("0") == 0;
  }

  /** Recovery from a checkpoint whose first line is the single pair upload_id=rest and whose
      last line parses without a part_num. */
  lemma RecoverSinglePairDescriptorAndRecord(lines: seq<string>, rest: string)
    requires |lines| >= 2 && KvParse(lines[0]) == KvOutcome(true, map["upload_id" := rest])
    requires KvParse(lines[|lines| - 1]).ok && "part_num" !in KvParse(lines[|lines| - 1]).pairs
    ensures Recover(Some(lines), true, InitialRecovery) == Recovery(DefaultInfo.(uploadId := rest), 0, 0)
  {
    assert ParseNat("0") == 0;
  }

  /** Recovery from a checkpoint this code wrote: the descriptor comes back as an upload id that
      swallowed the whole rest of the line, with empty bucket and key and part_count 0, and the
      last record comes back as part 0 at offset 0 (or part 1 when there is no record). */
  lemma RecoverSelfWritten(uploadId: string, path: string, size: nat, bucket: string, key: string,
                           partCount: nat, rs: seq<PartRecord>)
    requires ',' !in uploadId && ',' !in path && ',' !in bucket && ',' !in key
    requires forall i :: 0 <= i < |rs| ==> ',' !in rs[i].etag
    ensures Recover(Some([DescriptorLine(uploadId, path, size, bucket, key, partCount)] + RecordLines(rs)),
                    true, InitialRecovery) ==
            Recovery(DefaultInfo.(uploadId := DescriptorRest(uploadId, path, size, bucket, key, partCount)),
                     if rs == [] then 1 else 0, 0)
  {
    var lines := [DescriptorLine(uploadId, path, size, bucket, key, partCount)] + RecordLines(rs);
    DescriptorLineParse(uploadId, path, size, bucket, key, partCount);
    var rest := DescriptorRest(uploadId, path, size, bucket, key, partCount);
    if rs == [] {
      RecoverSinglePairDescriptorOnly(lines, rest);
    } else {
      var last := rs[|rs| - 1];
      assert lines[|lines| - 1] == RecordLine(last);
      RecordLineUnusable(lines[|lines| - 1], last);
      RecoverSinglePairDescriptorAndRecord(lines, rest);
    }
  }
}
