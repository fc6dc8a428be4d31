/** The key-value line codec of the checkpoint file: what parse_kv_str makes of one line,
    and the exact text the two writers put on a line.

    parse_kv_str cuts the line into pieces with std::getline(stream, piece, ','),
    stops with false at the first empty piece, splits every other piece at its first '=',
    skips a piece whose key part is empty, strips spaces from both ends of the key and
    emplaces (key, value) into a map that starts empty, so the first occurrence of a key wins. */
module KvCodec {
  import opened Optional
  import opened Decimal

  type KvMap = map<string, string>

  /** Position of the first c in s, or |s| when there is none (std::string::find_first_of). */
  function IndexOf(s: string, c: char): (i: nat)
    ensures i <= |s|
    ensures i < |s| ==> s[i] == c
    ensures forall j :: 0 <= j < i ==> s[j] != c
    decreases |s|
  {
    if s == [] then 0 else if s[0] == c then 0 else 1 + IndexOf(s[1..], c)
  }

  lemma IndexOfUnique(s: string, c: char, i: nat)
    requires i <= |s|
    requires i < |s| ==> s[i] == c
    requires forall j :: 0 <= j < i ==> s[j] != c
    ensures IndexOf(s, c) == i
  {
  }

  // ---------------------------------------------------------------------------
  // Splitting a line on ','

  /** The pieces successive std::getline(stream, piece, ',') calls return before the stream
      runs dry: a comma at the very end yields no extra empty piece, and an empty line yields none. */
  function Pieces(s: string): (ps: seq<string>)
    ensures |ps| == 0 <==> s == []
    ensures forall i, j :: 0 <= i < |ps| && 0 <= j < |ps[i]| ==> ps[i][j] != ','
    decreases |s|
  {
    if s == [] then []
    else
      var i := IndexOf(s, ',');
      if i == |s| then [s]
      else
        var ps := [s[..i]] + Pieces(s[i + 1..]);
        assert forall k :: 1 <= k < |ps| ==> ps[k] == Pieces(s[i + 1..])[k - 1];
        ps
  }

  /** The pieces joined back with ',' (the inverse of Pieces). */
  function JoinComma(ps: seq<string>): string
    decreases |ps|
  {
    if ps == [] then "" else if |ps| == 1 then ps[0] else ps[0] + "," + JoinComma(ps[1..])
  }

  predicate EndsWithComma(s: string) {
    |s| > 0 && s[|s| - 1] == ','
  }

  /** Nothing of the line is lost by the split: joining the pieces gives the line back,
      up to the one trailing comma that getline swallows. */
  lemma {:induction false} PiecesJoinBack(s: string)
    ensures JoinComma(Pieces(s)) + (if EndsWithComma(s) then "," else "") == s
    decreases |s|
  {
    if s != [] {
      var i := IndexOf(s, ',');
      if i == |s| {
        assert Pieces(s) == [s];
        assert !EndsWithComma(s);
      } else {
        var head, rest := s[..i], s[i + 1..];
        PiecesAtComma(s, i);
        if rest == [] {
          assert s == head + ",";
          assert Pieces(s) == [head];
        } else {
          PiecesJoinBack(rest);
          JoinCommaCons(Pieces(s), head, Pieces(rest));
          var suffix := if EndsWithComma(s) then "," else "";
          assert suffix == if EndsWithComma(rest) then "," else "";
          assert JoinComma(Pieces(rest)) + suffix == rest;
          assert head + "," + JoinComma(Pieces(rest)) + suffix == head + "," + (JoinComma(Pieces(rest)) + suffix);
        }
      }
    }
  }

  /** Splitting at the first comma: the piece before it, then the pieces of what follows. */
  lemma PiecesAtComma(s: string, i: nat)
    requires s != [] && i == IndexOf(s, ',') && i < |s|
    ensures s == s[..i] + "," + s[i + 1..]
    ensures Pieces(s) == [s[..i]] + Pieces(s[i + 1..])
  {
    SplitAround(s, i);
  }

  lemma SplitAround(s: string, i: nat)
    requires i < |s| && s[i] == ','
    ensures s == s[..i] + "," + s[i + 1..]
  {
    assert s[i..] == [s[i]] + s[i + 1..];
    assert s == s[..i] + s[i..];
  }

  /** Joining a head piece in front of a non-empty list of pieces puts one comma between them. */
  lemma JoinCommaCons(ps: seq<string>, head: string, tail: seq<string>)
    requires ps == [head] + tail && tail != []
    ensures JoinComma(ps) == head + "," + JoinComma(tail)
  {
    assert ps[0] == head && ps[1..] == tail;
  }

  /** Two commas side by side at positions j - 1 and j. */
  predicate DoubledCommaAt(s: string, j: int) {
    1 <= j < |s| && s[j - 1] == ',' && s[j] == ','
  }

  predicate HasEmptyPiece(ps: seq<string>) {
    exists k :: 0 <= k < |ps| && ps[k] == []
  }

  /** A comma at the start of the line or two commas in a row. */
  ghost predicate CommaRun(s: string) {
    (|s| > 0 && s[0] == ',') || exists j :: DoubledCommaAt(s, j)
  }

  lemma CommaRunStep(s: string, i: nat)
    requires s != [] && i == IndexOf(s, ',') && i < |s|
    ensures CommaRun(s) <==> i == 0 || CommaRun(s[i + 1..])
  {
    var rest := s[i + 1..];
    if exists j :: DoubledCommaAt(s, j) {
      var j :| DoubledCommaAt(s, j);
      if j - 1 > i {
        assert DoubledCommaAt(rest, j - 1 - i);
      } else {
        assert |rest| > 0 && rest[0] == ',';
      }
    }
    if exists j :: DoubledCommaAt(rest, j) {
      var j :| DoubledCommaAt(rest, j);
      assert DoubledCommaAt(s, j + i + 1);
    }
    if |rest| > 0 && rest[0] == ',' {
      assert DoubledCommaAt(s, i + 1);
    }
  }

  /** A list with a head piece has an empty piece exactly when the head or the tail has one. */
  lemma EmptyPieceCons(ps: seq<string>, head: string, tail: seq<string>)
    requires ps == [head] + tail
    ensures HasEmptyPiece(ps) <==> head == [] || HasEmptyPiece(tail)
  {
    if HasEmptyPiece(tail) {
      var k :| 0 <= k < |tail| && tail[k] == [];
      assert ps[k + 1] == [];
    }
    if head == [] {
      assert ps[0] == [];
    }
    if HasEmptyPiece(ps) {
      var k :| 0 <= k < |ps| && ps[k] == [];
      if k > 0 {
        assert tail[k - 1] == [];
      } else {
        assert ps[0] == head;
      }
    }
  }

  lemma EmptyPieceStep(s: string, i: nat)
    requires s != [] && i == IndexOf(s, ',') && i < |s|
    ensures HasEmptyPiece(Pieces(s)) <==> i == 0 || HasEmptyPiece(Pieces(s[i + 1..]))
  {
    assert Pieces(s) == [s[..i]] + Pieces(s[i + 1..]);
    EmptyPieceCons(Pieces(s), s[..i], Pieces(s[i + 1..]));
    assert |s[..i]| == i;
  }

  /** An empty piece comes exactly from a comma at the start of the line or two commas in a row. */
  lemma {:induction false} EmptyPieceIffCommaRun(s: string)
    ensures HasEmptyPiece(Pieces(s)) <==> CommaRun(s)
    decreases |s|
  {
    if s != [] {
      var i := IndexOf(s, ',');
      if i == |s| {
        assert Pieces(s) == [s];
        assert !CommaRun(s);
      } else {
        EmptyPieceIffCommaRun(s[i + 1..]);
        EmptyPieceStep(s, i);
        CommaRunStep(s, i);
      }
    }
  }

  // ---------------------------------------------------------------------------
  // One piece: key, value, trimming

  datatype Entry = Entry(key: string, value: string)

  /** A piece split at its first '='; a piece without '=' is a key with an empty value. */
  function SplitPair(kv: string): (e: Entry)
    ensures IndexOf(kv, '=') == |kv| ==> e == Entry(kv, "")
    ensures IndexOf(kv, '=') < |kv| ==> kv == e.key + "=" + e.value && '=' !in e.key
  {
    var pos := IndexOf(kv, '=');
    if pos == |kv| then Entry(kv, "") else Entry(kv[..pos], kv[pos + 1..])
  }

  predicate AllSpaces(s: string) {
    forall i :: 0 <= i < |s| ==> s[i] == ' '
  }

  function LeadingSpaces(s: string): (n: nat)
    ensures n <= |s|
    ensures forall i :: 0 <= i < n ==> s[i] == ' '
    ensures n < |s| ==> s[n] != ' '
    decreases |s|
  {
    if s == [] || s[0] != ' ' then 0 else 1 + LeadingSpaces(s[1..])
  }

  function TrailingSpaces(s: string): (n: nat)
    ensures n <= |s|
    ensures forall i :: |s| - n <= i < |s| ==> s[i] == ' '
    ensures n < |s| ==> s[|s| - n - 1] != ' '
    decreases |s|
  {
    if s == [] || s[|s| - 1] != ' ' then 0 else 1 + TrailingSpaces(s[..|s| - 1])
  }

  /** Where the leading and trailing spaces of a key that is not all spaces end. */
  lemma TrimBounds(k: string)
    requires !AllSpaces(k)
    ensures LeadingSpaces(k) + TrailingSpaces(k) < |k|
  {
    var p :| 0 <= p < |k| && k[p] != ' ';
  }

  /** The key with the spaces at both of its ends removed (find_first_not_of / find_last_not_of
      and erase). A key made only of spaces has no non-space character to anchor on, so the
      source leaves it as it is. */
  function TrimKey(k: string): (t: string)
    ensures AllSpaces(k) ==> t == k
    ensures !AllSpaces(k) ==>
              t != [] && t[0] != ' ' && t[|t| - 1] != ' ' &&
              exists a :: 0 <= a <= |k| - |t| && t == k[a..a + |t|] &&
                          AllSpaces(k[..a]) && AllSpaces(k[a + |t|..])
  {
    if AllSpaces(k) then k
    else
      TrimBounds(k);
      var a, b := LeadingSpaces(k), TrailingSpaces(k);
      var t := k[a..|k| - b];
      assert t[0] == k[a] && t[|t| - 1] == k[|k| - b - 1];
      assert k[a + |t|..] == k[|k| - b..];
      assert AllSpaces(k[..a]) && AllSpaces(k[|k| - b..]);
      t
  }

  // ---------------------------------------------------------------------------
  // The whole line

  /** std::unordered_map::emplace: inserts only when the key is absent. */
  function Emplace(m: KvMap, k: string, v: string): KvMap {
    if k in m then m else m[k := v]
  }

  /** What parse_kv_str returns and what its output map holds when it returns. */
  datatype KvOutcome = KvOutcome(ok: bool, pairs: KvMap)

  /** The parse loop over the remaining pieces, with the map built so far. */
  function Absorb(ps: seq<string>, acc: KvMap): KvOutcome
    decreases |ps|
  {
    if ps == [] then KvOutcome(true, acc)
    else if ps[0] == [] then KvOutcome(false, acc)
    else
      var e := SplitPair(ps[0]);
      Absorb(ps[1..], if e.key == [] then acc else Emplace(acc, TrimKey(e.key), e.value))
  }

  /** parse_kv_str on a line, with an output map that starts empty (as at every call site). */
  function KvParse(line: string): KvOutcome {
    Absorb(Pieces(line), map[])
  }

  /** Reference reading of a key: the value of the first piece whose trimmed, non-empty key is k. */
  function FirstValue(ps: seq<string>, k: string): Option<string>
    decreases |ps|
  {
    if ps == [] then None
    else
      var e := SplitPair(ps[0]);
      if e.key != [] && TrimKey(e.key) == k then Some(e.value) else FirstValue(ps[1..], k)
  }

  /** operator[] on the map: the stored value, or the empty string for a missing key. */
  function Get(m: KvMap, k: string): string {
    if k in m then m[k] else ""
  }

  lemma {:induction false} AbsorbOkIff(ps: seq<string>, acc: KvMap)
    ensures Absorb(ps, acc).ok <==> !HasEmptyPiece(ps)
    decreases |ps|
  {
    if ps != [] && ps[0] != [] {
      var e := SplitPair(ps[0]);
      AbsorbOkIff(ps[1..], if e.key == [] then acc else Emplace(acc, TrimKey(e.key), e.value));
      if HasEmptyPiece(ps) {
        var k :| 0 <= k < |ps| && ps[k] == [];
        assert ps[1..][k - 1] == [];
      }
      if HasEmptyPiece(ps[1..]) {
        var k :| 0 <= k < |ps[1..]| && ps[1..][k] == [];
        assert ps[k + 1] == [];
      }
    } else if ps != [] {
      assert ps[0] == [];
    }
  }

  /** parse_kv_str fails exactly when the line starts with a comma or holds two commas in a row. */
  lemma KvParseOkIff(line: string)
    ensures KvParse(line).ok <==> !CommaRun(line)
  {
    AbsorbOkIff(Pieces(line), map[]);
    EmptyPieceIffCommaRun(line);
  }

  lemma {:induction false} AbsorbFirstWins(ps: seq<string>, acc: KvMap, k: string)
    requires Absorb(ps, acc).ok
    ensures k in Absorb(ps, acc).pairs <==> k in acc || FirstValue(ps, k).Some?
    ensures k in Absorb(ps, acc).pairs ==>
              Absorb(ps, acc).pairs[k] == if k in acc then acc[k] else FirstValue(ps, k).value
    decreases |ps|
  {
    if ps != [] {
      var e := SplitPair(ps[0]);
      AbsorbFirstWins(ps[1..], if e.key == [] then acc else Emplace(acc, TrimKey(e.key), e.value), k);
    }
  }

  /** After a successful parse, every key holds the value of its first occurrence on the line
      (trimmed keys, verbatim values, pieces with an empty key skipped), and no other key is present. */
  lemma KvParseFirstWins(line: string, k: string)
    requires KvParse(line).ok
    ensures k in KvParse(line).pairs <==> FirstValue(Pieces(line), k).Some?
    ensures Get(KvParse(line).pairs, k) == match FirstValue(Pieces(line), k) case Some(v) => v case None => ""
  {
    AbsorbFirstWins(Pieces(line), map[], k);
  }

  // ---------------------------------------------------------------------------
  // The two line writers, exactly as they format (the '\n' each line ends with is the line break
  // of the file model, not part of the line)

  /** The first checkpoint line (src/s3_resumable_upload.cpp:152): fields joined with ':'. */
  function DescriptorLine(uploadId: string, path: string, size: nat, bucket: string, key: string,
                          partCount: nat): string
  {
    "upload_id=" + DescriptorRest(uploadId, path, size, bucket, key, partCount)
  }

  /** Everything of the first line after "upload_id=". */
  function DescriptorRest(uploadId: string, path: string, size: nat, bucket: string, key: string,
                          partCount: nat): string
  {
    uploadId + ":path=" + path + ":size=" + NatToString(size) +
    ":bucket=" + bucket + ":key=" + key + ":part_count=" + NatToString(partCount)
  }

  /** One part record (src/s3_resumable_upload.cpp:231): fields joined with ':'. */
  function PartLine(etag: string, offset: nat, partNum: nat): string {
    "etag=" + PartRest(etag, offset, partNum)
  }

  /** Everything of a part record after "etag=". */
  function PartRest(etag: string, offset: nat, partNum: nat): string {
    etag + ":offset=" + NatToString(offset) + ":part_num=" + NatToString(partNum)
  }

  /** A comma-free line `name=rest` parses as the single pair name -> rest. */
  lemma SinglePairLine(line: string, name: string, rest: string)
    requires line == name + "=" + rest
    requires name != [] && name[0] != ' ' && name[|name| - 1] != ' '
    requires '=' !in name && ',' !in name && ',' !in rest
    ensures KvParse(line) == KvOutcome(true, map[name := rest])
  {
    assert ',' !in line;
    IndexOfUnique(line, ',', |line|);
    assert Pieces(line) == [line];
    forall j | 0 <= j < |name| ensures line[j] != '=' {
      assert line[j] == name[j];
    }
    IndexOfUnique(line, '=', |name|);
    assert line[..|name|] == name && line[|name| + 1..] == rest;
    assert SplitPair(line) == Entry(name, rest);
    assert TrimKey(name) == name by {
      assert !AllSpaces(name);
      assert LeadingSpaces(name) == 0 && TrailingSpaces(name) == 0;
      assert name[0..|name|] == name;
    }
    assert [line][1..] == [];
    assert Absorb([line], map[]) == Absorb([], Emplace(map[], name, rest));
  }

  /** What the reader makes of a descriptor line the code wrote: the writer separates the fields
      with ':' but the reader splits on ',', so the whole line is one pair keyed "upload_id". */
  lemma DescriptorLineParse(uploadId: string, path: string, size: nat, bucket: string, key: string,
                            partCount: nat)
    requires ',' !in uploadId && ',' !in path && ',' !in bucket && ',' !in key
    ensures KvParse(DescriptorLine(uploadId, path, size, bucket, key, partCount)) ==
            KvOutcome(true, map["upload_id" := DescriptorRest(uploadId, path, size, bucket, key, partCount)])
  {
    var sz, pc := NatToString(size), NatToString(partCount);
    NatToStringHasNoSeparator(size, ',');
    NatToStringHasNoSeparator(partCount, ',');
    var rest := DescriptorRest(uploadId, path, size, bucket, key, partCount);
    var front := uploadId + ":path=" + path + ":size=";
    var middle := sz + ":bucket=" + bucket + ":key=" + key;
    assert rest == front + middle + (":part_count=" + pc);
    assert ',' !in front && ',' !in middle && ',' !in ":part_count=" + pc;
    var line := DescriptorLine(uploadId, path, size, bucket, key, partCount);
    assert line == "upload_id" + "=" + rest;
    SinglePairLine(line, "upload_id", rest);
  }

  /** What the reader makes of a part record the code wrote: one pair keyed "etag". */
  lemma PartLineParse(etag: string, offset: nat, partNum: nat)
    requires ',' !in etag
    ensures KvParse(PartLine(etag, offset, partNum)) ==
            KvOutcome(true, map["etag" := PartRest(etag, offset, partNum)])
  {
    NatToStringHasNoSeparator(offset, ',');
    NatToStringHasNoSeparator(partNum, ',');
    var rest := PartRest(etag, offset, partNum);
    assert ',' !in rest;
    var line := PartLine(etag, offset, partNum);
    assert line == "etag" + "=" + rest;
    SinglePairLine(line, "etag", rest);
  }
}
