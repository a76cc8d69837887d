/** be/util/download_util.cpp: stream into a temporary file and a digest, rename on a match. */
module DownloadUtil {
  import opened Wrappers
  import opened FsUtil
  import opened Md5

  /** What the outside world does to one download: the chunks the transfer hands over before it
      ends (well or badly; its own status is not looked at), and which file operations work.
      `flushed` bounds the bytes the stream's final flush gets onto the disk: `fclose` runs after the
      rename and its result is ignored. */
  datatype Transfer = Transfer(
    openOk: bool, chunks: seq<Bytes>, writeFault: Option<nat>, renameOk: bool, flushed: nat)
  {
    /** `fwrite(data, length, 1, fp)` reports anything but 1 also for an empty chunk. */
    predicate WriteFails(i: nat)
      requires i < |chunks|
    {
      chunks[i] == [] || writeFault == Some(i)
    }

    predicate AllWritten() {
      forall i | 0 <= i < |chunks| :: !WriteFails(i)
    }

    function OnDisk(content: Bytes): Bytes {
      if flushed < |content| then content[..flushed] else content
    }
  }

  function Concat(chunks: seq<Bytes>): Bytes {
    if chunks == [] then [] else Concat(chunks[..|chunks| - 1]) + chunks[|chunks| - 1]
  }

  /** The checksum test of a finished stream. */
  predicate Matches(md5: Bytes -> Digest, content: Bytes, expected: string) {
    IEquals(HexEncode(md5(content)), expected)
  }

  /** The test in terms of the digest: the checksum, in whatever case, stands for its bytes. */
  lemma MatchesIffStandsFor(md5: Bytes -> Digest, content: Bytes, expected: string)
    ensures Matches(md5, content, expected) <==> HexDecode(expected) == Some(md5(content))
  {
    MatchesIffDecodes(md5(content), expected);
  }

  /** Everything that has to go right, spelled out. */
  predicate GoesRight(md5: Bytes -> Digest, expected: string, t: Transfer) {
    && t.openOk && t.renameOk
    && (forall i | 0 <= i < |t.chunks| :: |t.chunks[i]| > 0)
    && (t.writeFault.Some? ==> t.writeFault.value >= |t.chunks|)
    && HexDecode(expected) == Some(md5(Concat(t.chunks)))
  }

  lemma SucceedsIffGoesRight(md5: Bytes -> Digest, expected: string, t: Transfer)
    ensures Succeeds(md5, expected, t) <==> GoesRight(md5, expected, t)
  {
    MatchesIffStandsFor(md5, Concat(t.chunks), expected);
    if t.AllWritten() {
      forall i | 0 <= i < |t.chunks|
        ensures |t.chunks[i]| > 0 && t.writeFault != Some(i)
      {
        assert !t.WriteFails(i);
      }
    } else {
      var i :| 0 <= i < |t.chunks| && t.WriteFails(i);
    }
  }

  predicate Succeeds(md5: Bytes -> Digest, expected: string, t: Transfer) {
    t.openOk && t.AllWritten() && Matches(md5, Concat(t.chunks), expected) && t.renameOk
  }

  /** Digest, comparison and rename: lines 42-53. */
  method PutInPlace(fs: FileSystem, digest: Md5Digest, tmpFile: string, targetFile: string,
                    expected: string, renameOk: bool) returns (status: Status)
    requires tmpFile in fs.files && tmpFile != targetFile
    modifies fs`files, digest`hex
    ensures status.Ok? <==> Matches(digest.md5, digest.message, expected) && renameOk
    ensures fs.files == if status.Ok? then (old(fs.files) - {tmpFile})[targetFile := old(fs.files)[tmpFile]]
                        else old(fs.files)
  {
    digest.Digest();
    if !IEquals(digest.hex, expected) { return InternalError; }
    if !renameOk { return InternalError; }
    fs.files := (fs.files - {tmpFile})[targetFile := fs.files[tmpFile]];
    status := Ok;
  }

  /** All or nothing. Success exactly when everything worked and the digest of the delivered bytes
      matches: the temporary file is gone and the target holds those bytes, as far as the final
      flush got. Any error leaves every file but the temporary one as it was. */
  method Download(fs: FileSystem, md5: Bytes -> Digest, tmpFile: string, targetFile: string,
                  expected: string, t: Transfer) returns (status: Status)
    requires tmpFile != targetFile
    modifies fs`files
    ensures status.Ok? <==> Succeeds(md5, expected, t)
    ensures status.Ok? <==> GoesRight(md5, expected, t)
    ensures status.Ok? ==>
      fs.files == (old(fs.files) - {tmpFile})[targetFile := t.OnDisk(Concat(t.chunks))]
    ensures !status.Ok? ==> fs.files - {tmpFile} == old(fs.files) - {tmpFile}
  {
    SucceedsIffGoesRight(md5, expected, t);
    if !t.openOk { return InternalError; }
    fs.files := fs.files[tmpFile := []];
    var digest := new Md5Digest(md5);
    ghost var content: Bytes := [];
    status := Ok;
    var i := 0;
    while i < |t.chunks| && status.Ok?
      invariant i <= |t.chunks|
      invariant status.Ok? <==> forall j | 0 <= j < i :: !t.WriteFails(j)
      invariant status.Ok? ==> digest.message == Concat(t.chunks[..i])
      invariant fs.files == old(fs.files)[tmpFile := content]
      invariant status.Ok? ==> content == digest.message
    {
      assert t.chunks[..i + 1][..i] == t.chunks[..i];
      digest.Update(t.chunks[i]);
      if t.WriteFails(i) {
        status := InternalError;
      } else {
        fs.files := fs.files[tmpFile := fs.files[tmpFile] + t.chunks[i]];
        content := content + t.chunks[i];
      }
      i := i + 1;
    }
    if status.Ok? {
      assert t.chunks[..i] == t.chunks;
      status := PutInPlace(fs, digest, tmpFile, targetFile, expected, t.renameOk);
    }
    // The deferred close, after the rename.
    var open := if status.Ok? then targetFile else tmpFile;
    fs.files := fs.files[open := t.OnDisk(fs.files[open])];
  }

  /** What a successful download guarantees about the target: its bytes are the beginning of the verified
      ones the final flush got down, and all of them exactly when it got everything. */
  lemma VerifiedIffFlushed(t: Transfer)
    ensures var content := Concat(t.chunks);
      && (t.OnDisk(content) == content <==> t.flushed >= |content|)
      && t.OnDisk(content) <= content
      && (t.flushed < |content| ==> |t.OnDisk(content)| == t.flushed)
  {
  }

  lemma {:induction false} ConcatAppends(a: seq<Bytes>, b: seq<Bytes>)
    ensures Concat(a + b) == Concat(a) + Concat(b)
  {
    if b == [] {
      assert a + b == a;
    } else {
      assert (a + b)[..|a + b| - 1] == a + b[..|b| - 1];
      ConcatAppends(a, b[..|b| - 1]);
    }
  }

  /** What is left of a transfer's outcome once its bytes are given: its status, and what the target
      holds if that is OK. */
  function Outcome(md5: Bytes -> Digest, expected: string, t: Transfer): (Status, Bytes) {
    (if Succeeds(md5, expected, t) then Ok else InternalError, t.OnDisk(Concat(t.chunks)))
  }

  /** The transfer with its `i`th chunk cut in two; a later write fault is counted on. */
  function Cut(t: Transfer, i: nat, x: Bytes, y: Bytes): Transfer
    requires i < |t.chunks|
  {
    t.(chunks := t.chunks[..i] + [x, y] + t.chunks[i + 1..],
       writeFault := match t.writeFault
                     case None => None
                     case Some(k) => Some(if k <= i then k else k + 1))
  }

  /** Cutting a chunk in two changes neither what is digested nor what is stored, so a transfer's
      outcome depends on its bytes and not on how they arrive. */
  lemma CutFurther(md5: Bytes -> Digest, expected: string, t: Transfer, i: nat, x: Bytes, y: Bytes)
    requires i < |t.chunks| && t.chunks[i] == x + y && x != [] && y != []
    ensures Outcome(md5, expected, Cut(t, i, x, y)) == Outcome(md5, expected, t)
  {
    var u := Cut(t, i, x, y);
    CutKeepsBytes(t.chunks, i, x, y);
    if t.AllWritten() {
      assert !t.WriteFails(i);
      forall j | 0 <= j < |u.chunks|
        ensures !u.WriteFails(j)
      {
        assert j < i ==> !t.WriteFails(j);
        assert j > i + 1 ==> !t.WriteFails(j - 1);
      }
    } else {
      var j :| 0 <= j < |t.chunks| && t.WriteFails(j);
      assert u.WriteFails(if j <= i then j else j + 1);
    }
  }

  lemma CutKeepsBytes(chunks: seq<Bytes>, i: nat, x: Bytes, y: Bytes)
    requires i < |chunks| && chunks[i] == x + y
    ensures Concat(chunks[..i] + [x, y] + chunks[i + 1..]) == Concat(chunks)
  {
    assert chunks == chunks[..i] + [x + y] + chunks[i + 1..];
    CutBetween(chunks[..i], x, y, chunks[i + 1..]);
  }

  lemma CutBetween(front: seq<Bytes>, x: Bytes, y: Bytes, back: seq<Bytes>)
    ensures Concat(front + [x, y] + back) == Concat(front + [x + y] + back)
  {
    ConcatAround(front, [x, y], back);
    ConcatAround(front, [x + y], back);
    ConcatShort(x, y);
  }

  lemma ConcatAround(a: seq<Bytes>, b: seq<Bytes>, c: seq<Bytes>)
    ensures Concat(a + b + c) == Concat(a) + Concat(b) + Concat(c)
  {
    ConcatAppends(a + b, c);
    ConcatAppends(a, b);
  }

  lemma ConcatOne(x: Bytes)
    ensures Concat([x]) == x
  {
    assert [x][..0] == [];
  }

  lemma ConcatShort(x: Bytes, y: Bytes)
    ensures Concat([x, y]) == x + y == Concat([x + y])
  {
    assert [x, y][..1] == [x];
    ConcatOne(x);
    ConcatOne(x + y);
  }
}
