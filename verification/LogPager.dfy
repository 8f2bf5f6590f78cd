/**
 The backwards log pager (app/admin.go).

 A page of the log is found by walking a cursor from the end of the file toward its start, one byte at a time,
 cutting a line at every newline byte and at offset 0, and collecting the lines of the requested page; they are
 found last line first and reversed in place at the end. A newline byte belongs to the line it starts.
 */
module LogPager {
  import opened Int64
  import opened Wrappers

  type Bytes = seq<bv8>

  const NEWLINE: bv8 := 10

  // ---------------------------------------------------------------------------------------------------------
  // Specification: cutting a file into segments, and pages of segments

  function Flatten(segments: seq<Bytes>): Bytes {
    if segments == [] then [] else Flatten(segments[..|segments| - 1]) + segments[|segments| - 1]
  }

  predicate IsCut(content: Bytes, i: int) {
    i == 0 || (0 < i < |content| && content[i] == NEWLINE)
  }

  /** Where the last segment of a non-empty content begins. */
  function LastCut(content: Bytes): (i: nat)
    requires content != []
    ensures i < |content| && IsCut(content, i)
    ensures forall k | i < k < |content| :: !IsCut(content, k)
  {
    var last := |content| - 1;
    if IsCut(content, last) then last
    else
      assert forall k | 0 <= k < last :: IsCut(content, k) <==> IsCut(content[..last], k);
      LastCut(content[..last])
  }

  function Segments(content: Bytes): seq<Bytes>
    decreases |content|
  {
    if content == [] then [] else Segments(content[..LastCut(content)]) + [content[LastCut(content)..]]
  }

  /** A segment: not empty, and a newline only as its first byte. */
  predicate IsSegment(s: Bytes) {
    s != [] && forall k | 0 < k < |s| :: s[k] != NEWLINE
  }

  /** A decomposition of the content into segments, each but the first starting at a newline. */
  ghost predicate IsSegmentation(segments: seq<Bytes>, content: Bytes) {
    && Flatten(segments) == content
    && (forall i | 0 <= i < |segments| :: IsSegment(segments[i]))
    && (forall i | 0 < i < |segments| :: segments[i][0] == NEWLINE)
  }

  lemma {:induction false} SegmentsIsSegmentation(content: Bytes)
    ensures IsSegmentation(Segments(content), content)
    decreases |content|
  {
    if content != [] {
      var cut := LastCut(content);
      var before, last := Segments(content[..cut]), content[cut..];
      SegmentsIsSegmentation(content[..cut]);
      assert (before + [last])[..|before|] == before;
      assert content[..cut] + last == content;
      if cut == 0 {
        assert before == [];
      }
      forall k | 0 < k < |last| ensures last[k] != NEWLINE {
        assert !IsCut(content, cut + k);
      }
    }
  }

  /** There is only one such decomposition. */
  lemma {:induction false} SegmentationIsUnique(segments: seq<Bytes>, content: Bytes)
    requires IsSegmentation(segments, content)
    ensures segments == Segments(content)
    decreases |segments|
  {
    if segments != [] {
      var before, last := segments[..|segments| - 1], segments[|segments| - 1];
      var head := Flatten(before);
      if before == [] {
        assert head == [];
      } else {
        FlattenNonEmpty(before);
      }
      LastCutOf(head, last);
      assert content[..|head|] == head && content[|head|..] == last;
      SegmentationIsUnique(before, head);
    }
  }

  /** A segment appended to something starts at the last cut. */
  lemma LastCutOf(head: Bytes, last: Bytes)
    requires IsSegment(last) && (head != [] ==> last[0] == NEWLINE)
    ensures LastCut(head + last) == |head|
  {
    var content := head + last;
    assert content[|head|] == last[0];
    forall k | |head| < k < |content| ensures !IsCut(content, k) {
      assert content[k] == last[k - |head|];
    }
    assert IsCut(content, |head|);
  }

  lemma FlattenNonEmpty(segments: seq<Bytes>)
    requires segments != [] && forall i | 0 <= i < |segments| :: IsSegment(segments[i])
    ensures Flatten(segments) != []
  {}

  function Max(a: int, b: int): int {
    if a < b then b else a
  }

  /** How many lines are skipped before the page: none for a product that is negative or becomes so by overflowing. */
  function Skip(page: int, perPage: int): nat {
    Max(0, Wrap64(page * perPage))
  }

  /** The requested page of the segments, in file order. A page size of zero never stops the scan unless its first
      step collects nothing, and a negative one never stops it. */
  function Page(segments: seq<Bytes>, skip: nat, perPage: int, endsInCut: bool): seq<Bytes> {
    var hi := Max(0, |segments| - skip);
    if perPage > 0 then segments[Max(0, hi - perPage)..hi]
    else if perPage == 0 && !endsInCut then []
    else segments[..hi]
  }

  /** The last byte of the content is where a segment begins. */
  predicate EndsInCut(content: Bytes) {
    content != [] && IsCut(content, |content| - 1)
  }

  /** What is paged: the file without one trailing newline. */
  function Content(file: Bytes): Bytes {
    if file != [] && file[|file| - 1] == NEWLINE then file[..|file| - 1] else file
  }

  /** The lines of pages `k - 1` down to 0, one page after the other. */
  function PagesDown(segments: seq<Bytes>, perPage: int, k: nat): seq<Bytes> {
    if k == 0 then [] else Page(segments, Skip(k - 1, perPage), perPage, false) + PagesDown(segments, perPage, k - 1)
  }

  lemma SlicesJoin(segments: seq<Bytes>, lo: nat, hi: nat)
    requires lo <= hi <= |segments|
    ensures segments[lo..hi] + segments[hi..] == segments[lo..]
  {}

  lemma {:induction false} PagesDownIsSuffix(segments: seq<Bytes>, perPage: int, k: nat, end: nat)
    requires perPage > 0 && end == k * perPage && end - perPage <= MAX_INT64
    ensures PagesDown(segments, perPage, k) == segments[Max(0, |segments| - end)..]
  {
    if k > 0 {
      var start := end - perPage;
      assert start == (k - 1) * perPage && 0 <= start;
      WrapIsIdentity(start);
      PagesDownIsSuffix(segments, perPage, k - 1, start);
      SlicesJoin(segments, Max(0, |segments| - end), Max(0, |segments| - start));
    }
  }

  /** The pages tile the file: from the highest page down to page 0 their lines are exactly the segments, so put
      together they give back the content byte for byte, for every positive page size, if the product for the highest
      page does not overflow. */
  lemma PagesTileTheFile(content: Bytes, perPage: int, pages: nat)
    requires perPage > 0 && |Segments(content)| <= pages * perPage <= MAX_INT64 + perPage
    ensures PagesDown(Segments(content), perPage, pages) == Segments(content)
    ensures Flatten(PagesDown(Segments(content), perPage, pages)) == content
  {
    PagesDownIsSuffix(Segments(content), perPage, pages, pages * perPage);
    SegmentsIsSegmentation(content);
  }

  /** A page past the end is empty if and only if its product, taken to 64 bits, still is past the end. */
  lemma PastTheEndIff(segments: seq<Bytes>, page: nat, perPage: int, endsInCut: bool)
    requires perPage > 0 && page * perPage >= |segments| > 0
    ensures Page(segments, Skip(page, perPage), perPage, endsInCut) == [] <==> Wrap64(page * perPage) >= |segments|
  {}

  /** With 8192 lines a page, page 2^51 is page 0 again. */
  lemma PageWrapsAround(segments: seq<Bytes>, endsInCut: bool)
    ensures Page(segments, Skip(0x8_0000_0000_0000, 0x2000), 0x2000, endsInCut)
         == Page(segments, Skip(0, 0x2000), 0x2000, endsInCut)
  {
    assert 0x8_0000_0000_0000 * 0x2000 == 0x1_0000_0000_0000_0000;
  }

  // ---------------------------------------------------------------------------------------------------------
  // The code

  datatype LogError = FileReadError

  /** An open file: its bytes, which of the reads of it fail, and the cursor that Seek moves. */
  class LogFile {
    const bytes: Bytes
    const readFails: nat -> bool
    var readCount: nat
    var cursor: nat

    constructor (bytes: Bytes, readFails: nat -> bool)
      ensures this.bytes == bytes && this.readFails == readFails && cursor == 0 && readCount == 0
    {
      this.bytes, this.readFails, readCount, cursor := bytes, readFails, 0, 0;
    }

    ghost predicate Reliable() {
      forall n :: !readFails(n)
    }

    /** Moves the cursor to an absolute position; a negative one is an error and leaves it where it was. */
    method SeekTo(position: int) returns (r: Result<nat, LogError>)
      modifies this`cursor
      ensures position >= 0 ==> r == Ok(position) && cursor == position
      ensures position < 0 ==> r == Err(FileReadError) && cursor == old(cursor)
    {
      if position < 0 {
        return Err(FileReadError);
      }
      cursor := position;
      return Ok(position);
    }

    /** Reads n bytes at a position; reading outside the file is an error, and so is a read that fails. */
    method ReadAt(n: nat, position: int) returns (r: Result<Bytes, LogError>)
      modifies this`readCount
      ensures r == if 0 <= position && position + n <= |bytes| && !readFails(old(readCount))
                   then Ok(bytes[position..position + n]) else Err(FileReadError)
    {
      var fails := readFails(readCount);
      readCount := readCount + 1;
      if 0 <= position && position + n <= |bytes| && !fails {
        return Ok(bytes[position..position + n]);
      }
      return Err(FileReadError);
    }
  }

  /** The file without a newline (byte 10) at its very end. */
  predicate Trims(file: Bytes, trimmed: Bytes) {
    if file != [] && file[|file| - 1] == 10 then file == trimmed + [10] else file == trimmed
  }

  lemma ContentTrims(file: Bytes, trimmed: Bytes)
    requires Trims(file, trimmed)
    ensures trimmed == Content(file)
  {}

  /** These lines, without the last `skip`, at most `perPage` of them. */
  function LastLines(lines: seq<Bytes>, skip: nat, perPage: nat): seq<Bytes> {
    if |lines| <= skip then []
    else if |lines| <= skip + perPage then lines[..|lines| - skip]
    else lines[|lines| - skip - perPage..|lines| - skip]
  }

  /** The answer for a file that can be read, for a positive page size: the file without a newline at its end is cut
      before every newline, and the page is taken from the end. */
  ghost predicate PageOfFile(file: Bytes, skip: nat, perPage: nat, r: Result<seq<Bytes>, LogError>) {
    forall trimmed: Bytes, lines: seq<Bytes> | Trims(file, trimmed) && IsSegmentation(lines, trimmed) ::
      if trimmed == [] then r.Err? else r == Ok(LastLines(lines, skip, perPage))
  }

  lemma PageIsOfFile(file: Bytes, page: int, perPage: int)
    requires 0 <= page * perPage <= MAX_INT64 && perPage > 0
    ensures var content := Content(file);
      PageOfFile(file, page * perPage, perPage,
        if content == [] then Err(FileReadError)
        else Ok(Page(Segments(content), Skip(page, perPage), perPage, EndsInCut(content))))
  {
    hide Trims, IsSegmentation, Segments, Content, EndsInCut;
    WrapIsIdentity(page * perPage);
    forall trimmed: Bytes, lines: seq<Bytes> | Trims(file, trimmed) && IsSegmentation(lines, trimmed)
      ensures trimmed == Content(file) && lines == Segments(trimmed)
      ensures LastLines(lines, page * perPage, perPage) == Page(lines, Skip(page, perPage), perPage, EndsInCut(trimmed))
    {
      ContentTrims(file, trimmed);
      SegmentationIsUnique(lines, trimmed);
    }
  }

  /** The same for a page size that is not positive: all lines, except that a size of zero gives none if what is paged has
      several bytes and does not end in a newline. */
  ghost predicate NoPageOfFile(file: Bytes, perPage: int, r: Result<seq<Bytes>, LogError>) {
    forall trimmed: Bytes, lines: seq<Bytes> | Trims(file, trimmed) && IsSegmentation(lines, trimmed) ::
      if trimmed == [] then r.Err?
      else if perPage == 0 && |trimmed| > 1 && trimmed[|trimmed| - 1] != 10 then r == Ok([])
      else r == Ok(lines)
  }

  lemma NoPageIsOfFile(file: Bytes, page: int, perPage: int)
    requires MIN_INT64 <= page * perPage <= 0 && perPage <= 0
    ensures var content := Content(file);
      NoPageOfFile(file, perPage,
        if content == [] then Err(FileReadError)
        else Ok(Page(Segments(content), Skip(page, perPage), perPage, EndsInCut(content))))
  {
    hide Trims, IsSegmentation, Segments, Content;
    WrapIsIdentity(page * perPage);
    forall trimmed: Bytes, lines: seq<Bytes> | Trims(file, trimmed) && IsSegmentation(lines, trimmed)
      ensures trimmed == Content(file) && lines == Segments(trimmed)
      ensures trimmed != [] ==>
        Page(lines, Skip(page, perPage), perPage, EndsInCut(trimmed))
          == if perPage == 0 && |trimmed| > 1 && trimmed[|trimmed| - 1] != 10 then [] else lines
    {
      assert lines[..|lines|] == lines;
      ContentTrims(file, trimmed);
      SegmentationIsUnique(lines, trimmed);
    }
  }

  /** Whether the answer to a request is right, as long as the product does not overflow. */
  ghost predicate RequestedOfFile(file: Bytes, page: int, perPage: int, r: Result<seq<Bytes>, LogError>) {
    && (perPage > 0 && 0 <= page * perPage <= MAX_INT64 ==> PageOfFile(file, page * perPage, perPage, r))
    && (perPage <= 0 && MIN_INT64 <= page * perPage <= 0 ==> NoPageOfFile(file, perPage, r))
  }

  lemma RequestIsOfFile(file: Bytes, page: int, perPage: int)
    ensures var content := Content(file);
      RequestedOfFile(file, page, perPage,
        if content == [] then Err(FileReadError)
        else Ok(Page(Segments(content), Skip(page, perPage), perPage, EndsInCut(content))))
  {
    hide PageOfFile, NoPageOfFile, Page, Segments, Content, EndsInCut, Skip;
    if perPage > 0 && 0 <= page * perPage <= MAX_INT64 {
      PageIsOfFile(file, page, perPage);
    }
    if perPage <= 0 && MIN_INT64 <= page * perPage <= 0 {
      NoPageIsOfFile(file, page, perPage);
    }
  }

  /** The lines of a page; an error exactly when the file cannot be opened, has no content, or a read fails in the scan.
      If the size or the last byte of the file cannot be read, a trailing newline is paged as a line of its own. */
  method GetLogsSkipSend(enableFile: bool, open: Option<LogFile>, statFails: bool, page: int64, perPage: int64)
    returns (r: Result<seq<Bytes>, LogError>)
    modifies if open.Some? then {open.value} else {}
    ensures !enableFile ==> r == Ok([[]])
    ensures enableFile && open.None? ==> r == Err(FileReadError)
    ensures enableFile && open.Some? ==>
      var file := open.value;
      var content := if statFails || file.readFails(old(file.readCount)) then file.bytes else Content(file.bytes);
      var lines := Page(Segments(content), Skip(page as int, perPage as int), perPage as int, EndsInCut(content));
      && (r.Ok? ==> r == Ok(lines))
      && (content == [] ==> r.Err?)
      && (content != [] && file.Reliable() ==> r == Ok(lines))
    ensures enableFile && open.Some? && open.value.Reliable() && !statFails ==>
      RequestedOfFile(open.value.bytes, page as int, perPage as int, r)
  {
    hide Segments, LastCut, IsSegment, IsSegmentation, Page, EndsInCut, RequestedOfFile, Reversed;
    if open.Some? {
      RequestIsOfFile(open.value.bytes, page as int, perPage as int);
    }
    if !enableFile {
      return Ok([[]]);
    }
    if open.None? {
      return Err(FileReadError);
    }
    var file := open.value;
    var endOffset := 0;
    if !statFails {
      var lastByte := file.ReadAt(1, |file.bytes| - 1);
      if lastByte.Ok? && lastByte.value[0] == NEWLINE {
        endOffset := -1;
      }
    }
    var end := file.SeekTo(|file.bytes| + endOffset);
    if end.Err? {
      return Err(FileReadError);
    }
    ghost var content := file.bytes[..end.value];
    assert content == if statFails || file.readFails(old(file.readCount)) then file.bytes else Content(file.bytes);
    r := CollectLines(file, content, Wrap64(page as int * perPage as int), perPage as int);
    if r.Ok? {
      var lines := Reverse(r.value);
      r := Ok(lines);
    }
    assert r.Err? ==> r.error == FileReadError;
  }

  /** The state of the scan: `count` segments have been cut, the last of them at `end`. */
  ghost predicate Scanned(content: Bytes, segments: seq<Bytes>, end: nat, count: nat) {
    end <= |content| && count <= |segments| && segments[..|segments| - count] == Segments(content[..end])
  }

  /** Cutting one more segment. */
  lemma CutOne(content: Bytes, segments: seq<Bytes>, skip: nat, end: nat, pos: nat, count: nat)
    requires Scanned(content, segments, end, count) && pos < end && IsCut(content, pos)
    requires forall k | pos < k < end :: !IsCut(content, k)
    ensures count < |segments| && Scanned(content, segments, pos, count + 1)
    ensures pos == 0 ==> count + 1 == |segments|
    ensures FromEnd(segments, skip, count + 1)
         == FromEnd(segments, skip, count) + if count + 1 > skip then [content[pos..end]] else []
  {
    LastSegment(content, end, pos);
    NextFromEnd(segments, skip, count, Segments(content[..pos]), content[pos..end]);
    assert pos == 0 ==> |segments[..|segments| - count - 1]| == 0;
  }

  /** Lines 80-90: move one byte toward the start and look whether a line begins there. */
  method StepBack(file: LogFile, ghost content: Bytes) returns (r: Result<(nat, bool), LogError>)
    requires file.cursor <= |content| && content <= file.bytes
    modifies file
    ensures r.Ok? ==> file.cursor == old(file.cursor) - 1 && r == Ok((file.cursor, IsCut(content, file.cursor)))
    ensures r.Ok? ==> old(file.cursor) > 0
    ensures old(file.cursor) > 0 && file.Reliable() ==> r.Ok?
  {
    var at := file.SeekTo(file.cursor - 1);
    if at.Err? {
      return Err(FileReadError);
    }
    var pos := at.value;
    var b := file.ReadAt(1, pos);
    if b.Err? {
      return Err(FileReadError);
    }
    assert file.bytes[pos] == content[pos];
    return Ok((pos, b.value[0] == NEWLINE || pos == 0));
  }

  /** Lines 75-109: the scan. The lines come out last line first. */
  method CollectLines(file: LogFile, ghost content: Bytes, skipped: int, perPage: int)
    returns (r: Result<seq<Bytes>, LogError>)
    requires file.cursor <= |file.bytes| && content == file.bytes[..file.cursor]
    requires perPage == 0 ==> skipped == 0
    modifies file
    ensures content == [] ==> r.Err?
    ensures r.Ok? ==> Reversed(r.value) == Page(Segments(content), Max(0, skipped), perPage, EndsInCut(content))
    ensures content != [] && file.Reliable() ==> r.Ok?
  {
    hide Segments, LastCut, Page, Reversed;
    var lines, lineCount, lineEndPos := [], 0, file.cursor;
    ghost var segments, skip := Segments(content), Max(0, skipped);
    assert content[..lineEndPos] == content;
    assert Scanned(content, segments, lineEndPos, lineCount);
    hide Scanned;
    while true
      invariant file.cursor <= lineEndPos <= |content| && (file.cursor == 0 ==> content == [])
      invariant forall k | file.cursor <= k < lineEndPos :: !IsCut(content, k)
      invariant lineCount <= |segments| && Scanned(content, segments, lineEndPos, lineCount)
      invariant lines == FromEnd(segments, skip, lineCount)
      invariant perPage > 0 ==> |lines| < perPage
      invariant perPage == 0 && file.cursor < |content| ==> EndsInCut(content) && lines != []
      decreases file.cursor
    {
      var step := StepBack(file, content);
      if step.Err? {
        return Err(FileReadError);
      }
      var (pos, isCut) := step.value;
      if isCut {
        CutOne(content, segments, skip, lineEndPos, pos, lineCount);
        lineCount := lineCount + 1;
        if lineCount > skipped {
          var line := file.ReadAt(lineEndPos - pos, pos);
          if line.Err? {
            return Err(FileReadError);
          }
          assert line.value == content[pos..lineEndPos];
          lines := lines + [line.value];
        }
        if pos == 0 {
          break;
        }
        lineEndPos := pos;
      }
      if |lines| == perPage {
        break;
      }
    }
    FinalPage(segments, skip, perPage, EndsInCut(content), lineCount);
    r := Ok(lines);
  }

  lemma NextFromEnd(segments: seq<Bytes>, skip: nat, count: nat, before: seq<Bytes>, line: Bytes)
    requires count <= |segments| && segments[..|segments| - count] == before + [line]
    ensures count < |segments| && segments[..|segments| - count - 1] == before
    ensures FromEnd(segments, skip, count + 1)
         == if count + 1 > skip then FromEnd(segments, skip, count) + [line] else FromEnd(segments, skip, count)
  {
    assert segments[|segments| - count - 1] == (before + [line])[|before|];
    assert segments[..|segments| - count - 1] == (before + [line])[..|before|];
  }

  /** Where the scan stops: all segments are cut, or the page is full, or a page of size zero was full at once. */
  lemma FinalPage(segments: seq<Bytes>, skip: nat, perPage: int, endsInCut: bool, count: nat)
    requires count <= |segments|
    requires var lines := |FromEnd(segments, skip, count)|;
      if perPage > 0 then lines == perPage || (count == |segments| && lines < perPage)
      else if perPage == 0 then (count == 0 && !endsInCut) || (count == |segments| && endsInCut)
      else count == |segments|
    ensures Reversed(FromEnd(segments, skip, count)) == Page(segments, skip, perPage, endsInCut)
  {
    var lines, result := FromEnd(segments, skip, count), Page(segments, skip, perPage, endsInCut);
    assert |lines| == |result|;
    forall k | 0 <= k < |lines| ensures Reversed(lines)[k] == result[k] {
      ReversedAt(lines, k);
    }
  }

  /** The last segment of the first `end` bytes begins at the first cut met from the end. */
  lemma LastSegment(content: Bytes, end: nat, pos: nat)
    requires pos < end <= |content| && IsCut(content, pos)
    requires forall k | pos < k < end :: !IsCut(content, k)
    ensures Segments(content[..end]) == Segments(content[..pos]) + [content[pos..end]]
  {
    var head := content[..end];
    assert IsCut(head, pos) && IsCut(content, LastCut(head));
    assert head[..pos] == content[..pos] && head[pos..] == content[pos..end];
  }

  /** Segments number skip + 1 up to count, counted from the end, in that order. */
  function FromEnd(segments: seq<Bytes>, skip: nat, count: nat): seq<Bytes>
    requires count <= |segments|
  {
    seq(Max(0, count - skip), i requires 0 <= i < count - skip => segments[|segments| - 1 - skip - i])
  }

  function Reversed(s: seq<Bytes>): (r: seq<Bytes>)
    ensures |r| == |s|
  {
    if s == [] then [] else Reversed(s[1..]) + [s[0]]
  }

  lemma {:induction false} ReversedAt(s: seq<Bytes>, k: nat)
    requires k < |s|
    ensures Reversed(s)[k] == s[|s| - 1 - k]
  {
    if k < |s| - 1 {
      ReversedAt(s[1..], k);
    }
  }

  /** Lines 111-113: the swapping loop. */
  method Reverse(s: seq<Bytes>) returns (lines: seq<Bytes>)
    ensures lines == Reversed(s)
  {
    lines := s;
    var i, j := 0, |s| - 1;
    while i < j
      invariant 0 <= i <= j + 1 && j == |s| - 1 - i && |lines| == |s|
      invariant forall k | 0 <= k < i :: lines[k] == s[|s| - 1 - k] && lines[|s| - 1 - k] == s[k]
      invariant forall k | i <= k <= j :: lines[k] == s[k]
    {
      lines := lines[i := lines[j]][j := lines[i]];
      i, j := i + 1, j - 1;
    }
    forall k | 0 <= k < |s| ensures lines[k] == Reversed(s)[k] {
      ReversedAt(s, k);
    }
  }
}
