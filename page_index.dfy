/** The sparse index of a multistream dump (src/lib.rs, `PageIndex`): one
    `offset:id:title` line per page, where `offset` is the byte position
    of the compressed block that holds the page.  Each entry also records
    the page's ordinal inside its block, so that a caller can pick the page
    out of the decompressed block, and the index gives the byte length of
    a block as the distance to the next larger offset. */
module PageIndexing {
  import opened Wrappers
  import opened Strings

  /** `PageIndexEntry`; all four numbers are u64 in the source. */
  datatype PageIndexEntry = PageIndexEntry(
    blockOffset: nat,
    numberInBlock: nat,
    pageId: nat,
    pageTitle: string)

  /** The four ways `build_index_file` aborts on a line; `line` is the
      0-based position of the offending line. */
  datatype IndexError =
    | BadBlockOffset(line: nat)     // first field is not a u64
    | MissingPageId(line: nat)      // no second field
    | MissingPageTitle(line: nat)   // no third field
    | BadPageId(line: nat)          // second field is not a u64

  /** The three fields a well-formed line contributes. */
  datatype LineFields = LineFields(blockOffset: nat, pageId: nat, pageTitle: string)

  /** One line, in the order the source inspects it: the offset, then the
      presence of the id and the title, then the id's digits.  Only the
      first three colon-separated fields are read. */
  function ParseLine(line: string, lineNo: nat): Result<LineFields, IndexError> {
    var fields := Split(line, ':');
    match ParseU64(fields[0])
    case None => Err(BadBlockOffset(lineNo))
    case Some(offset) =>
      if |fields| < 2 then Err(MissingPageId(lineNo))
      else if |fields| < 3 then Err(MissingPageTitle(lineNo))
      else match ParseU64(fields[1])
        case None => Err(BadPageId(lineNo))
        case Some(id) => Ok(LineFields(offset, id, fields[2]))
  }

  /** The loop state of `build_index_file`: the entries so far, and the
      `current_block` / `number_in_block` counters. */
  datatype Scan = Scan(entries: seq<PageIndexEntry>, currentBlock: nat, numberInBlock: nat)

  /** One iteration: a strictly larger offset starts a new block at ordinal
      0; the entry is pushed; the ordinal advances only when the offset is
      the current block's. */
  function Record(st: Scan, f: LineFields): Scan {
    var current := if f.blockOffset > st.currentBlock then f.blockOffset else st.currentBlock;
    var number := if f.blockOffset > st.currentBlock then 0 else st.numberInBlock;
    Scan(st.entries + [PageIndexEntry(f.blockOffset, number, f.pageId, f.pageTitle)],
         current,
         if f.blockOffset == current then number + 1 else number)
  }

  /** The loop over the lines, from `current_block = 0`,
      `number_in_block = 0`; it stops at the first bad line. */
  function ScanLines(lines: seq<string>): Result<Scan, IndexError>
    decreases |lines|
  {
    if lines == [] then Ok(Scan([], 0, 0))
    else
      var st :- ScanLines(lines[..|lines| - 1]);
      var f :- ParseLine(lines[|lines| - 1], |lines| - 1);
      Ok(Record(st, f))
  }

  /** What `build_index_file` stores for the decompressed contents. */
  function BuildIndex(contents: string): Result<seq<PageIndexEntry>, IndexError> {
    var st :- ScanLines(Lines(contents));
    Ok(st.entries)
  }

  // ---------------------------------------------------------------------
  // properties of the index builder

  lemma ScanStep(lines: seq<string>, i: nat)
    requires i < |lines|
    ensures ScanLines(lines[..i + 1]) ==
      match ScanLines(lines[..i])
      case Err(e) => Err(e)
      case Ok(st) =>
        match ParseLine(lines[i], i)
        case Err(e) => Err(e)
        case Ok(f) => Ok(Record(st, f))
  {
    assert lines[..i + 1][..i] == lines[..i];
  }

  lemma {:induction false} ScanPrefixError(lines: seq<string>, k: nat)
    requires k <= |lines|
    requires ScanLines(lines[..k]).Err?
    ensures ScanLines(lines) == ScanLines(lines[..k])
    decreases |lines| - k
  {
    if k < |lines| {
      assert lines[..k + 1][..k] == lines[..k];
      ScanPrefixError(lines, k + 1);
    } else {
      assert lines[..k] == lines;
    }
  }

  /** One entry per line, in line order: the entry's offset and id are the
      first two colon fields read as u64, its title is the third field. */
  lemma {:induction false} OneEntryPerLine(lines: seq<string>)
    requires ScanLines(lines).Ok?
    ensures |ScanLines(lines).value.entries| == |lines|
    ensures forall i :: 0 <= i < |lines| ==>
      EntryOfLine(ScanLines(lines).value.entries[i], lines[i])
    decreases |lines|
  {
    if lines != [] {
      var n := |lines| - 1;
      var init := lines[..n];
      OneEntryPerLine(init);
      var pre := ScanLines(init).value;
      var f := ParseLine(lines[n], n).value;
      var st := ScanLines(lines).value;
      var e := PageIndexEntry(f.blockOffset, Record(pre, f).entries[n].numberInBlock, f.pageId, f.pageTitle);
      assert st.entries == pre.entries + [e];
      LineFieldsOf(lines[n], n, e.numberInBlock);
      forall i | 0 <= i < n
        ensures EntryOfLine(st.entries[i], lines[i])
      {
        assert init[i] == lines[i];
        assert st.entries[i] == pre.entries[i];
      }
    }
  }

  /** The entry carries the line's first two colon fields read as u64 and
      its third field as the title. */
  predicate EntryOfLine(e: PageIndexEntry, line: string) {
    var fields := Split(line, ':');
    && |fields| >= 3
    && ParseU64(fields[0]) == Some(e.blockOffset)
    && ParseU64(fields[1]) == Some(e.pageId)
    && e.pageTitle == fields[2]
  }

  lemma LineFieldsOf(line: string, lineNo: nat, number: nat)
    requires ParseLine(line, lineNo).Ok?
    ensures var f := ParseLine(line, lineNo).value;
      EntryOfLine(PageIndexEntry(f.blockOffset, number, f.pageId, f.pageTitle), line)
  {
  }

  /** A line is rejected exactly when a field is missing or the offset or
      the id is not a u64: no default is ever put in its place. */
  lemma LineRejected(line: string, lineNo: nat)
    ensures ParseLine(line, lineNo).Err? <==>
      var fields := Split(line, ':');
      ParseU64(fields[0]).None? || |fields| < 3 || ParseU64(fields[1]).None?
  {
  }

  /** The whole build fails exactly when some line is rejected, and it fails
      with the error of the first rejected line. */
  lemma {:induction false} BuildFailsAtFirstBadLine(lines: seq<string>, e: IndexError)
    ensures ScanLines(lines) == Err(e) <==>
      exists k :: 0 <= k < |lines| && ParseLine(lines[k], k) == Err(e)
        && forall j :: 0 <= j < k ==> ParseLine(lines[j], j).Ok?
    decreases |lines|
  {
    if lines != [] {
      var n := |lines| - 1;
      var init := lines[..n];
      forall j | 0 <= j < n ensures init[j] == lines[j] { }
      match ScanLines(init)
      case Ok(_) =>
        OkMeansAllLinesParse(init);
        if ScanLines(lines) == Err(e) {
          assert ParseLine(lines[n], n) == Err(e);
        }
        if k :| (0 <= k < |lines| && ParseLine(lines[k], k) == Err(e)
                 && forall j :: 0 <= j < k ==> ParseLine(lines[j], j).Ok?) {
          assert k == n;
        }
      case Err(e0) =>
        assert ScanLines(lines) == Err(e0);
        BuildFailsAtFirstBadLine(init, e0);
        var k0 :| 0 <= k0 < n && ParseLine(init[k0], k0) == Err(e0)
          && forall j :: 0 <= j < k0 ==> ParseLine(init[j], j).Ok?;
        forall k | 0 <= k < |lines| && ParseLine(lines[k], k).Err?
            && (forall j :: 0 <= j < k ==> ParseLine(lines[j], j).Ok?)
          ensures k == k0
        {
        }
    }
  }

  lemma OkMeansAllLinesParse(lines: seq<string>)
    requires ScanLines(lines).Ok?
    ensures forall j :: 0 <= j < |lines| ==> ParseLine(lines[j], j).Ok?
  {
    forall j | 0 <= j < |lines| ensures ParseLine(lines[j], j).Ok? {
      if ScanLines(lines[..j + 1]).Err? {
        ScanPrefixError(lines, j + 1);
      }
      ScanStep(lines, j);
    }
  }

  function Offsets(entries: seq<PageIndexEntry>): (r: seq<nat>)
    ensures |r| == |entries|
  {
    seq(|entries|, i requires 0 <= i < |entries| => entries[i].blockOffset)
  }

  predicate Ascending(s: seq<nat>) {
    forall i, j :: 0 <= i < j < |s| ==> s[i] <= s[j]
  }

  /** How many times `x` occurs in `s`. */
  function Occurrences(s: seq<nat>, x: nat): nat
    decreases |s|
  {
    if s == [] then 0
    else Occurrences(s[..|s| - 1], x) + (if s[|s| - 1] == x then 1 else 0)
  }

  lemma {:induction false} OccurrencesBelow(s: seq<nat>, x: nat)
    requires forall i :: 0 <= i < |s| ==> s[i] < x
    ensures Occurrences(s, x) == 0
    decreases |s|
  {
    if s != [] {
      OccurrencesBelow(s[..|s| - 1], x);
    }
  }

  /** The loop counters agree with the ordinals already handed out. */
  predicate CountersAgree(st: Scan) {
    CountersMatch(st) && OrdinalsMatch(st.entries)
  }

  /** `current_block` is the last offset seen and `number_in_block` counts
      its entries. */
  predicate CountersMatch(st: Scan) {
    var offs := Offsets(st.entries);
    && st.currentBlock == (if offs == [] then 0 else offs[|offs| - 1])
    && st.numberInBlock == Occurrences(offs, st.currentBlock)
  }

  /** Each entry's ordinal counts the earlier entries with its offset. */
  predicate OrdinalsMatch(entries: seq<PageIndexEntry>) {
    var offs := Offsets(entries);
    forall i :: 0 <= i < |offs| ==> entries[i].numberInBlock == Occurrences(offs[..i], offs[i])
  }

  /** No offset is above `x`. */
  predicate AtMost(s: seq<nat>, x: nat) {
    forall i :: 0 <= i < |s| ==> s[i] <= x
  }

  lemma RecordKeepsCounters(st: Scan, f: LineFields)
    requires CountersAgree(st)
    requires AtMost(Offsets(st.entries), st.currentBlock)
    requires f.blockOffset >= st.currentBlock
    ensures CountersAgree(Record(st, f))
  {
    RecordKeepsScalars(st, f);
    NewOrdinal(st, f);
    EarlierOrdinalsKept(st, f);
  }

  lemma RecordKeepsScalars(st: Scan, f: LineFields)
    requires CountersMatch(st)
    requires AtMost(Offsets(st.entries), st.currentBlock)
    requires f.blockOffset >= st.currentBlock
    ensures CountersMatch(Record(st, f))
    ensures Record(st, f).currentBlock == f.blockOffset
  {
    var offs := Offsets(st.entries);
    var offs' := Offsets(Record(st, f).entries);
    var o := f.blockOffset;
    assert offs' == offs + [o];
    assert offs'[..|offs|] == offs;
    assert Occurrences(offs', o) == Occurrences(offs, o) + 1;
    if o > st.currentBlock {
      OccurrencesBelow(offs, o);
    }
  }

  /** The new entry's ordinal counts the earlier entries with its offset. */
  lemma NewOrdinal(st: Scan, f: LineFields)
    requires CountersMatch(st)
    requires AtMost(Offsets(st.entries), st.currentBlock)
    requires f.blockOffset >= st.currentBlock
    ensures var offs' := Offsets(Record(st, f).entries);
      var n := |st.entries|;
      Record(st, f).entries[n].numberInBlock == Occurrences(offs'[..n], offs'[n])
  {
    var offs := Offsets(st.entries);
    var offs' := Offsets(Record(st, f).entries);
    var o := f.blockOffset;
    assert offs' == offs + [o];
    assert offs'[..|offs|] == offs;
    if o > st.currentBlock {
      OccurrencesBelow(offs, o);
    }
  }

  /** Recording a line leaves the ordinals already handed out as they were. */
  lemma EarlierOrdinalsKept(st: Scan, f: LineFields)
    requires OrdinalsMatch(st.entries)
    ensures var offs' := Offsets(Record(st, f).entries);
      forall i :: 0 <= i < |st.entries| ==>
        Record(st, f).entries[i].numberInBlock == Occurrences(offs'[..i], offs'[i])
  {
    var offs := Offsets(st.entries);
    var st' := Record(st, f);
    var offs' := Offsets(st'.entries);
    forall i | 0 <= i < |offs|
      ensures st'.entries[i].numberInBlock == Occurrences(offs'[..i], offs'[i])
    {
      assert offs'[..i] == offs[..i];
      assert st'.entries[i] == st.entries[i];
    }
  }

  lemma {:induction false} ScanCounters(lines: seq<string>)
    requires ScanLines(lines).Ok?
    requires Ascending(Offsets(ScanLines(lines).value.entries))
    ensures CountersAgree(ScanLines(lines).value)
    decreases |lines|
  {
    if lines != [] {
      var init := lines[..|lines| - 1];
      var pre := ScanLines(init).value;
      var f := ParseLine(lines[|lines| - 1], |lines| - 1).value;
      var st := ScanLines(lines).value;
      assert st == Record(pre, f);
      var offs := Offsets(st.entries);
      var preOffs := Offsets(pre.entries);
      assert preOffs == offs[..|offs| - 1];
      assert Ascending(preOffs);
      ScanCounters(init);
      if pre.entries != [] {
        assert AtMost(preOffs, pre.currentBlock) by {
          AscendingAtMostLast(preOffs);
        }
        assert preOffs[|preOffs| - 1] <= offs[|offs| - 1];
      }
      RecordKeepsCounters(pre, f);
    }
  }

  lemma AscendingAtMostLast(s: seq<nat>)
    requires s != [] && Ascending(s)
    ensures AtMost(s, s[|s| - 1])
  {
  }

  /** With the offsets in ascending order (as in the dump's own index), the
      ordinal of an entry is the number of earlier entries in the same
      block: 0 for the first entry of each new offset, then 1, 2, ... */
  lemma OrdinalCountsEarlierInBlock(lines: seq<string>)
    requires ScanLines(lines).Ok?
    requires Ascending(Offsets(ScanLines(lines).value.entries))
    ensures var es := ScanLines(lines).value.entries;
      forall i :: 0 <= i < |es| ==>
        es[i].numberInBlock == Occurrences(Offsets(es)[..i], es[i].blockOffset)
  {
    ScanCounters(lines);
  }

  /** Offsets 0,0,0,500,500,1000 receive the ordinals 0,1,2,0,1,0. */
  lemma OrdinalsExample(lines: seq<string>)
    requires ScanLines(lines).Ok?
    requires Offsets(ScanLines(lines).value.entries) == [0, 0, 0, 500, 500, 1000]
    ensures var es := ScanLines(lines).value.entries;
      && |es| == 6
      && es[0].numberInBlock == 0 && es[1].numberInBlock == 1 && es[2].numberInBlock == 2
      && es[3].numberInBlock == 0 && es[4].numberInBlock == 1 && es[5].numberInBlock == 0
  {
    var es := ScanLines(lines).value.entries;
    SampleAscending();
    OrdinalCountsEarlierInBlock(lines);
    CountedOrdinals(es);
  }

  lemma SampleAscending()
    ensures Ascending([0, 0, 0, 500, 500, 1000])
  {
  }

  lemma CountedOrdinals(es: seq<PageIndexEntry>)
    requires Offsets(es) == [0, 0, 0, 500, 500, 1000]
    requires forall i :: 0 <= i < |es| ==>
      es[i].numberInBlock == Occurrences(Offsets(es)[..i], es[i].blockOffset)
    ensures && |es| == 6
      && es[0].numberInBlock == 0 && es[1].numberInBlock == 1 && es[2].numberInBlock == 2
      && es[3].numberInBlock == 0 && es[4].numberInBlock == 1 && es[5].numberInBlock == 0
  {
    var offs := Offsets(es);
    assert offs[..1] == [0] && offs[..1][..0] == [];
    assert offs[..2] == [0, 0] && offs[..2][..1] == [0];
    assert offs[..3] == [0, 0, 0];
    assert offs[..4] == [0, 0, 0, 500] && offs[..4][..3] == [0, 0, 0];
    assert offs[..5] == [0, 0, 0, 500, 500];
    OccurrencesBelow(offs[..3], 500);
    OccurrencesBelow(offs[..5], 1000);
    assert es[0].blockOffset == offs[0] && es[1].blockOffset == offs[1] && es[2].blockOffset == offs[2];
    assert es[3].blockOffset == offs[3] && es[4].blockOffset == offs[4] && es[5].blockOffset == offs[5];
  }

  // ---------------------------------------------------------------------
  // lookups

  /** `k` is the first position whose id is `id`. */
  predicate FirstWithId(pages: seq<PageIndexEntry>, k: int, id: nat) {
    0 <= k < |pages| && pages[k].pageId == id
    && forall i :: 0 <= i < k ==> pages[i].pageId != id
  }

  /** `k` is the first position whose title is `title`. */
  predicate FirstWithTitle(pages: seq<PageIndexEntry>, k: int, title: string) {
    0 <= k < |pages| && pages[k].pageTitle == title
    && forall i :: 0 <= i < k ==> pages[i].pageTitle != title
  }

  /** The position of the first entry with the given id. */
  function FirstIdIndex(pages: seq<PageIndexEntry>, id: nat): (r: Option<nat>)
    ensures r.Some? ==> FirstWithId(pages, r.value, id)
    ensures r.None? ==> forall i :: 0 <= i < |pages| ==> pages[i].pageId != id
    decreases |pages|
  {
    if pages == [] then None
    else if pages[0].pageId == id then Some(0)
    else match FirstIdIndex(pages[1..], id)
      case None => None
      case Some(k) => Some(k + 1)
  }

  /** The first position at or after `from` whose offset exceeds `offset`. */
  function FirstAbove(pages: seq<PageIndexEntry>, from: nat, offset: nat): (r: Option<nat>)
    requires from <= |pages|
    ensures r.Some? ==>
      && from <= r.value < |pages|
      && pages[r.value].blockOffset > offset
      && forall i :: from <= i < r.value ==> pages[i].blockOffset <= offset
    ensures r.None? ==> forall i :: from <= i < |pages| ==> pages[i].blockOffset <= offset
    decreases |pages| - from
  {
    if from == |pages| then None
    else if pages[from].blockOffset > offset then Some(from)
    else FirstAbove(pages, from + 1, offset)
  }

  /** The block length `get_block_size` reports: from the first entry with
      the target's id, the first strictly larger offset minus the target's
      offset; nothing when there is no such entry or no larger offset. */
  function BlockSize(pages: seq<PageIndexEntry>, target: PageIndexEntry): Option<nat> {
    match FirstIdIndex(pages, target.pageId)
    case None => None
    case Some(k) =>
      match FirstAbove(pages, k, target.blockOffset)
      case None => None
      case Some(j) => Some(pages[j].blockOffset - target.blockOffset)
  }

  /** A reported block length is always positive. */
  lemma BlockSizePositive(pages: seq<PageIndexEntry>, target: PageIndexEntry)
    ensures BlockSize(pages, target).Some? ==> BlockSize(pages, target).value > 0
  {
  }

  /** For an ascending index and a target that is the first entry with its
      id: no length exactly when the target's block is the last one, and
      otherwise the length reaches the next distinct offset. */
  lemma BlockSizeIsNextDistinctOffset(pages: seq<PageIndexEntry>, t: nat)
    requires t < |pages|
    requires Ascending(Offsets(pages))
    requires FirstWithId(pages, t, pages[t].pageId)
    ensures var o := pages[t].blockOffset;
      && (BlockSize(pages, pages[t]).None? <==>
           forall j :: 0 <= j < |pages| ==> pages[j].blockOffset <= o)
      && (BlockSize(pages, pages[t]).Some? ==>
           var d := BlockSize(pages, pages[t]).value;
           && (exists j :: 0 <= j < |pages| && pages[j].blockOffset == o + d)
           && forall j :: 0 <= j < |pages| ==>
                pages[j].blockOffset <= o || pages[j].blockOffset >= o + d)
  {
    var o := pages[t].blockOffset;
    var offs := Offsets(pages);
    assert FirstIdIndex(pages, pages[t].pageId) == Some(t) by {
      var k := FirstIdIndex(pages, pages[t].pageId).value;
      assert FirstWithId(pages, k, pages[t].pageId);
    }
    forall j | 0 <= j < t ensures pages[j].blockOffset <= o {
      assert offs[j] <= offs[t];
    }
    match FirstAbove(pages, t, o)
    case None =>
    case Some(m) =>
      forall j | 0 <= j < |pages| && pages[j].blockOffset > o
        ensures pages[j].blockOffset >= pages[m].blockOffset
      {
        assert offs[m] <= offs[j];
      }
  }

  // ---------------------------------------------------------------------
  // the index object

  /** `PageIndex`: the entries, replaced as a whole by `build_index_file`
      and read by the lookups. */
  class PageIndex {
    var pages: seq<PageIndexEntry>

    /** `PageIndex::new` */
    constructor ()
      ensures pages == []
    {
      pages := [];
    }

    /** `build_index_file`, from the decompressed contents of the index
        file: on success the entries replace the old ones; the first bad
        line aborts and leaves the index as it was. */
    method BuildIndexFile(contents: string) returns (r: Result<(), IndexError>)
      modifies this
      ensures BuildIndex(contents).Ok? ==> r.Ok? && pages == BuildIndex(contents).value
      ensures BuildIndex(contents).Err? ==>
        r == Err(BuildIndex(contents).error) && pages == old(pages)
    {
      var lines := Lines(contents);
      var index: seq<PageIndexEntry> := [];
      var currentBlock: nat := 0;
      var numberInBlock: nat := 0;
      for i := 0 to |lines|
        invariant ScanLines(lines[..i]) == Ok(Scan(index, currentBlock, numberInBlock))
        invariant pages == old(pages)
      {
        var fields := Split(lines[i], ':');
        var blockOffset := ParseU64(fields[0]);
        if blockOffset.None? {
          assert ScanLines(lines[..i + 1]) == Err(BadBlockOffset(i)) by {
            ScanStep(lines, i);
          }
          ScanPrefixError(lines, i + 1);
          return Err(BadBlockOffset(i));
        }
        var saved := Scan(index, currentBlock, numberInBlock);
        if blockOffset.value > currentBlock {
          numberInBlock := 0;
          currentBlock := blockOffset.value;
        }
        if |fields| < 2 {
          assert ScanLines(lines[..i + 1]) == Err(MissingPageId(i)) by {
            ScanStep(lines, i);
          }
          ScanPrefixError(lines, i + 1);
          return Err(MissingPageId(i));
        }
        if |fields| < 3 {
          assert ScanLines(lines[..i + 1]) == Err(MissingPageTitle(i)) by {
            ScanStep(lines, i);
          }
          ScanPrefixError(lines, i + 1);
          return Err(MissingPageTitle(i));
        }
        var pageId := ParseU64(fields[1]);
        if pageId.None? {
          assert ScanLines(lines[..i + 1]) == Err(BadPageId(i)) by {
            ScanStep(lines, i);
          }
          ScanPrefixError(lines, i + 1);
          return Err(BadPageId(i));
        }
        var f := LineFields(blockOffset.value, pageId.value, fields[2]);
        index := index + [PageIndexEntry(blockOffset.value, numberInBlock, pageId.value, fields[2])];
        if blockOffset.value == currentBlock {
          numberInBlock := numberInBlock + 1;
        }
        assert ScanLines(lines[..i + 1]) == Ok(Scan(index, currentBlock, numberInBlock)) by {
          ScanStep(lines, i);
          assert ParseLine(lines[i], i) == Ok(f);
          assert Scan(index, currentBlock, numberInBlock) == Record(saved, f);
        }
      }
      assert lines[..|lines|] == lines;
      pages := index;
      r := Ok(());
    }

    /** `id_exists`: the first entry with the id, if any. */
    method IdExists(id: nat) returns (r: Option<PageIndexEntry>)
      ensures r.None? <==> forall i :: 0 <= i < |pages| ==> pages[i].pageId != id
      ensures r.Some? ==> exists k :: FirstWithId(pages, k, id) && r.value == pages[k]
    {
      for i := 0 to |pages|
        invariant forall j :: 0 <= j < i ==> pages[j].pageId != id
      {
        if pages[i].pageId == id {
          assert FirstWithId(pages, i, id);
          return Some(pages[i]);
        }
      }
      return None;
    }

    /** `title_exists`: the first entry with the title, if any. */
    method TitleExists(title: string) returns (r: Option<PageIndexEntry>)
      ensures r.None? <==> forall i :: 0 <= i < |pages| ==> pages[i].pageTitle != title
      ensures r.Some? ==> exists k :: FirstWithTitle(pages, k, title) && r.value == pages[k]
    {
      for i := 0 to |pages|
        invariant forall j :: 0 <= j < i ==> pages[j].pageTitle != title
      {
        if pages[i].pageTitle == title {
          assert FirstWithTitle(pages, i, title);
          return Some(pages[i]);
        }
      }
      return None;
    }

    /** `get_block_size`: a forward scan that switches on at the first entry
        with the target's id and stops at the first larger offset. */
    method GetBlockSize(target: PageIndexEntry) returns (r: Option<nat>)
      ensures r == BlockSize(pages, target)
      ensures r.Some? ==> r.value > 0
    {
      var getNextBlock := false;
      for i := 0 to |pages|
        invariant getNextBlock <==> exists j :: 0 <= j < i && pages[j].pageId == target.pageId
        invariant getNextBlock ==>
          var k := FirstIdIndex(pages, target.pageId).value;
          k < i && forall j :: k <= j < i ==> pages[j].blockOffset <= target.blockOffset
      {
        if pages[i].pageId == target.pageId {
          getNextBlock := true;
        }
        if getNextBlock {
          if pages[i].blockOffset > target.blockOffset {
            assert FirstAbove(pages, FirstIdIndex(pages, target.pageId).value, target.blockOffset) == Some(i) by {
              var k := FirstIdIndex(pages, target.pageId).value;
              var m := FirstAbove(pages, k, target.blockOffset);
              assert m.Some?;
            }
            return Some(pages[i].blockOffset - target.blockOffset);
          }
        }
      }
      return None;
    }
  }
}
