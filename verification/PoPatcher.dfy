/** The low-churn PO patcher (tools/update_po_low_churn.py): a catalogue is cut into entry blocks,
    and some blocks are replaced in place. */
module PoPatcher {
  type Line = string

  // Lines

  /** str.isspace, for the characters that str.strip removes. */
  predicate IsSpace(c: char) {
    var n := c as int;
    || 0x09 <= n <= 0x0d || 0x1c <= n <= 0x20 || n == 0x85 || n == 0xa0 || n == 0x1680
    || 0x2000 <= n <= 0x200a || n == 0x2028 || n == 0x2029 || n == 0x202f || n == 0x205f || n == 0x3000
  }

  function LStrip(s: string): string {
    if s != "" && IsSpace(s[0]) then LStrip(s[1..]) else s
  }

  predicate IsBlank(line: Line) {
    LStrip(line) == ""
  }

  /** Comments, msgctxt lines and continued strings: what may stand above an entry's msgid. */
  predicate IsMetadata(line: Line) {
    && !IsBlank(line)
    && ("#" <= line || "msgctxt " <= line || "\"" <= LStrip(line))
  }

  predicate IsLocation(line: Line) {
    "#:" <= line
  }

  lemma {:induction false} LStripMeaning(s: string) returns (n: nat)
    ensures n <= |s| && LStrip(s) == s[n..]
    ensures forall i :: 0 <= i < n ==> IsSpace(s[i])
    ensures n < |s| ==> !IsSpace(s[n])
  {
    hide IsSpace;
    if s != "" && IsSpace(s[0]) {
      var m := LStripMeaning(s[1..]);
      n := m + 1;
      assert forall i :: 1 <= i < n ==> s[i] == s[1..][i - 1];
    } else {
      n := 0;
    }
  }

  /** The kinds of lines, by their characters. */
  lemma LineKinds(line: Line)
    ensures IsLocation(line) <==> |line| >= 2 && line[0] == '#' && line[1] == ':'
    ensures IsContext(line) <==> |line| >= 8 && line[..8] == "msgctxt "
    ensures IsBlank(line) <==> forall i :: 0 <= i < |line| ==> IsSpace(line[i])
    ensures IsMetadata(line) <==>
              || (|line| >= 1 && line[0] == '#')
              || (|line| >= 8 && line[..8] == "msgctxt ")
              || (exists n :: 0 <= n < |line| && line[n] == '"' && forall i :: 0 <= i < n ==> IsSpace(line[i]))
  {
    var n := LStripMeaning(line);
    SpaceByExample();
    hide IsSpace, LStrip;
    if "msgctxt " <= line {
      assert line[0] == 'm';
    }
  }

  lemma SpaceByExample()
    ensures IsSpace(' ') && IsSpace('\t') && IsSpace('\n') && IsSpace('\r')
    ensures !IsSpace('#') && !IsSpace('"') && !IsSpace('m') && !IsSpace('0')
  {
  }

  // Where an entry begins

  function StartAbove(lines: seq<Line>, i: nat): (r: nat)
    requires i <= |lines|
    ensures r <= i
  {
    if i > 0 && IsMetadata(lines[i - 1]) then StartAbove(lines, i - 1) else i
  }

  /** entry_block_start; polib counts no more lines than the file has. */
  method EntryBlockStart(lines: seq<Line>, linenum: int) returns (i: nat)
    requires linenum <= |lines|
    ensures i == StartOf(lines, linenum)
  {
    i := if linenum > 0 then linenum - 1 else 0;
    while i > 0
      invariant i <= |lines| && StartAbove(lines, i) == StartOf(lines, linenum)
    {
      var prev := lines[i - 1];
      if IsBlank(prev) {
        break;
      }
      if "#" <= prev || "msgctxt " <= prev || "\"" <= LStrip(prev) {
        i := i - 1;
        continue;
      }
      break;
    }
  }

  function StartOf(lines: seq<Line>, linenum: int): nat
    requires linenum <= |lines|
  {
    StartAbove(lines, if linenum > 0 then linenum - 1 else 0)
  }

  /** The start is the only line from which metadata leads down to line `i` without interruption,
      below a line that is none. */
  lemma {:induction false} StartIsWhereMetadataBegins(lines: seq<Line>, i: nat, r: nat)
    requires r <= i <= |lines|
    ensures r == StartAbove(lines, i) <==>
              && (forall k :: r <= k < i ==> IsMetadata(lines[k]))
              && (r > 0 ==> !IsMetadata(lines[r - 1]))
  {
    if i > 0 && IsMetadata(lines[i - 1]) && r < i {
      StartIsWhereMetadataBegins(lines, i - 1, r);
    }
  }

  /** polib counts lines from one: the entry begins at or above its line `linenum`, which has index
      `linenum - 1`. */
  lemma StartOfMeaning(lines: seq<Line>, linenum: int, r: nat)
    requires 1 <= linenum <= |lines| && r < linenum
    ensures r == StartOf(lines, linenum) <==>
              && (forall k :: r <= k < linenum - 1 ==> IsMetadata(lines[k]))
              && (r > 0 ==> !IsMetadata(lines[r - 1]))
  {
    StartIsWhereMetadataBegins(lines, linenum - 1, r);
  }

  lemma {:induction false} StartsAreMonotone(lines: seq<Line>, a: int, b: int)
    requires a <= b <= |lines|
    ensures StartOf(lines, a) <= StartOf(lines, b)
  {
    var i, j := if a > 0 then a - 1 else 0, if b > 0 then b - 1 else 0;
    var r := StartOf(lines, b);
    if r < i {
      StartIsWhereMetadataBegins(lines, j, r);
      StartIsWhereMetadataBegins(lines, i, r);
    }
  }

  // Blocks

  datatype Entry<K> = Entry(key: K, linenum: int)

  datatype Block = Block(start: nat, end: nat, lines: seq<Line>)

  predicate IsSortedByLine<K>(lines: seq<Line>, entries: seq<Entry<K>>) {
    && (forall i :: 0 <= i < |entries| ==> entries[i].linenum <= |lines|)
    && forall i, j :: 0 <= i < j < |entries| ==> entries[i].linenum <= entries[j].linenum
  }

  predicate Repeats<K(==)>(entries: seq<Entry<K>>) {
    exists i, j :: 0 <= i < j < |entries| && entries[i].key == entries[j].key
  }

  /** Block `i` is the piece of the file up to the next block. */
  predicate Fits(lines: seq<Line>, blocks: seq<Block>, i: nat)
    requires i < |blocks|
  {
    && blocks[i].start <= blocks[i].end == StartOfBlock(lines, blocks, i + 1) <= |lines|
    && blocks[i].lines == lines[blocks[i].start..blocks[i].end]
  }

  /** The blocks are consecutive pieces of the file and reach to its end. */
  predicate Tiles(lines: seq<Line>, blocks: seq<Block>) {
    forall i :: 0 <= i < |blocks| ==> Fits(lines, blocks, i)
  }

  function StartOfBlock(lines: seq<Line>, blocks: seq<Block>, i: nat): nat {
    if i < |blocks| then blocks[i].start else |lines|
  }

  /** build_blocks; None if two entries have the same key. */
  method BuildBlocks<K(==)>(lines: seq<Line>, entries: seq<Entry<K>>) returns (failed: bool, blocks: seq<Block>)
    requires IsSortedByLine(lines, entries)
    ensures failed <==> Repeats(entries)
    ensures !failed ==> Tiles(lines, blocks) && |blocks| == |entries|
    ensures !failed ==> forall i :: 0 <= i < |blocks| ==> blocks[i].start == StartOf(lines, entries[i].linenum)
  {
    hide StartOf;
    var starts: seq<nat> := [];
    for i := 0 to |entries|
      invariant |starts| == i && forall k :: 0 <= k < i ==> starts[k] == StartOf(lines, entries[k].linenum)
    {
      var start := EntryBlockStart(lines, entries[i].linenum);
      starts := starts + [start];
    }
    forall i, j | 0 <= i <= j < |entries|
      ensures starts[i] <= starts[j]
    {
      StartsAreMonotone(lines, entries[i].linenum, entries[j].linenum);
    }
    forall i | 0 <= i < |entries|
      ensures starts[i] <= |lines|
    {
      StartIsInFile(lines, entries[i].linenum);
    }
    failed, blocks := false, [];
    for i := 0 to |entries|
      invariant |blocks| == i
      invariant forall k :: 0 <= k < i ==> blocks[k] == BlockAt(lines, starts, k)
      invariant forall a, b :: 0 <= a < b < i ==> entries[a].key != entries[b].key
    {
      if exists k :: 0 <= k < i && entries[k].key == entries[i].key {
        return true, [];
      }
      blocks := blocks + [BlockAt(lines, starts, i)];
    }
    forall i | 0 <= i < |blocks|
      ensures Fits(lines, blocks, i)
    {
      assert blocks[i] == BlockAt(lines, starts, i);
      if i + 1 < |blocks| {
        assert blocks[i + 1] == BlockAt(lines, starts, i + 1);
      }
    }
  }

  function BlockAt(lines: seq<Line>, starts: seq<nat>, i: nat): Block
    requires i < |starts| && starts[i] <= |lines|
    requires i + 1 < |starts| ==> starts[i] <= starts[i + 1] <= |lines|
  {
    var end := if i + 1 < |starts| then starts[i + 1] else |lines|;
    Block(starts[i], end, lines[starts[i]..end])
  }

  lemma StartIsInFile(lines: seq<Line>, linenum: int)
    requires linenum <= |lines|
    ensures StartOf(lines, linenum) <= |lines|
  {
  }

  function Concat(pieces: seq<seq<Line>>): seq<Line> {
    if pieces == [] then [] else pieces[0] + Concat(pieces[1..])
  }

  // Overlapping blocks

  datatype Span = Span(start: nat, end: nat) {
    /** The order of pairs in Python. */
    predicate AtMost(other: Span) {
      start < other.start || (start == other.start && end <= other.end)
    }
  }

  /** blocks_overlap, of the sorted spans. */
  method BlocksOverlap(spans: seq<Span>) returns (overlap: bool)
    ensures overlap <==> exists i :: 0 <= i < |spans| - 1 && spans[i].end > spans[i + 1].start
  {
    var i := 0;
    while i + 1 < |spans|
      invariant forall k :: 0 <= k < i && k < |spans| - 1 ==> spans[k].end <= spans[k + 1].start
    {
      if spans[i].end > spans[i + 1].start {
        return true;
      }
      i := i + 1;
    }
    return false;
  }

  function Spans(blocks: seq<Block>): (r: seq<Span>)
    ensures |r| == |blocks| && forall i :: 0 <= i < |r| ==> r[i] == Span(blocks[i].start, blocks[i].end)
  {
    seq(|blocks|, i requires 0 <= i < |blocks| => Span(blocks[i].start, blocks[i].end))
  }

  predicate InOrder(spans: seq<Span>) {
    forall i, j :: 0 <= i < j < |spans| ==> spans[i].AtMost(spans[j])
  }

  lemma {:induction false} SortedIsUnique(a: seq<Span>, b: seq<Span>)
    requires InOrder(a) && InOrder(b) && multiset(a) == multiset(b)
    ensures a == b
  {
    assert |a| == |multiset(a)| == |multiset(b)| == |b|;
    if a != [] {
      FirstIsLeast(a, b);
      RestOfSpans(a);
      RestOfSpans(b);
      SortedIsUnique(a[1..], b[1..]);
    }
  }

  lemma FirstIsLeast(a: seq<Span>, b: seq<Span>)
    requires InOrder(a) && InOrder(b) && multiset(a) == multiset(b) && a != [] && b != []
    ensures a[0] == b[0]
  {
    assert a[0] in multiset(b) && b[0] in multiset(a);
    var i :| 0 <= i < |b| && b[i] == a[0];
    var j :| 0 <= j < |a| && a[j] == b[0];
    assert i > 0 ==> b[0].AtMost(b[i]);
    assert j > 0 ==> a[0].AtMost(a[j]);
  }

  lemma RestOfSpans(a: seq<Span>)
    requires a != []
    ensures multiset(a[1..]) == multiset(a) - multiset{a[0]} && (InOrder(a) ==> InOrder(a[1..]))
    ensures a == [a[0]] + a[1..]
  {
    assert a == [a[0]] + a[1..];
  }

  lemma {:induction false} StartsAscend(lines: seq<Line>, blocks: seq<Block>, i: nat, j: nat)
    requires Tiles(lines, blocks) && i < j <= |blocks|
    ensures blocks[i].end <= StartOfBlock(lines, blocks, j)
  {
    assert Fits(lines, blocks, j - 1);
    if i + 1 < j {
      StartsAscend(lines, blocks, i, j - 1);
    }
  }

  /** The check for overlapping blocks never fires on blocks that were built from a file: sorting
      their spans leaves them as they are, and none crosses the next. */
  lemma BuiltBlocksDoNotOverlap(lines: seq<Line>, blocks: seq<Block>, spans: seq<Span>)
    requires Tiles(lines, blocks)
    requires InOrder(spans) && multiset(spans) == multiset(Spans(blocks))
    ensures !exists i :: 0 <= i < |spans| - 1 && spans[i].end > spans[i + 1].start
  {
    forall i, j | 0 <= i < j < |blocks|
      ensures Spans(blocks)[i].AtMost(Spans(blocks)[j])
    {
      StartsAscend(lines, blocks, i, j);
      assert Fits(lines, blocks, i) && Fits(lines, blocks, j);
    }
    SortedIsUnique(spans, Spans(blocks));
    forall i | 0 <= i < |spans| - 1
      ensures spans[i].end <= spans[i + 1].start
    {
      assert Fits(lines, blocks, i);
    }
  }

  // Replacing blocks in place

  datatype Replacement = Replacement(start: nat, end: nat, text: seq<Line>)

  function Min(a: nat, b: nat): nat {
    if a < b then a else b
  }

  /** lines[start:end] = text */
  function Splice(lines: seq<Line>, r: Replacement): seq<Line> {
    var a := Min(r.start, |lines|);
    var b := Min(r.end, |lines|);
    lines[..a] + r.text + lines[if a < b then b else a..]
  }

  function SpliceAll(lines: seq<Line>, rs: seq<Replacement>): seq<Line> {
    if rs == [] then lines else Splice(SpliceAll(lines, rs[..|rs| - 1]), rs[|rs| - 1])
  }

  function Insert(r: Replacement, rs: seq<Replacement>): seq<Replacement> {
    if rs == [] || r.start >= rs[0].start then [r] + rs else [rs[0]] + Insert(r, rs[1..])
  }

  /** sorted by start, in reverse. */
  function Descending(rs: seq<Replacement>): seq<Replacement> {
    if rs == [] then [] else Insert(rs[0], Descending(rs[1..]))
  }

  predicate DistinctStarts(rs: seq<Replacement>) {
    forall i, j :: 0 <= i < j < |rs| ==> rs[i].start != rs[j].start
  }

  /** The end of main: None where it falls back to the normalized catalogue. */
  method ApplyReplacements(lines: seq<Line>, rs: seq<Replacement>) returns (fallback: bool, patched: seq<Line>)
    ensures fallback <==> !DistinctStarts(rs)
    ensures !fallback ==> patched == SpliceAll(lines, Descending(rs))
  {
    patched := lines;
    if !DistinctStarts(rs) {
      return true, lines;
    }
    fallback := false;
    var sorted := Descending(rs);
    for i := 0 to |sorted|
      invariant patched == SpliceAll(lines, sorted[..i])
    {
      assert sorted[..i + 1][..i] == sorted[..i];
      patched := Splice(patched, sorted[i]);
    }
    assert sorted[..|sorted|] == sorted;
  }

  /** The replacements of the blocks numbered `which`, in that order. */
  function ReplacementsOf(blocks: seq<Block>, texts: seq<seq<Line>>, which: seq<nat>): (rs: seq<Replacement>)
    requires |texts| == |blocks| && forall i :: 0 <= i < |which| ==> which[i] < |blocks|
    ensures |rs| == |which|
    ensures forall i :: 0 <= i < |which| ==>
              rs[i] == Replacement(blocks[which[i]].start, blocks[which[i]].end, texts[which[i]])
  {
    seq(|which|, i requires 0 <= i < |which| =>
      Replacement(blocks[which[i]].start, blocks[which[i]].end, texts[which[i]]))
  }

  /** The blocks from number `k` on, those in `chosen` with their new text. */
  function Substituted(blocks: seq<Block>, texts: seq<seq<Line>>, chosen: set<nat>, k: nat): seq<Line>
    requires |texts| == |blocks| && k <= |blocks|
    decreases |blocks| - k
  {
    if k == |blocks| then []
    else (if k in chosen then texts[k] else blocks[k].lines) + Substituted(blocks, texts, chosen, k + 1)
  }

  function Chosen(which: seq<nat>): set<nat> {
    set i | i in which
  }

  /** The lines before block number `k`. */
  function Before(lines: seq<Line>, blocks: seq<Block>, k: nat): seq<Line> {
    lines[..Min(StartOfBlock(lines, blocks, k), |lines|)]
  }

  lemma BeforeNext(lines: seq<Line>, blocks: seq<Block>, k: nat)
    requires Tiles(lines, blocks) && k < |blocks|
    ensures Before(lines, blocks, k + 1) == Before(lines, blocks, k) + blocks[k].lines
    ensures |Before(lines, blocks, k)| == blocks[k].start && |Before(lines, blocks, k + 1)| == blocks[k].end
  {
    assert Fits(lines, blocks, k);
  }

  lemma Associate(a: seq<Line>, b: seq<Line>, c: seq<Line>)
    ensures a + (b + c) == a + b + c
  {
  }

  lemma {:induction false} PrefixIsUntouched(lines: seq<Line>, blocks: seq<Block>, texts: seq<seq<Line>>,
                                             chosen: set<nat>, k: nat)
    requires Tiles(lines, blocks) && |texts| == |blocks| && k <= |blocks|
    requires forall i :: 0 <= i < k ==> i !in chosen
    ensures Before(lines, blocks, 0) + Substituted(blocks, texts, chosen, 0)
            == Before(lines, blocks, k) + Substituted(blocks, texts, chosen, k)
  {
    if k > 0 {
      hide Before, Tiles;
      PrefixIsUntouched(lines, blocks, texts, chosen, k - 1);
      BeforeNext(lines, blocks, k - 1);
      Associate(Before(lines, blocks, k - 1), blocks[k - 1].lines, Substituted(blocks, texts, chosen, k));
    }
  }

  lemma {:induction false} SubstitutedAbove(blocks: seq<Block>, texts: seq<seq<Line>>, a: set<nat>, b: set<nat>, k: nat)
    requires |texts| == |blocks| && k <= |blocks|
    requires forall i :: k <= i < |blocks| ==> (i in a <==> i in b)
    ensures Substituted(blocks, texts, a, k) == Substituted(blocks, texts, b, k)
    decreases |blocks| - k
  {
    if k < |blocks| {
      SubstitutedAbove(blocks, texts, a, b, k + 1);
    }
  }

  lemma SpliceOne(lines: seq<Line>, blocks: seq<Block>, b: nat, text: seq<Line>, rest: seq<Line>)
    requires Tiles(lines, blocks) && b < |blocks|
    ensures Splice(Before(lines, blocks, b) + (blocks[b].lines + rest),
                   Replacement(blocks[b].start, blocks[b].end, text))
            == Before(lines, blocks, b) + (text + rest)
  {
    var before, middle := Before(lines, blocks, b), blocks[b].lines;
    BeforeNext(lines, blocks, b);
    hide Before, Tiles;
    var all := before + (middle + rest);
    assert all[..|before|] == before;
    assert all[|before + middle|..] == rest;
    Associate(before, text, rest);
  }

  lemma SubstitutedHere(blocks: seq<Block>, texts: seq<seq<Line>>, chosen: set<nat>, b: nat)
    requires |texts| == |blocks| && b < |blocks|
    ensures Substituted(blocks, texts, chosen, b)
            == (if b in chosen then texts[b] else blocks[b].lines) + Substituted(blocks, texts, chosen, b + 1)
  {
  }

  /** One more splice, before all others. */
  lemma SpliceNext(lines: seq<Line>, blocks: seq<Block>, texts: seq<seq<Line>>, chosen: set<nat>, b: nat)
    requires Tiles(lines, blocks) && |texts| == |blocks| && b < |blocks|
    requires forall i :: i in chosen ==> b < i
    ensures Splice(Before(lines, blocks, 0) + Substituted(blocks, texts, chosen, 0),
                   Replacement(blocks[b].start, blocks[b].end, texts[b]))
            == Before(lines, blocks, 0) + Substituted(blocks, texts, chosen + {b}, 0)
  {
    SubstitutedHere(blocks, texts, chosen, b);
    SubstitutedHere(blocks, texts, chosen + {b}, b);
    hide Tiles, Before, Splice, Substituted;
    PrefixIsUntouched(lines, blocks, texts, chosen, b);
    PrefixIsUntouched(lines, blocks, texts, chosen + {b}, b);
    SubstitutedAbove(blocks, texts, chosen, chosen + {b}, b + 1);
    SpliceOne(lines, blocks, b, texts[b], Substituted(blocks, texts, chosen, b + 1));
  }

  /** Splicing from the end of the file to its beginning substitutes all blocks at once. */
  lemma {:induction false} SplicingBackwardsSubstitutes(lines: seq<Line>, blocks: seq<Block>, texts: seq<seq<Line>>,
                                                        which: seq<nat>)
    requires Tiles(lines, blocks) && |texts| == |blocks|
    requires forall i :: 0 <= i < |which| ==> which[i] < |blocks|
    requires forall i, j :: 0 <= i < j < |which| ==> which[i] > which[j]
    ensures SpliceAll(lines, ReplacementsOf(blocks, texts, which))
            == Before(lines, blocks, 0) + Substituted(blocks, texts, Chosen(which), 0)
  {
    hide Tiles, Before, Splice, Substituted;
    var rs := ReplacementsOf(blocks, texts, which);
    if which == [] {
      assert Chosen(which) == {};
      NothingChosen(lines, blocks, texts);
    } else {
      var m := |which| - 1;
      var b, init := which[m], which[..m];
      SplicingBackwardsSubstitutes(lines, blocks, texts, init);
      assert rs[..m] == ReplacementsOf(blocks, texts, init);
      assert Chosen(which) == Chosen(init) + {b};
      SpliceNext(lines, blocks, texts, Chosen(init), b);
    }
  }

  lemma NothingChosen(lines: seq<Line>, blocks: seq<Block>, texts: seq<seq<Line>>)
    requires Tiles(lines, blocks) && |texts| == |blocks|
    ensures Before(lines, blocks, 0) + Substituted(blocks, texts, {}, 0) == lines
  {
    PrefixIsUntouched(lines, blocks, texts, {}, |blocks|);
  }

  // The order of the replacements does not matter

  lemma {:induction false} InsertKeepsReplacements(blocks: seq<Block>, texts: seq<seq<Line>>, b: nat, which: seq<nat>)
    returns (r: seq<nat>)
    requires |texts| == |blocks| && b < |blocks| && b !in which
    requires forall i :: 0 <= i < |which| ==> which[i] < |blocks|
    requires forall i, j :: 0 <= i < j < |which| ==> blocks[which[i]].start > blocks[which[j]].start
    requires forall i :: 0 <= i < |which| ==> blocks[which[i]].start != blocks[b].start
    ensures forall i :: 0 <= i < |r| ==> r[i] < |blocks|
    ensures Insert(ReplacementsOf(blocks, texts, [b])[0], ReplacementsOf(blocks, texts, which))
            == ReplacementsOf(blocks, texts, r)
    ensures forall i, j :: 0 <= i < j < |r| ==> blocks[r[i]].start > blocks[r[j]].start
    ensures forall i :: i in r <==> i == b || i in which
  {
    var rs := ReplacementsOf(blocks, texts, which);
    if which == [] || blocks[b].start >= rs[0].start {
      r := [b] + which;
    } else {
      var tail := InsertKeepsReplacements(blocks, texts, b, which[1..]);
      r := [which[0]] + tail;
      assert rs[1..] == ReplacementsOf(blocks, texts, which[1..]);
      forall i, j | 0 <= i < j < |r|
        ensures blocks[r[i]].start > blocks[r[j]].start
      {
        if i == 0 {
          assert r[j] in tail;
        }
      }
    }
  }

  lemma FirstStartDiffers(blocks: seq<Block>, texts: seq<seq<Line>>, which: seq<nat>, tail: seq<nat>)
    requires |texts| == |blocks| && which != []
    requires forall i :: 0 <= i < |which| ==> which[i] < |blocks|
    requires forall i :: 0 <= i < |tail| ==> tail[i] < |blocks|
    requires DistinctStarts(ReplacementsOf(blocks, texts, which))
    requires forall i :: i in tail <==> i in which[1..]
    ensures forall i :: 0 <= i < |tail| ==> blocks[tail[i]].start != blocks[which[0]].start
    ensures which[0] !in tail
  {
    var rs := ReplacementsOf(blocks, texts, which);
    forall i | 0 <= i < |tail|
      ensures blocks[tail[i]].start != blocks[which[0]].start
    {
      assert tail[i] in which[1..];
      var j :| 1 <= j < |which| && which[j] == tail[i];
      assert rs[0].start != rs[j].start;
    }
  }

  lemma {:induction false} DescendingKeepsReplacements(blocks: seq<Block>, texts: seq<seq<Line>>, which: seq<nat>)
    returns (r: seq<nat>)
    requires |texts| == |blocks|
    requires forall i :: 0 <= i < |which| ==> which[i] < |blocks|
    requires DistinctStarts(ReplacementsOf(blocks, texts, which))
    ensures forall i :: 0 <= i < |r| ==> r[i] < |blocks|
    ensures Descending(ReplacementsOf(blocks, texts, which)) == ReplacementsOf(blocks, texts, r)
    ensures forall i, j :: 0 <= i < j < |r| ==> blocks[r[i]].start > blocks[r[j]].start
    ensures forall i :: i in r <==> i in which
  {
    var rs := ReplacementsOf(blocks, texts, which);
    if which == [] {
      r := [];
    } else {
      var rest := which[1..];
      assert rs[1..] == ReplacementsOf(blocks, texts, rest);
      var tailRs := ReplacementsOf(blocks, texts, rest);
      assert forall i, j :: 0 <= i < j < |rest| ==> tailRs[i].start != tailRs[j].start;
      var tail := DescendingKeepsReplacements(blocks, texts, rest);
      hide Descending, ReplacementsOf, Insert;
      FirstStartDiffers(blocks, texts, which, tail);
      r := InsertKeepsReplacements(blocks, texts, which[0], tail);
      assert ReplacementsOf(blocks, texts, [which[0]])[0] == rs[0];
    }
  }

  /** Whatever the order in which the replacements were collected, splicing them in place is
      substituting every chosen block at once, in file order, and keeping all others as they are. */
  lemma PatchingSubstitutes(lines: seq<Line>, blocks: seq<Block>, texts: seq<seq<Line>>, which: seq<nat>)
    requires Tiles(lines, blocks) && |texts| == |blocks|
    requires forall i :: 0 <= i < |which| ==> which[i] < |blocks|
    requires DistinctStarts(ReplacementsOf(blocks, texts, which))
    ensures SpliceAll(lines, Descending(ReplacementsOf(blocks, texts, which)))
            == Before(lines, blocks, 0) + Substituted(blocks, texts, Chosen(which), 0)
  {
    hide SpliceAll, Descending, Tiles, Substituted, DistinctStarts;
    var r := DescendingKeepsReplacements(blocks, texts, which);
    forall i, j | 0 <= i < j < |r|
      ensures r[i] > r[j]
    {
      if r[i] < r[j] {
        StartsAscend(lines, blocks, r[i], r[j]);
        BeforeNext(lines, blocks, r[i]);
      }
    }
    SplicingBackwardsSubstitutes(lines, blocks, texts, r);
    assert Chosen(r) == Chosen(which);
  }

  // Inside an entry

  /** strip_location_lines */
  function Strip(lines: seq<Line>): (r: seq<Line>)
    ensures forall i :: 0 <= i < |r| ==> !IsLocation(r[i])
  {
    if lines == [] then []
    else
      var k := |lines| - 1;
      Strip(lines[..k]) + (if IsLocation(lines[k]) then [] else [lines[k]])
  }

  datatype Sections = Sections(prefix: seq<Line>, msgid: seq<Line>, msgstr: seq<Line>) {
    function Lines(): seq<Line> {
      prefix + msgid + msgstr
    }

    /** The msgid section runs from the first msgid line to before the next msgstr line. */
    predicate WellFormed() {
      && (forall i :: 0 <= i < |prefix| ==> !("msgid" <= prefix[i]))
      && (msgid != [] ==> "msgid" <= msgid[0])
      && (msgid == [] ==> msgstr == [])
      && (forall i :: 0 <= i < |msgid| ==> !("msgstr" <= msgid[i]))
      && (msgstr != [] ==> "msgstr" <= msgstr[0])
    }
  }

  /** split_entry_sections */
  method SplitEntrySections(lines: seq<Line>) returns (s: Sections)
    ensures s.Lines() == lines && s.WellFormed()
  {
    var prefix, i := [], 0;
    while i < |lines|
      invariant 0 <= i <= |lines| && prefix == lines[..i]
      invariant forall k :: 0 <= k < i ==> !("msgid" <= lines[k])
    {
      if "msgid" <= lines[i] {
        break;
      }
      prefix := prefix + [lines[i]];
      i := i + 1;
    }
    ghost var begin := i;
    var msgid := [];
    while i < |lines|
      invariant begin <= i <= |lines| && msgid == lines[begin..i]
      invariant forall k :: begin <= k < i ==> !("msgstr" <= lines[k])
    {
      if "msgstr" <= lines[i] {
        break;
      }
      msgid := msgid + [lines[i]];
      i := i + 1;
    }
    KeywordsDiffer(lines, begin);
    s := Sections(prefix, msgid, lines[i..]);
  }

  /** Lines can be cut into sections in one way only. */
  lemma SectionsAreUnique(s: Sections, t: Sections)
    requires s.WellFormed() && t.WellFormed() && s.Lines() == t.Lines()
    ensures s == t
  {
    PrefixIsNotLonger(s, t);
    PrefixIsNotLonger(t, s);
    var lines := s.Lines();
    assert s.prefix == lines[..|s.prefix|] && t.prefix == lines[..|t.prefix|];
    assert s.msgid + s.msgstr == lines[|s.prefix|..] && t.msgid + t.msgstr == lines[|t.prefix|..];
    MsgidIsNotLonger(s, t);
    MsgidIsNotLonger(t, s);
    var rest := lines[|s.prefix|..];
    assert s.msgid == rest[..|s.msgid|] && t.msgid == rest[..|t.msgid|];
    assert s.msgstr == rest[|s.msgid|..] && t.msgstr == rest[|t.msgid|..];
  }

  lemma PrefixIsNotLonger(s: Sections, t: Sections)
    requires s.WellFormed() && t.WellFormed() && s.Lines() == t.Lines()
    ensures |s.prefix| <= |t.prefix|
  {
    hide Sections.WellFormed, Sections.Lines;
    EndOfPrefix(t);
    if |t.prefix| < |s.prefix| {
      InPrefix(s, |t.prefix|);
    }
  }

  lemma EndOfPrefix(s: Sections)
    requires s.WellFormed()
    ensures |s.prefix| < |s.Lines()| ==> "msgid" <= s.Lines()[|s.prefix|]
  {
  }

  lemma InPrefix(s: Sections, k: nat)
    requires s.WellFormed() && k < |s.prefix|
    ensures k < |s.Lines()| && !("msgid" <= s.Lines()[k])
  {
  }

  lemma MsgidIsNotLonger(s: Sections, t: Sections)
    requires s.WellFormed() && t.WellFormed() && s.msgid + s.msgstr == t.msgid + t.msgstr
    ensures |s.msgid| <= |t.msgid|
  {
    hide Sections.WellFormed, Sections.Lines;
    EndOfMsgid(t);
    if |t.msgid| < |s.msgid| {
      InMsgid(s, |t.msgid|);
    }
  }

  lemma EndOfMsgid(s: Sections)
    requires s.WellFormed()
    ensures |s.msgid| < |s.msgid + s.msgstr| ==> "msgstr" <= (s.msgid + s.msgstr)[|s.msgid|]
  {
  }

  lemma InMsgid(s: Sections, k: nat)
    requires s.WellFormed() && k < |s.msgid|
    ensures !("msgstr" <= (s.msgid + s.msgstr)[k])
  {
  }

  /** merge_keeping_msgid: the new prefix and translation around the old msgid section, or the new
      entry if the old one has none. */
  method MergeKeepingMsgid(oldLines: seq<Line>, newLines: seq<Line>) returns (merged: seq<Line>)
    ensures forall s: Sections, t: Sections ::
              s.WellFormed() && t.WellFormed() && s.Lines() == Strip(oldLines) && t.Lines() == Strip(newLines) ==>
                merged == if s.msgid == [] then Strip(newLines) else t.prefix + s.msgid + t.msgstr
    ensures merged == Merge(Cut(Strip(oldLines)), Cut(Strip(newLines))).Lines()
  {
    var older := SplitEntrySections(Strip(oldLines));
    var newer := SplitEntrySections(Strip(newLines));
    CutIs(older);
    CutIs(newer);
    merged := if older.msgid == [] then Strip(newLines) else newer.prefix + older.msgid + newer.msgstr;
    forall s: Sections, t: Sections
      | s.WellFormed() && t.WellFormed() && s.Lines() == Strip(oldLines) && t.Lines() == Strip(newLines)
      ensures s == older && t == newer
    {
      SectionsAreUnique(s, older);
      SectionsAreUnique(t, newer);
    }
  }

  function Merge(older: Sections, newer: Sections): Sections {
    if older.msgid == [] then newer else newer.(msgid := older.msgid)
  }

  /** The sections of an entry. */
  function Cut(lines: seq<Line>): (s: Sections)
    ensures s.Lines() == lines && s.WellFormed()
  {
    var i := FirstWith(lines, "msgid", 0);
    var j := FirstWith(lines, "msgstr", i);
    KeywordsDiffer(lines, i);
    assert lines[..i] + lines[i..j] + lines[j..] == lines;
    Sections(lines[..i], lines[i..j], lines[j..])
  }

  lemma KeywordsDiffer(lines: seq<Line>, i: nat)
    ensures i < |lines| ==> !("msgid" <= lines[i] && "msgstr" <= lines[i])
  {
    if i < |lines| && "msgid" <= lines[i] {
      assert lines[i][3] == 'i';
    }
  }

  function FirstWith(lines: seq<Line>, keyword: string, from: nat): (i: nat)
    requires from <= |lines|
    ensures from <= i <= |lines| && (i < |lines| ==> keyword <= lines[i])
    ensures forall k :: from <= k < i ==> !(keyword <= lines[k])
    decreases |lines| - from
  {
    if from == |lines| || keyword <= lines[from] then from else FirstWith(lines, keyword, from + 1)
  }

  lemma CutIs(s: Sections)
    requires s.WellFormed()
    ensures Cut(s.Lines()) == s
  {
    SectionsAreUnique(Cut(s.Lines()), s);
  }

  /** Merging once more, with the merged entry as either side, changes nothing. */
  lemma MergingIsIdempotent(older: Sections, newer: Sections)
    requires older.WellFormed() && newer.WellFormed()
    ensures var merged := Merge(older, newer);
            && Cut(merged.Lines()) == merged
            && Merge(older, Cut(merged.Lines())) == merged && Merge(Cut(merged.Lines()), newer) == merged
  {
    CutIs(Merge(older, newer));
  }

  predicate IsContext(line: Line) {
    "msgctxt " <= line
  }

  function WithoutContext(lines: seq<Line>): (r: seq<Line>)
    ensures forall i :: 0 <= i < |r| ==> !IsContext(r[i])
  {
    if lines == [] then []
    else
      var k := |lines| - 1;
      WithoutContext(lines[..k]) + (if IsContext(lines[k]) then [] else [lines[k]])
  }

  predicate NoMsgid(lines: seq<Line>) {
    forall i :: 0 <= i < |lines| ==> !("msgid" <= lines[i])
  }

  /** `out` is `body` with `context` before the first msgid line, or at the top if there is none. */
  predicate Injected(body: seq<Line>, context: Line, at: nat, out: seq<Line>) {
    && at <= |body| && out == body[..at] + [context] + body[at..]
    && if NoMsgid(body) then at == 0 else at < |body| && "msgid" <= body[at] && NoMsgid(body[..at])
  }

  predicate InjectedAtMsgid(body: seq<Line>, context: Line, at: nat, out: seq<Line>) {
    && at < |body| && out == body[..at] + [context] + body[at..]
    && "msgid" <= body[at] && NoMsgid(body[..at])
  }

  lemma InjectedOneMore(body: seq<Line>, line: Line, context: Line, at: nat, out: seq<Line>)
    ensures NoMsgid(body) && "msgid" <= line ==>
              InjectedAtMsgid(body + [line], context, |body|, body + [context] + [line])
    ensures InjectedAtMsgid(body, context, at, out) ==> InjectedAtMsgid(body + [line], context, at, out + [line])
    ensures NoMsgid(body) && !("msgid" <= line) ==> NoMsgid(body + [line])
  {
    var more := body + [line];
    assert more[..|body|] == body && more[|body|..] == [line];
    if InjectedAtMsgid(body, context, at, out) {
      assert more[..at] == body[..at] && more[at..] == body[at..] + [line];
    }
  }

  /** inject_msgctxt; `context` is the quoted msgctxt line. */
  method InjectMsgctxt(lines: seq<Line>, context: Line) returns (out: seq<Line>)
    requires IsContext(context)
    ensures exists at :: Injected(WithoutContext(lines), context, at, out)
  {
    hide NoMsgid, InjectedAtMsgid;
    out := [];
    ghost var at: nat := 0;
    var inserted := false;
    NothingInjected(context);
    for i := 0 to |lines|
      invariant !inserted ==> at == 0 && out == WithoutContext(lines[..i]) && NoMsgid(out)
      invariant inserted ==> InjectedAtMsgid(WithoutContext(lines[..i]), context, at, out)
    {
      assert lines[..i + 1][..i] == lines[..i];
      var line := lines[i];
      ghost var body := WithoutContext(lines[..i]);
      if IsContext(line) {
        assert WithoutContext(lines[..i + 1]) == body + [] == body;
        continue;
      }
      assert WithoutContext(lines[..i + 1]) == body + [line];
      InjectedOneMore(body, line, context, at, out);
      if !inserted && "msgid" <= line {
        at := |body|;
        out := out + [context];
        inserted := true;
      }
      out := out + [line];
    }
    assert lines[..|lines|] == lines;
    if !inserted {
      out := [context] + out;
    }
    InjectedAtEnd(WithoutContext(lines), context, at, out);
  }

  lemma NothingInjected(context: Line)
    ensures NoMsgid([])
  {
  }

  lemma InjectedAtEnd(body: seq<Line>, context: Line, at: nat, out: seq<Line>)
    ensures InjectedAtMsgid(body, context, at, out) ==> Injected(body, context, at, out)
    ensures NoMsgid(body) && at == 0 && out == [context] + body ==> Injected(body, context, at, out)
  {
    assert body[..0] == [] && body[0..] == body;
  }

  /** Injecting replaces the context: it is then the only one, and doing it again with another
      leaves no trace of the first. */
  lemma InjectedReplaces(body: seq<Line>, context: Line, at: nat, out: seq<Line>)
    requires Injected(body, context, at, out) && IsContext(context)
    requires forall i :: 0 <= i < |body| ==> !IsContext(body[i])
    ensures WithoutContext(out) == body
    ensures forall i :: 0 <= i < |out| ==> (IsContext(out[i]) <==> i == at)
  {
    hide *;
    InjectedShape(body, context, at, out);
    var pre, post := body[..at], body[at..];
    OnlyContextAt(pre, context, post);
    RemovingInjected(pre, context, post);
  }

  lemma InjectedShape(body: seq<Line>, context: Line, at: nat, out: seq<Line>)
    requires Injected(body, context, at, out)
    ensures at <= |body| && out == body[..at] + [context] + body[at..] && body[..at] + body[at..] == body
  {
  }

  lemma RemovingInjected(pre: seq<Line>, context: Line, post: seq<Line>)
    requires IsContext(context)
    requires forall i :: 0 <= i < |pre| ==> !IsContext(pre[i])
    requires forall i :: 0 <= i < |post| ==> !IsContext(post[i])
    ensures WithoutContext(pre + [context] + post) == pre + post
  {
    hide WithoutContext, IsContext;
    WithoutContextConcat(pre + [context], post);
    WithoutContextConcat(pre, [context]);
    WithoutContextOfContext(context);
    WithoutContextClean(pre);
    WithoutContextClean(post);
    assert pre + [] == pre;
  }

  lemma OnlyContextAt(pre: seq<Line>, context: Line, post: seq<Line>)
    requires IsContext(context)
    requires forall i :: 0 <= i < |pre| ==> !IsContext(pre[i])
    requires forall i :: 0 <= i < |post| ==> !IsContext(post[i])
    ensures var out := pre + [context] + post;
            forall i :: 0 <= i < |out| ==> (IsContext(out[i]) <==> i == |pre|)
  {
    hide IsContext;
  }

  lemma WithoutContextOfContext(context: Line)
    requires IsContext(context)
    ensures WithoutContext([context]) == []
  {
    assert [context][..0] == [];
  }

  lemma {:induction false} WithoutContextConcat(a: seq<Line>, b: seq<Line>)
    ensures WithoutContext(a + b) == WithoutContext(a) + WithoutContext(b)
    decreases |b|
  {
    if b == [] {
      assert a + b == a;
    } else {
      WithoutContextConcat(a, b[..|b| - 1]);
      assert (a + b)[..|a + b| - 1] == a + b[..|b| - 1];
    }
  }

  lemma {:induction false} WithoutContextClean(a: seq<Line>)
    requires forall i :: 0 <= i < |a| ==> !IsContext(a[i])
    ensures WithoutContext(a) == a
  {
    if a != [] {
      WithoutContextClean(a[..|a| - 1]);
    }
  }

  // The patched catalogue

  /** What becomes of an entry: it is gone from the normalized catalogue, differs there, has only
      gained a context, or is the same. */
  datatype Fate = Removed | Changed(newLines: seq<Line>) | Upgraded(injected: seq<Line>) | Unchanged

  function NewText(block: Block, fate: Fate): seq<Line> {
    match fate
    case Removed => []
    case Changed(newLines) => Merge(Cut(Strip(block.lines)), Cut(Strip(newLines))).Lines()
    case Upgraded(injected) => Strip(injected)
    case Unchanged => Strip(block.lines)
  }

  /** What the new text consists of, in terms of the sections of the old and the new entry. */
  lemma NewTextMeaning(block: Block, fate: Fate, s: Sections, t: Sections)
    ensures fate.Removed? ==> NewText(block, fate) == []
    ensures fate.Changed? && s.WellFormed() && t.WellFormed()
            && s.Lines() == Strip(block.lines) && t.Lines() == Strip(fate.newLines) ==>
              NewText(block, fate) == if s.msgid == [] then t.Lines() else t.prefix + s.msgid + t.msgstr
    ensures fate.Upgraded? ==> NewText(block, fate) == Strip(fate.injected)
    ensures fate.Unchanged? ==> NewText(block, fate) == Strip(block.lines)
  {
    hide Strip, Cut;
    if fate.Changed? && s.WellFormed() && t.WellFormed()
       && s.Lines() == Strip(block.lines) && t.Lines() == Strip(fate.newLines) {
      CutIs(s);
      CutIs(t);
    }
  }

  function NewTexts(blocks: seq<Block>, fates: seq<Fate>): (r: seq<seq<Line>>)
    requires |fates| == |blocks|
    ensures |r| == |blocks| && forall i :: 0 <= i < |r| ==> r[i] == NewText(blocks[i], fates[i])
  {
    seq(|blocks|, i requires 0 <= i < |blocks| => NewText(blocks[i], fates[i]))
  }

  predicate IsReplaced(block: Block, fate: Fate) {
    !fate.Unchanged? || Strip(block.lines) != block.lines
  }

  lemma {:induction false} StripConcat(a: seq<Line>, b: seq<Line>)
    ensures Strip(a + b) == Strip(a) + Strip(b)
    decreases |b|
  {
    if b == [] {
      assert a + b == a;
    } else {
      StripConcat(a, b[..|b| - 1]);
      assert (a + b)[..|a + b| - 1] == a + b[..|b| - 1];
    }
  }

  /** With StripConcat, what is stripped: the lines that begin with "#:". */
  lemma StripOne(line: Line)
    ensures Strip([]) == [] && Strip([line]) == if |line| >= 2 && line[..2] == "#:" then [] else [line]
  {
    assert [line][..0] == [];
  }

  lemma {:induction false} StripClean(a: seq<Line>)
    requires forall i :: 0 <= i < |a| ==> !IsLocation(a[i])
    ensures Strip(a) == a
  {
    if a != [] {
      StripClean(a[..|a| - 1]);
    }
  }

  lemma NewTextIsClean(block: Block, fate: Fate)
    ensures Strip(NewText(block, fate)) == NewText(block, fate)
  {
    if fate.Changed? {
      MergeIsClean(Cut(Strip(block.lines)), Cut(Strip(fate.newLines)));
    }
    hide Cut, Merge, Strip;
    StripClean(NewText(block, fate));
  }

  predicate Clean(lines: seq<Line>) {
    forall line :: line in lines ==> !IsLocation(line)
  }

  lemma MergeIsClean(older: Sections, newer: Sections)
    requires Clean(older.Lines()) && Clean(newer.Lines())
    ensures Clean(Merge(older, newer).Lines())
  {
    hide IsLocation;
    forall line | line in Merge(older, newer).Lines()
      ensures !IsLocation(line)
    {
      assert line in older.Lines() || line in newer.Lines();
    }
  }

  lemma {:induction false} StripSubstituted(blocks: seq<Block>, fates: seq<Fate>, chosen: set<nat>, k: nat)
    requires |fates| == |blocks| && k <= |blocks|
    requires forall i :: 0 <= i < |blocks| && IsReplaced(blocks[i], fates[i]) ==> i in chosen
    ensures Strip(Substituted(blocks, NewTexts(blocks, fates), chosen, k)) == Concat(NewTexts(blocks, fates)[k..])
    decreases |blocks| - k
  {
    hide NewText, Strip;
    var texts := NewTexts(blocks, fates);
    if k < |blocks| {
      StripSubstituted(blocks, fates, chosen, k + 1);
      NewTextIsClean(blocks[k], fates[k]);
      StripConcat(if k in chosen then texts[k] else blocks[k].lines, Substituted(blocks, texts, chosen, k + 1));
      UnreplacedIsClean(blocks[k], fates[k]);
      assert texts[k..][0] == texts[k] && texts[k..][1..] == texts[k + 1..];
    } else {
      StripClean([]);
    }
  }

  lemma UnreplacedIsClean(block: Block, fate: Fate)
    ensures !IsReplaced(block, fate) ==> Strip(block.lines) == NewText(block, fate) == block.lines
  {
  }

  /** The patched catalogue is the old header without location lines, then the new text of every
      entry in the old order; no entry is lost, duplicated or moved, and an unchanged one loses
      its location lines only. */
  lemma PatchedCatalogue(lines: seq<Line>, blocks: seq<Block>, fates: seq<Fate>, which: seq<nat>)
    requires Tiles(lines, blocks) && |fates| == |blocks|
    requires forall i :: 0 <= i < |which| ==> which[i] < |blocks|
    requires forall i :: 0 <= i < |blocks| ==> (i in which <==> IsReplaced(blocks[i], fates[i]))
    requires DistinctStarts(ReplacementsOf(blocks, NewTexts(blocks, fates), which))
    ensures Strip(SpliceAll(lines, Descending(ReplacementsOf(blocks, NewTexts(blocks, fates), which))))
            == Strip(Before(lines, blocks, 0)) + Concat(NewTexts(blocks, fates))
  {
    hide Tiles, Strip, SpliceAll, Descending, IsReplaced, DistinctStarts, NewText, Before;
    var texts := NewTexts(blocks, fates);
    PatchingSubstitutes(lines, blocks, texts, which);
    StripConcat(Before(lines, blocks, 0), Substituted(blocks, texts, Chosen(which), 0));
    StripSubstituted(blocks, fates, Chosen(which), 0);
    assert texts[0..] == texts;
  }
}
