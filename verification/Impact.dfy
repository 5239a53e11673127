/** Relating recorded coverage lines to edited lines by unchanged, unambiguous text only. */
module Impact {
  import opened Wrappers

  /** A run of equal lines: `size` lines from index `a` of the old text and `b` of the new. */
  datatype Block = Block(a: nat, b: nat, size: nat)

  /** An inclusive range of line numbers. */
  datatype Span = Span(first: nat, last: nat)

  /** The host's text functions and its sequence matcher. */
  datatype Host = Host(
    split: string -> seq<string>, blank: string -> bool, match_: (seq<string>, seq<string>) -> seq<Block>)

  /** What is assumed of the matcher: ordered, non-overlapping runs of equal lines. */
  ghost predicate Matching(rec: seq<string>, edited: seq<string>, blocks: seq<Block>) {
    && (forall i :: 0 <= i < |blocks| ==>
        blocks[i].a + blocks[i].size <= |rec| && blocks[i].b + blocks[i].size <= |edited|)
    && (forall i :: 0 <= i < |blocks| ==>
        rec[blocks[i].a..blocks[i].a + blocks[i].size] == edited[blocks[i].b..blocks[i].b + blocks[i].size])
    && (forall i, j :: 0 <= i < j < |blocks| ==>
        blocks[i].a + blocks[i].size <= blocks[j].a && blocks[i].b + blocks[i].size <= blocks[j].b)
  }

  ghost predicate SoundHost(h: Host) {
    forall x, y :: Matching(x, y, h.match_(x, y))
  }

  function Count(lines: seq<string>, line: string): nat {
    if lines == [] then 0 else (if lines[0] == line then 1 else 0) + Count(lines[1..], line)
  }

  predicate CountedOnce(h: Host, rec: seq<string>, edited: seq<string>, line: string) {
    !h.blank(line) && Count(rec, line) == 1 && Count(edited, line) == 1
  }

  /** The line stands at `i` and nowhere else. */
  ghost predicate OnlyAt(lines: seq<string>, i: nat, line: string) {
    i < |lines| && lines[i] == line && line !in lines[..i] && line !in lines[i + 1..]
  }

  ghost predicate Once(lines: seq<string>, line: string) {
    exists i :: OnlyAt(lines, i, line)
  }

  /** A line that names one place in each text. */
  ghost predicate Unambiguous(h: Host, rec: seq<string>, edited: seq<string>, line: string) {
    !h.blank(line) && Once(rec, line) && Once(edited, line)
  }

  lemma {:induction false} CountNone(lines: seq<string>, line: string)
    ensures Count(lines, line) == 0 <==> line !in lines
  {
    if lines != [] {
      CountNone(lines[1..], line);
      assert lines == [lines[0]] + lines[1..];
    }
  }

  lemma OnlyAtCons(head: string, rest: seq<string>, i: nat, line: string)
    ensures OnlyAt([head] + rest, 0, line) <==> head == line && line !in rest
    ensures OnlyAt([head] + rest, i + 1, line) <==> head != line && OnlyAt(rest, i, line)
  {
    var lines := [head] + rest;
    assert lines[1..] == rest;
    if i < |rest| { assert lines[..i + 1] == [head] + rest[..i] && lines[i + 1 + 1..] == rest[i + 1..]; }
  }

  lemma OnceCons(head: string, rest: seq<string>, line: string)
    ensures Once([head] + rest, line) <==> if head == line then line !in rest else Once(rest, line)
  {
    hide OnlyAt;
    OnlyAtCons(head, rest, 0, line);
    if i: nat :| OnlyAt(rest, i, line) && head != line {
      OnlyAtCons(head, rest, i, line);
      assert OnlyAt([head] + rest, i + 1, line);
    }
    if i: nat :| OnlyAt([head] + rest, i, line) && i > 0 {
      OnlyAtCons(head, rest, i - 1, line);
      assert OnlyAt(rest, i - 1, line);
    }
  }

  lemma {:induction false} CountMeans(lines: seq<string>, line: string)
    ensures Count(lines, line) == 1 <==> Once(lines, line)
  {
    hide Once;
    if lines == [] {
      NeverOnce(line);
    } else {
      assert lines == [lines[0]] + lines[1..];
      OnceCons(lines[0], lines[1..], line);
      CountMeans(lines[1..], line);
      CountNone(lines[1..], line);
    }
  }

  lemma NeverOnce(line: string)
    ensures !Once([], line)
  {
  }

  lemma CountedOnceMeans(h: Host, rec: seq<string>, edited: seq<string>, line: string)
    ensures CountedOnce(h, rec, edited, line) <==> Unambiguous(h, rec, edited, line)
  {
    hide Once, Count;
    CountMeans(rec, line);
    CountMeans(edited, line);
  }

  /** Line `n` of the new text and line `o` of the old are the same unambiguous line. */
  ghost predicate SameLine(h: Host, rec: seq<string>, edited: seq<string>, n: nat, o: nat) {
    && 1 <= n <= |edited| && 1 <= o <= |rec| && edited[n - 1] == rec[o - 1]
    && Unambiguous(h, rec, edited, edited[n - 1])
  }

  ghost predicate Faithful(h: Host, rec: seq<string>, edited: seq<string>, m: map<nat, nat>) {
    && (forall n :: n in m ==> SameLine(h, rec, edited, n, m[n]))
    && (forall n, n' :: n in m && n' in m && n < n' ==> m[n] < m[n'])
  }

  ghost predicate Below(m: map<nat, nat>, n: nat, o: nat) {
    forall k :: k in m ==> k <= n && m[k] <= o
  }

  /** Every unambiguous line among the first `size` of a block is mapped. */
  ghost predicate Covers(h: Host, rec: seq<string>, edited: seq<string>, m: map<nat, nat>, block: Block, size: nat)
    requires block.a + size <= |rec|
  {
    forall x :: block.a <= x < block.a + size && Unambiguous(h, rec, edited, rec[x]) ==>
      x - block.a + block.b + 1 in m && m[x - block.a + block.b + 1] == x + 1
  }

  predicate Spans(block: Block, n: nat) {
    block.b < n <= block.b + block.size
  }

  /** Line `n` of the new text lies in one of the first `k` blocks. */
  ghost predicate InBlocks(blocks: seq<Block>, k: nat, n: nat) {
    exists i :: 0 <= i < k <= |blocks| && Spans(blocks[i], n)
  }

  /** Line `n` of the new text is an unambiguous line of a matched block. */
  ghost predicate Matched(h: Host, rec: seq<string>, edited: seq<string>, blocks: seq<Block>, n: nat) {
    InBlocks(blocks, |blocks|, n) && 1 <= n <= |edited| && Unambiguous(h, rec, edited, edited[n - 1])
  }

  /** The mapping from new lines to old ones: faithful, strictly increasing, and of exactly
      the unambiguous lines of the matched blocks. */
  method BuildMapping(h: Host, rec: seq<string>, edited: seq<string>, blocks: seq<Block>) returns (m: map<nat, nat>)
    requires Matching(rec, edited, blocks)
    ensures Faithful(h, rec, edited, m)
    ensures forall i :: 0 <= i < |blocks| ==> Covers(h, rec, edited, m, blocks[i], blocks[i].size)
    ensures forall n :: n in m <==> Matched(h, rec, edited, blocks, n)
  {
    hide Unambiguous, Faithful, Covers, Below, InBlocks, Matched;
    m := map[];
    NothingMapped(h, rec, edited);
    for i := 0 to |blocks|
      invariant Faithful(h, rec, edited, m)
      invariant i > 0 ==> Below(m, blocks[i - 1].b + blocks[i - 1].size, blocks[i - 1].a + blocks[i - 1].size)
      invariant i == 0 ==> m == map[]
      invariant forall j :: 0 <= j < i ==> Covers(h, rec, edited, m, blocks[j], blocks[j].size)
      invariant forall n :: n in m ==> InBlocks(blocks, i, n)
    {
      MoreBlocks(blocks, i);
      if i > 0 {
        BelowHigher(m, blocks[i - 1], blocks[i]);
      } else {
        BelowNothing(blocks[i]);
      }
      ghost var before := m;
      m := AddBlock(h, rec, edited, blocks[i], m);
      forall j | 0 <= j < i ensures Covers(h, rec, edited, m, blocks[j], blocks[j].size) {
        StillCovers(h, rec, edited, before, m, blocks[j]);
      }
    }
    MapsTheMatched(h, rec, edited, blocks, m);
  }

  lemma MoreBlocks(blocks: seq<Block>, i: nat)
    requires i < |blocks|
    ensures forall n :: InBlocks(blocks, i, n) ==> InBlocks(blocks, i + 1, n)
    ensures forall n :: Spans(blocks[i], n) ==> InBlocks(blocks, i + 1, n)
  {
  }

  lemma MapsTheMatched(h: Host, rec: seq<string>, edited: seq<string>, blocks: seq<Block>, m: map<nat, nat>)
    requires Matching(rec, edited, blocks) && Faithful(h, rec, edited, m)
    requires forall i :: 0 <= i < |blocks| ==> Covers(h, rec, edited, m, blocks[i], blocks[i].size)
    requires forall n :: n in m ==> InBlocks(blocks, |blocks|, n)
    ensures forall n :: n in m <==> Matched(h, rec, edited, blocks, n)
  {
    hide Unambiguous, Covers, Matching;
    forall n: nat | Matched(h, rec, edited, blocks, n) ensures n in m {
      var i :| 0 <= i < |blocks| && Spans(blocks[i], n);
      CoveredLine(h, rec, edited, blocks, m, i, n);
    }
  }

  lemma CoveredLine(
    h: Host, rec: seq<string>, edited: seq<string>, blocks: seq<Block>, m: map<nat, nat>, i: nat, n: nat)
    requires Matching(rec, edited, blocks) && i < |blocks| && Spans(blocks[i], n)
    requires Covers(h, rec, edited, m, blocks[i], blocks[i].size) && Unambiguous(h, rec, edited, edited[n - 1])
    ensures n in m
  {
    hide Unambiguous;
    var block, x := blocks[i], n - 1 - blocks[i].b + blocks[i].a;
    assert rec[x] == edited[n - 1] by {
      var k := n - 1 - block.b;
      assert rec[block.a..block.a + block.size][k] == edited[block.b..block.b + block.size][k];
    }
    assert x - block.a + block.b + 1 == n;
  }

  lemma NothingMapped(h: Host, rec: seq<string>, edited: seq<string>)
    ensures Faithful(h, rec, edited, map[])
  {
  }

  lemma BelowNothing(block: Block)
    ensures Below(map[], block.b, block.a)
  {
  }

  lemma BelowHigher(m: map<nat, nat>, last: Block, next: Block)
    requires Below(m, last.b + last.size, last.a + last.size)
    requires last.a + last.size <= next.a && last.b + last.size <= next.b
    ensures Below(m, next.b, next.a)
  {
  }

  lemma StillCovers(
    h: Host, rec: seq<string>, edited: seq<string>, before: map<nat, nat>, m: map<nat, nat>, block: Block)
    requires block.a + block.size <= |rec| && Covers(h, rec, edited, before, block, block.size)
    requires forall n :: n in before ==> n in m && m[n] == before[n]
    ensures Covers(h, rec, edited, m, block, block.size)
  {
    hide Unambiguous;
  }

  /** What the first `k` lines of a block add to a mapping. */
  ghost predicate Added(
    h: Host, rec: seq<string>, edited: seq<string>, block: Block, k: nat, before: map<nat, nat>, m: map<nat, nat>)
    requires block.a + k <= |rec|
  {
    && Faithful(h, rec, edited, m) && Below(m, block.b + k, block.a + k)
    && (forall n :: n in before ==> n in m && m[n] == before[n])
    && (forall n :: n in m ==> n in before || block.b < n <= block.b + k)
    && Covers(h, rec, edited, m, block, k)
  }

  lemma AddLine(
    h: Host, rec: seq<string>, edited: seq<string>, block: Block, k: nat, before: map<nat, nat>, m: map<nat, nat>)
    requires block.a + k < |rec| && block.b + k < |edited| && rec[block.a + k] == edited[block.b + k]
    requires Below(before, block.b, block.a) && Added(h, rec, edited, block, k, before, m)
    ensures Added(h, rec, edited, block, k + 1, before,
                  if Unambiguous(h, rec, edited, rec[block.a + k]) then m[block.b + k + 1 := block.a + k + 1] else m)
  {
    hide Unambiguous, Faithful, Covers;
    var n, o := block.b + k + 1, block.a + k + 1;
    assert n !in m;
    if Unambiguous(h, rec, edited, rec[block.a + k]) {
      FaithfulGrows(h, rec, edited, m, n, o);
      CoversGrows(h, rec, edited, m, block, k);
    } else {
      CoversSkips(h, rec, edited, m, block, k);
    }
  }

  lemma FaithfulGrows(h: Host, rec: seq<string>, edited: seq<string>, m: map<nat, nat>, n: nat, o: nat)
    requires Faithful(h, rec, edited, m) && SameLine(h, rec, edited, n, o) && n > 0 && o > 0 && Below(m, n - 1, o - 1)
    ensures Faithful(h, rec, edited, m[n := o])
  {
    hide SameLine;
  }

  lemma CoversGrows(h: Host, rec: seq<string>, edited: seq<string>, m: map<nat, nat>, block: Block, k: nat)
    requires block.a + k < |rec| && Covers(h, rec, edited, m, block, k) && block.b + k + 1 !in m
    ensures Covers(h, rec, edited, m[block.b + k + 1 := block.a + k + 1], block, k + 1)
  {
    hide Unambiguous;
  }

  lemma CoversSkips(h: Host, rec: seq<string>, edited: seq<string>, m: map<nat, nat>, block: Block, k: nat)
    requires block.a + k < |rec| && Covers(h, rec, edited, m, block, k)
    requires !Unambiguous(h, rec, edited, rec[block.a + k])
    ensures Covers(h, rec, edited, m, block, k + 1)
  {
    hide Unambiguous;
  }

  method AddBlock(h: Host, rec: seq<string>, edited: seq<string>, block: Block, before: map<nat, nat>)
    returns (m: map<nat, nat>)
    requires block.a + block.size <= |rec| && block.b + block.size <= |edited|
    requires rec[block.a..block.a + block.size] == edited[block.b..block.b + block.size]
    requires Faithful(h, rec, edited, before) && Below(before, block.b, block.a)
    ensures Faithful(h, rec, edited, m) && Below(m, block.b + block.size, block.a + block.size)
    ensures forall n :: n in before ==> n in m && m[n] == before[n]
    ensures forall n :: n in m ==> n in before || Spans(block, n)
    ensures Covers(h, rec, edited, m, block, block.size)
  {
    hide Unambiguous, Faithful, Below;
    m := before;
    for k := 0 to block.size
      invariant Added(h, rec, edited, block, k, before, m)
    {
      var line := rec[block.a + k];
      assert line == edited[block.b + k] by {
        assert rec[block.a..block.a + block.size][k] == edited[block.b..block.b + block.size][k];
      }
      AddLine(h, rec, edited, block, k, before, m);
      CountedOnceMeans(h, rec, edited, line);
      if CountedOnce(h, rec, edited, line) {
        m := m[block.b + k + 1 := block.a + k + 1];
      }
    }
  }

  /** Distinct new lines map to distinct old ones. */
  lemma FaithfulIsInjective(h: Host, rec: seq<string>, edited: seq<string>, m: map<nat, nat>, n: nat, n': nat)
    requires Faithful(h, rec, edited, m) && n in m && n' in m && n != n'
    ensures m[n] != m[n']
  {
  }

  function Lines(s: Span): (r: set<nat>)
    ensures forall n: nat :: n in r <==> s.first <= n <= s.last
    decreases s.last + 1 - s.first
  {
    if s.first > s.last then {} else {s.first} + Lines(Span(s.first + 1, s.last))
  }

  const MAX_LINES := 20_000
  const NO_LINES := "this edit has no lines in the recorded side"
  const TOO_LONG := "source exceeds the line-mapping limit"
  const AMBIGUOUS := "historical lines changed or have ambiguous repeated text"

  /** Line `n` has a recorded line among those found. */
  ghost predicate HasLine(h: Host, rec: seq<string>, edited: seq<string>, found: set<nat>, n: nat) {
    exists o :: o in found && SameLine(h, rec, edited, n, o)
  }

  /** The recorded line `o` is one of those wanted. */
  ghost predicate IsWanted(h: Host, rec: seq<string>, edited: seq<string>, wanted: set<nat>, o: nat) {
    exists n :: n in wanted && SameLine(h, rec, edited, n, o)
  }

  /** The whole span is accounted for: each of its lines has a recorded line with the same
      unambiguous text, and nothing else was found. */
  ghost predicate WholeSpan(h: Host, snapshot: string, reference: string, span: Span, found: set<nat>) {
    if snapshot == reference then found == Lines(span)
    else
      var rec, edited := h.split(snapshot), h.split(reference);
      && (forall n :: n in Lines(span) ==> HasLine(h, rec, edited, found, n))
      && (forall o :: o in found ==> IsWanted(h, rec, edited, Lines(span), o))
  }

  /** Every line of the span can be related to the recorded source. */
  ghost predicate Mappable(h: Host, snapshot: string, reference: string, span: Option<Span>) {
    && span.Some?
    && (snapshot != reference ==>
        var rec, edited := h.split(snapshot), h.split(reference);
        && |rec| <= MAX_LINES && |edited| <= MAX_LINES
        && forall n :: n in Lines(span.value) ==> Matched(h, rec, edited, h.match_(rec, edited), n))
  }

  /** The recorded lines of an edit's span, and why the answer is not complete: there is no
      reason exactly when every line of the span is an unambiguous line of a matched block. */
  method RecordedLines(h: Host, snapshot: string, reference: string, span: Option<Span>)
    returns (found: set<nat>, reason: string)
    requires SoundHost(h)
    ensures reason == "" <==> Mappable(h, snapshot, reference, span)
    ensures reason == "" ==> WholeSpan(h, snapshot, reference, span.value, found)
    ensures reason == "" ==> (found == {} <==> Lines(span.value) == {})
    ensures span.None? ==> found == {} && reason == NO_LINES
    ensures span.Some? && snapshot != reference ==> forall o :: o in found ==>
      IsWanted(h, h.split(snapshot), h.split(reference), Lines(span.value), o)
  {
    hide SoundHost, Lines, Matched, HasLine, IsWanted;
    if span.None? { return {}, NO_LINES; }
    if snapshot == reference { return Lines(span.value), ""; }
    var rec, edited := h.split(snapshot), h.split(reference);
    if |rec| > MAX_LINES || |edited| > MAX_LINES { return {}, TOO_LONG; }
    found, reason := Aligned(h, rec, edited, Lines(span.value));
  }

  /** The recorded lines of the wanted ones, through the matcher's equal runs. */
  method Aligned(h: Host, rec: seq<string>, edited: seq<string>, wanted: set<nat>)
    returns (found: set<nat>, reason: string)
    requires SoundHost(h)
    ensures forall o :: o in found ==> IsWanted(h, rec, edited, wanted, o)
    ensures forall n :: n in wanted && Matched(h, rec, edited, h.match_(rec, edited), n) ==>
      HasLine(h, rec, edited, found, n)
    ensures reason == "" <==> forall n :: n in wanted ==> Matched(h, rec, edited, h.match_(rec, edited), n)
    ensures reason == "" ==> (found == {} <==> wanted == {})
  {
    hide SameLine, Matching, Faithful, Covers, SoundHost, Matched, HasLine, IsWanted, Image;
    HostMatches(h, rec, edited);
    var mapping := BuildMapping(h, rec, edited, h.match_(rec, edited));
    found := Image(mapping, wanted);
    reason := if wanted - mapping.Keys != {} then AMBIGUOUS else "";
    ImageLines(h, rec, edited, mapping, wanted);
    AllMapped(mapping, wanted);
  }

  lemma ImageLines(h: Host, rec: seq<string>, edited: seq<string>, m: map<nat, nat>, wanted: set<nat>)
    requires Faithful(h, rec, edited, m)
    ensures forall o :: o in Image(m, wanted) ==> IsWanted(h, rec, edited, wanted, o)
    ensures forall n :: n in wanted && n in m ==> HasLine(h, rec, edited, Image(m, wanted), n)
  {
    hide SameLine;
  }

  lemma AllMapped(m: map<nat, nat>, wanted: set<nat>)
    ensures wanted - m.Keys == {} <==> forall n :: n in wanted ==> n in m
    ensures wanted - m.Keys == {} ==> (Image(m, wanted) == {} <==> wanted == {})
  {
    assert forall n :: n in wanted - m.Keys <==> n in wanted && n !in m;
    if wanted != {} && wanted - m.Keys == {} {
      var n :| n in wanted;
      assert m[n] in Image(m, wanted);
    }
  }

  function Image(m: map<nat, nat>, keys: set<nat>): (r: set<nat>)
    ensures forall n :: n in keys && n in m ==> m[n] in r
    ensures forall o :: o in r ==> exists n :: n in keys && n in m && m[n] == o
  {
    set n | n in keys && n in m :: m[n]
  }

  lemma HostMatches(h: Host, rec: seq<string>, edited: seq<string>)
    requires SoundHost(h)
    ensures Matching(rec, edited, h.match_(rec, edited))
  {
  }

  datatype Side = Old | New

  datatype Mapped = Mapped(lines: set<nat>, side: Option<Side>, reason: string)

  const UNALIGNED := "new, deleted or changed lines cannot be aligned reliably to this observation"

  /** An edit: its texts, the spans on each side, and why it may need file-level impact. */
  datatype Edit = Edit(oldText: string, newText: string, oldSpan: Option<Span>, newSpan: Option<Span>, fallback: string)

  function TextOf(e: Edit, s: Side): string {
    if s.Old? then e.oldText else e.newText
  }

  function SpanOf(e: Edit, s: Side): Option<Span> {
    if s.Old? then e.oldSpan else e.newSpan
  }

  /** The span of one side is not empty and can be related to the recorded source. */
  ghost predicate SideMaps(h: Host, snapshot: string, e: Edit, s: Side) {
    if s.Old? then Mappable(h, snapshot, e.oldText, e.oldSpan) && Lines(e.oldSpan.value) != {}
    else Mappable(h, snapshot, e.newText, e.newSpan) && Lines(e.newSpan.value) != {}
  }

  /** The lines are the whole span of the side. */
  ghost predicate WholeSide(h: Host, snapshot: string, e: Edit, s: Side, found: set<nat>) {
    if s.Old? then e.oldSpan.Some? && WholeSpan(h, snapshot, e.oldText, e.oldSpan.value, found)
    else e.newSpan.Some? && WholeSpan(h, snapshot, e.newText, e.newSpan.value, found)
  }

  /** The version that was recorded, when it is one of the two; else the old one. */
  function Preferred(snapshot: string, e: Edit): Side {
    if snapshot != e.oldText && snapshot == e.newText then New else Old
  }

  function OtherSide(s: Side): Side {
    if s.Old? then New else Old
  }

  /** Map an edited region to the recorded source.  Lines come back exactly when the region
      needs no file-level impact and one side's whole span can be related, the preferred
      side's if it can; they then are that whole span. */
  method MapRegion(h: Host, snapshot: string, e: Edit) returns (r: Mapped)
    requires SoundHost(h)
    ensures r.reason == "" <==> e.fallback == "" && (SideMaps(h, snapshot, e, Old) || SideMaps(h, snapshot, e, New))
    ensures r.reason == "" <==> r.lines != {}
    // the new side is used when the new version alone was recorded, or the old side cannot be
    ensures r.reason == "" ==>
      if snapshot != e.oldText && snapshot == e.newText
      then r.side == Some(if SideMaps(h, snapshot, e, New) then New else Old)
      else r.side == Some(if SideMaps(h, snapshot, e, Old) then Old else New)
    ensures r.reason == "" ==> WholeSide(h, snapshot, e, r.side.value, r.lines)
    ensures r.reason != "" ==> r.side.None?
  {
    hide WholeSpan, Mappable, Lines;
    if e.fallback != "" { return Mapped({}, None, e.fallback); }
    var first := Preferred(snapshot, e);
    var sides := [first, OtherSide(first)];
    for i := 0 to |sides|
      invariant forall j :: 0 <= j < i ==> !SideMaps(h, snapshot, e, sides[j])
    {
      MappableSpan(h, snapshot, e, sides[i]);
      var mapped, reason := RecordedLines(h, snapshot, TextOf(e, sides[i]), SpanOf(e, sides[i]));
      if mapped != {} && reason == "" {
        assert i == 1 ==> !SideMaps(h, snapshot, e, sides[0]);
        return Mapped(mapped, Some(sides[i]), "");
      }
    }
    assert !SideMaps(h, snapshot, e, sides[0]) && !SideMaps(h, snapshot, e, sides[1]);
    r := Mapped({}, None, UNALIGNED);
  }

  lemma MappableSpan(h: Host, snapshot: string, e: Edit, s: Side)
    ensures Mappable(h, snapshot, TextOf(e, s), SpanOf(e, s)) ==> SpanOf(e, s).Some?
  {
  }
}
