/** Splitting help documents into heading-scoped passages (apps/help/chunking.py).
    The heading matches of the text are given, as the regular expression finds them. */
module Chunking {
  import opened Common
  import opened PythonText

  /** A heading line: where it lies in the text, its depth and its title. */
  datatype Heading = Heading(start: nat, end: nat, level: nat, title: string)

  datatype Crumb = Crumb(level: nat, title: string)

  datatype Passage = Passage(path: string, text: string)

  // ----- the heading stack -----

  function Below(stack: seq<Crumb>, level: nat): seq<Crumb> {
    if stack == [] then []
    else
      var last := stack[|stack| - 1];
      Below(stack[..|stack| - 1], level) + (if last.level < level then [last] else [])
  }

  /** The stack after the first `k` headings. */
  function StackAfter(hs: seq<Heading>, k: nat): seq<Crumb>
    requires k <= |hs|
  {
    if k == 0 then []
    else Below(StackAfter(hs, k - 1), hs[k - 1].level) + [Crumb(hs[k - 1].level, hs[k - 1].title)]
  }

  /** Heading `j` still encloses what follows the first `k`: none of the headings after
      it is at its level or above. */
  predicate Encloses(hs: seq<Heading>, j: nat, k: nat)
    requires k <= |hs|
  {
    j < k && forall i | j < i < k :: hs[i].level > hs[j].level
  }

  /** The enclosing headings among the first `n`, outermost first. */
  function Chain(hs: seq<Heading>, n: nat, k: nat): seq<Crumb>
    requires n <= k <= |hs|
  {
    if n == 0 then []
    else Chain(hs, n - 1, k) + (if Encloses(hs, n - 1, k) then [Crumb(hs[n - 1].level, hs[n - 1].title)] else [])
  }

  lemma BelowSnoc(stack: seq<Crumb>, c: Crumb, level: nat)
    ensures Below(stack + [c], level) == Below(stack, level) + (if c.level < level then [c] else [])
  {
    assert (stack + [c])[..|stack|] == stack;
  }

  lemma {:induction false} BelowOfChain(hs: seq<Heading>, n: nat, k: nat)
    requires n <= k < |hs|
    ensures Below(Chain(hs, n, k), hs[k].level) == Chain(hs, n, k + 1)
  {
    if n > 0 {
      var j := n - 1;
      BelowOfChain(hs, j, k);
      assert Encloses(hs, j, k + 1) <==> Encloses(hs, j, k) && hs[j].level < hs[k].level;
      if Encloses(hs, j, k) {
        BelowSnoc(Chain(hs, j, k), Crumb(hs[j].level, hs[j].title), hs[k].level);
      } else {
        assert Chain(hs, n, k) == Chain(hs, j, k);
      }
    }
  }

  predicate Rising(stack: seq<Crumb>) {
    forall i, j | 0 <= i < j < |stack| :: stack[i].level < stack[j].level
  }

  lemma {:induction false} StackIsChain(hs: seq<Heading>, k: nat)
    requires k <= |hs|
    ensures StackAfter(hs, k) == Chain(hs, k, k)
  {
    if k > 0 {
      StackIsChain(hs, k - 1);
      BelowOfChain(hs, k - 1, k - 1);
    }
  }

  lemma {:induction false} BelowIsPart(stack: seq<Crumb>, level: nat)
    ensures forall c | c in Below(stack, level) :: c in stack && c.level < level
  {
    if stack != [] {
      BelowIsPart(stack[..|stack| - 1], level);
    }
  }

  lemma RisingSnoc(stack: seq<Crumb>, c: Crumb)
    requires Rising(stack) && forall d | d in stack :: d.level < c.level
    ensures Rising(stack + [c])
  {
  }

  lemma LastIsHighest(stack: seq<Crumb>, c: Crumb)
    requires Rising(stack) && stack != [] && c in stack[..|stack| - 1]
    ensures c.level < stack[|stack| - 1].level
  {
    var i :| 0 <= i < |stack| - 1 && stack[i] == c;
  }

  lemma {:induction false} BelowRises(stack: seq<Crumb>, level: nat)
    requires Rising(stack)
    ensures Rising(Below(stack, level))
  {
    if stack != [] {
      var n := |stack| - 1;
      BelowRises(stack[..n], level);
      BelowIsPart(stack[..n], level);
      forall c | c in Below(stack[..n], level) ensures c.level < stack[n].level {
        LastIsHighest(stack, c);
      }
      RisingSnoc(Below(stack[..n], level), stack[n]);
    }
  }

  lemma {:induction false} StackRises(hs: seq<Heading>, k: nat)
    requires k <= |hs|
    ensures Rising(StackAfter(hs, k))
  {
    if k > 0 {
      var before, h := StackAfter(hs, k - 1), hs[k - 1];
      StackRises(hs, k - 1);
      BelowRises(before, h.level);
      BelowIsPart(before, h.level);
      RisingSnoc(Below(before, h.level), Crumb(h.level, h.title));
    }
  }

  /** The stack after the first `k` headings is the exact chain of those that enclose
      what follows, outermost first, with strictly rising levels. */
  lemma StackIsEnclosureChain(hs: seq<Heading>, k: nat, c: Crumb)
    requires k <= |hs|
    ensures StackAfter(hs, k) == Chain(hs, k, k)
    ensures Rising(StackAfter(hs, k))
    ensures c in StackAfter(hs, k) <==> exists j: nat :: Encloses(hs, j, k) && c == Crumb(hs[j].level, hs[j].title)
  {
    StackIsChain(hs, k);
    StackRises(hs, k);
    ChainHolds(hs, k, k, c);
  }

  /** A heading encloses what follows exactly when it is on the stack. */
  lemma {:induction false} ChainHolds(hs: seq<Heading>, n: nat, k: nat, c: Crumb)
    requires n <= k <= |hs|
    ensures c in Chain(hs, n, k) <==> exists j: nat :: j < n && Encloses(hs, j, k) && c == Crumb(hs[j].level, hs[j].title)
  {
    if n > 0 {
      ChainHolds(hs, n - 1, k, c);
    }
  }

  const SEPARATOR := " \U{203A} "

  function Titles(stack: seq<Crumb>): seq<string> {
    seq(|stack|, i requires 0 <= i < |stack| => stack[i].title)
  }

  function Path(stack: seq<Crumb>): string { Join(SEPARATOR, Titles(stack)) }

  // ----- stripping, by position -----

  predicate Blank(s: string) { forall i | 0 <= i < |s| :: IsSpace(s[i]) }

  function Leading(s: string): (n: nat)
    ensures n <= |s|
  {
    if s != "" && IsSpace(s[0]) then 1 + Leading(s[1..]) else 0
  }

  lemma {:induction false} StripLeftDrops(s: string)
    ensures StripLeft(s) == s[Leading(s)..] && Blank(s[..Leading(s)])
  {
    if s != "" && IsSpace(s[0]) {
      StripLeftDrops(s[1..]);
      assert s[..Leading(s)] == [s[0]] + s[1..][..Leading(s[1..])];
    }
  }

  lemma {:induction false} StripRightTakes(s: string)
    ensures StripRight(s) <= s && Blank(s[|StripRight(s)|..])
  {
    if s != "" && IsSpace(s[|s| - 1]) {
      var front := s[..|s| - 1];
      StripRightTakes(front);
      assert s[|StripRight(s)|..] == front[|StripRight(front)|..] + [s[|s| - 1]];
    }
  }

  /** Stripping keeps one stretch of the text and drops only blanks. */
  lemma StripIsStretch(s: string)
    ensures var lo, hi := Leading(s), Leading(s) + |Strip(s)|;
      hi <= |s| && Strip(s) == s[lo..hi] && Blank(s[..lo]) && Blank(s[hi..])
  {
    StripLeftDrops(s);
    var t := StripLeft(s);
    StripRightTakes(t);
    var lo, hi := Leading(s), Leading(s) + |Strip(s)|;
    assert s[hi..] == t[|Strip(s)|..];
    assert s[lo..hi] == t[..|Strip(s)|];
  }

  lemma BlankStripsToNothing(s: string)
    ensures Strip(s) == "" <==> Blank(s)
  {
    StripIsStretch(s);
    if Strip(s) == "" {
      var lo := Leading(s);
      assert s == s[..lo] + s[lo..];
    } else if Blank(s) {
      var t := StripLeft(s);
      var i := |Strip(s)| - 1;
      assert Strip(s)[i] == s[Leading(s) + i];
      StripRightEnd(t);
    }
  }

  lemma {:induction false} StripRightEnd(s: string)
    ensures StripRight(s) != "" ==> !IsSpace(StripRight(s)[|StripRight(s)| - 1])
  {
    if s != "" && IsSpace(s[|s| - 1]) {
      StripRightEnd(s[..|s| - 1]);
    }
  }

  // ----- windows -----

  /** The window that starts at `pos`. */
  function WindowAt(body: string, pos: nat, max: nat): string { Take(Drop(body, pos), max) }

  function Stride(max: nat, overlap: int): (n: nat)
    ensures n >= 1
  {
    Max(1, max - overlap)
  }

  /** The places `pos`, `pos + step`, ... below `n` that are kept. */
  function Every(n: nat, step: nat, pos: nat, keep: nat -> bool): seq<nat>
    requires step >= 1
    decreases n - pos
  {
    if pos >= n then []
    else if keep(pos) then [pos] + Every(n, step, pos + step, keep)
    else Every(n, step, pos + step, keep)
  }

  /** Windows of nothing but blanks are not kept. */
  function Speaks(body: string, max: nat): nat -> bool {
    (pos: nat) => Strip(WindowAt(body, pos, max)) != ""
  }

  /** The starts of all windows of a stripped section body. */
  function Starts(body: string, max: nat, overlap: int): seq<nat> {
    if body == "" then []
    else if |body| <= max then [0]
    else Every(|body|, Stride(max, overlap), 0, Speaks(body, max))
  }

  /** The passages that start at the given places. */
  function Cut(body: string, path: string, max: nat, starts: seq<nat>): (ps: seq<Passage>)
    ensures |ps| == |starts|
  {
    if starts == [] then []
    else Cut(body, path, max, starts[..|starts| - 1]) + [Passage(path, WindowAt(body, starts[|starts| - 1], max))]
  }

  lemma {:induction false} CutConcat(body: string, path: string, max: nat, a: seq<nat>, b: seq<nat>)
    ensures Cut(body, path, max, a + b) == Cut(body, path, max, a) + Cut(body, path, max, b)
    decreases |b|
  {
    if b == [] {
      assert a + b == a;
    } else {
      var n := |b| - 1;
      assert (a + b)[..|a + b| - 1] == a + b[..n];
      CutConcat(body, path, max, a, b[..n]);
    }
  }

  lemma CutOne(body: string, path: string, max: nat, pos: nat)
    ensures Cut(body, path, max, [pos]) == [Passage(path, WindowAt(body, pos, max))]
  {
    assert [pos][..0] == [];
  }

  /** The place `pos` if it is kept. */
  function Here(pos: nat, keep: nat -> bool): seq<nat> { if keep(pos) then [pos] else [] }

  lemma EveryStep(n: nat, step: nat, pos: nat, keep: nat -> bool)
    requires step >= 1 && pos < n
    ensures Every(n, step, pos, keep) == Here(pos, keep) + Every(n, step, pos + step, keep)
  {
  }

  method Window(body: string, path: string, max: nat, overlap: int) returns (passages: seq<Passage>)
    ensures passages == Cut(body, path, max, Starts(body, max, overlap))
  {
    if body == "" {
      return [];
    }
    if |body| <= max {
      CutOne(body, path, max, 0);
      assert WindowAt(body, 0, max) == body;
      return [Passage(path, body)];
    }
    passages := LongWindows(body, path, max, Stride(max, overlap));
  }

  /** The passages still to come at `pos`. */
  ghost function Remaining(body: string, path: string, max: nat, step: nat, pos: nat): seq<Passage>
    requires step >= 1
  {
    Cut(body, path, max, Every(|body|, step, pos, Speaks(body, max)))
  }

  /** The passage at `pos`, if its window is not blank. */
  function Piece(body: string, path: string, max: nat, pos: nat): seq<Passage> {
    var window := WindowAt(body, pos, max);
    if Strip(window) != "" then [Passage(path, window)] else []
  }

  /** At each place a piece remains, if its window is not blank, and what remains a
      stride further. */
  lemma RemainingStep(body: string, path: string, max: nat, step: nat, pos: nat, rest: seq<Passage>) returns (later: seq<Passage>)
    requires step >= 1 && pos < |body| && rest == Remaining(body, path, max, step, pos)
    ensures rest == Piece(body, path, max, pos) + later
    ensures later == Remaining(body, path, max, step, pos + step)
  {
    var speaks := Speaks(body, max);
    EveryStep(|body|, step, pos, speaks);
    CutOne(body, path, max, pos);
    CutConcat(body, path, max, Here(pos, speaks), Every(|body|, step, pos + step, speaks));
    later := Remaining(body, path, max, step, pos + step);
  }

  lemma NothingRemains(body: string, path: string, max: nat, step: nat, pos: nat)
    requires step >= 1 && |body| <= pos
    ensures Remaining(body, path, max, step, pos) == []
  {
  }

  lemma TakeNext(before: seq<Passage>, piece: seq<Passage>, rest: seq<Passage>)
    ensures before + (piece + rest) == before + piece + rest
  {
  }

  method LongWindows(body: string, path: string, max: nat, step: nat) returns (passages: seq<Passage>)
    requires step >= 1
    ensures passages == Remaining(body, path, max, step, 0)
  {
    var pos := 0;
    passages := [];
    ghost var whole := Remaining(body, path, max, step, 0);
    ghost var rest := whole;
    while pos < |body|
      invariant passages + rest == whole
      invariant rest == Remaining(body, path, max, step, pos)
      decreases |body| - pos
    {
      var more;
      more, rest := WindowHere(body, path, max, step, pos, passages, rest, whole);
      passages := passages + more;
      pos := pos + step;
    }
    NothingRemains(body, path, max, step, pos);
  }

  /** The passage of the window at `pos`, and what then remains. */
  method WindowHere(body: string, path: string, max: nat, step: nat, pos: nat,
                    ghost before: seq<Passage>, ghost rest: seq<Passage>, ghost whole: seq<Passage>)
    returns (passages: seq<Passage>, ghost later: seq<Passage>)
    requires step >= 1 && pos < |body| && rest == Remaining(body, path, max, step, pos) && before + rest == whole
    ensures passages == Piece(body, path, max, pos)
    ensures later == Remaining(body, path, max, step, pos + step) && before + passages + later == whole
  {
    var window := WindowAt(body, pos, max);
    passages := if Strip(window) != "" then [Passage(path, window)] else [];
    later := RemainingStep(body, path, max, step, pos, rest);
    TakeNext(before, passages, later);
  }

  // ----- what the windows cover -----

  /** Position `p` of the body lies in a window. */
  predicate InWindow(starts: seq<nat>, max: nat, p: nat) {
    exists x | x in starts :: x <= p < x + max
  }

  lemma {:induction false} EveryLiesAhead(n: nat, step: nat, pos: nat, keep: nat -> bool, x: nat)
    requires step >= 1 && x in Every(n, step, pos, keep)
    ensures pos <= x < n && (x == pos || pos + step <= x)
    decreases n - pos
  {
    if pos < n && x in Every(n, step, pos + step, keep) {
      EveryLiesAhead(n, step, pos + step, keep, x);
    }
  }

  /** If the stride is no longer than a window, every place lies in a window, kept if
      its window is. */
  lemma {:induction false} EveryCovers(n: nat, step: nat, pos: nat, keep: nat -> bool, max: nat, p: nat)
    requires 1 <= step <= max && pos <= p < n
    requires forall x: nat | x <= p < x + max :: keep(x)
    ensures InWindow(Every(n, step, pos, keep), max, p)
    decreases n - pos
  {
    if p < pos + step {
      assert keep(pos);
      assert pos in Every(n, step, pos, keep);
    } else {
      EveryCovers(n, step, pos + step, keep, max, p);
      var x :| x in Every(n, step, pos + step, keep) && x <= p < x + max;
      assert x in Every(n, step, pos, keep);
    }
  }

  lemma WindowSpeaks(body: string, max: nat, x: nat, p: nat)
    requires x <= p < x + max && p < |body| && !IsSpace(body[p])
    ensures Speaks(body, max)(x)
  {
    var window := WindowAt(body, x, max);
    assert window[p - x] == body[p];
    BlankStripsToNothing(window);
  }

  predicate KeepsText(body: string, max: nat, overlap: int) {
    forall p: nat | p < |body| && !IsSpace(body[p]) :: InWindow(Starts(body, max, overlap), max, p)
  }

  lemma WindowsCover(body: string, max: nat, overlap: int, p: nat)
    requires max >= 1 && overlap >= 0 && p < |body| && !IsSpace(body[p])
    ensures InWindow(Starts(body, max, overlap), max, p)
  {
    if |body| <= max {
      assert 0 in Starts(body, max, overlap);
    } else {
      forall x: nat | x <= p < x + max ensures Speaks(body, max)(x) {
        WindowSpeaks(body, max, x, p);
      }
      EveryCovers(|body|, Stride(max, overlap), 0, Speaks(body, max), max, p);
    }
  }

  /** With a negative overlap, or empty windows, the character after the first window
      of a long body is in none. */
  lemma WindowsSkip(body: string, max: nat, overlap: int)
    requires max == 0 || overlap < 0
    requires |body| == max + 1
    ensures !InWindow(Starts(body, max, overlap), max, max)
  {
    var starts := Starts(body, max, overlap);
    forall x | x in starts ensures !(x <= max < x + max) {
      EveryLiesAhead(|body|, Stride(max, overlap), 0, Speaks(body, max), x);
    }
  }

  /** Every non-blank character of every body lies in some window exactly when windows
      are not empty and do not overlap by a negative amount. */
  lemma WindowsKeepText(max: nat, overlap: int)
    ensures (forall body :: KeepsText(body, max, overlap)) <==> max >= 1 && overlap >= 0
  {
    if max >= 1 && overlap >= 0 {
      forall body, p: nat | p < |body| && !IsSpace(body[p])
        ensures InWindow(Starts(body, max, overlap), max, p)
      {
        WindowsCover(body, max, overlap, p);
      }
    } else {
      var body := seq(max + 1, _ => 'x');
      assert !IsSpace(body[max]);
      WindowsSkip(body, max, overlap);
      assert !KeepsText(body, max, overlap);
    }
  }

  /** No passage is longer than the limit. */
  lemma {:induction false} PassagesAreShort(body: string, path: string, max: nat, starts: seq<nat>)
    ensures forall p | p in Cut(body, path, max, starts) :: |p.text| <= max
  {
    if starts != [] {
      PassagesAreShort(body, path, max, starts[..|starts| - 1]);
    }
  }

  // ----- whole documents -----

  function SectionStart(hs: seq<Heading>, k: nat): nat
    requires k <= |hs|
  {
    if k == 0 then 0 else hs[k - 1].end
  }

  function SectionEnd(text: string, hs: seq<Heading>, k: nat): nat
    requires k <= |hs|
  {
    if k < |hs| then hs[k].start else |text|
  }

  /** Headings are found in order, without overlap, inside the text. */
  predicate WellPlaced(text: string, hs: seq<Heading>) {
    && (forall k: nat | k <= |hs| :: SectionStart(hs, k) <= SectionEnd(text, hs, k))
    && (forall i | 0 <= i < |hs| :: hs[i].start <= hs[i].end <= |text|)
  }

  /** The text after the first `k` headings up to the next one. */
  function Section(text: string, hs: seq<Heading>, k: nat): string
    requires WellPlaced(text, hs) && k <= |hs|
  {
    text[SectionStart(hs, k)..SectionEnd(text, hs, k)]
  }

  /** The passages of one section's text. */
  function TextChunks(section: string, path: string, max: nat, overlap: int): seq<Passage> {
    Cut(Strip(section), path, max, Starts(Strip(section), max, overlap))
  }

  function SectionChunks(text: string, hs: seq<Heading>, k: nat, max: nat, overlap: int): seq<Passage>
    requires WellPlaced(text, hs) && k <= |hs|
  {
    TextChunks(Section(text, hs, k), Path(StackAfter(hs, k)), max, overlap)
  }

  function Concat(parts: seq<seq<Passage>>): seq<Passage> {
    if parts == [] then [] else Concat(parts[..|parts| - 1]) + parts[|parts| - 1]
  }

  function Parts(text: string, hs: seq<Heading>, max: nat, overlap: int): (parts: seq<seq<Passage>>)
    requires WellPlaced(text, hs)
    ensures |parts| == |hs| + 1
  {
    seq(|hs| + 1, k requires 0 <= k <= |hs| => SectionChunks(text, hs, k, max, overlap))
  }

  /** The passages of a document, section by section. */
  function Chunks(text: string, hs: seq<Heading>, max: nat, overlap: int): seq<Passage>
    requires WellPlaced(text, hs)
  {
    Concat(Parts(text, hs, max, overlap))
  }

  method ChunkMarkdown(text: string, hs: seq<Heading>, max: nat, overlap: int) returns (passages: seq<Passage>)
    requires WellPlaced(text, hs)
    ensures passages == Chunks(text, hs, max, overlap)
  {
    ghost var parts := Parts(text, hs, max, overlap);
    passages := ChunkSection(text, hs, 0, [], max, overlap, parts);
    ConcatOne(parts, 0);
    var stack: seq<Crumb> := [];
    for i := 0 to |hs|
      invariant stack == StackAfter(hs, i)
      invariant passages == Concat(parts[..i + 1])
    {
      stack := Below(stack, hs[i].level) + [Crumb(hs[i].level, hs[i].title)];
      var more := ChunkSection(text, hs, i + 1, stack, max, overlap, parts);
      passages := passages + more;
      ConcatOne(parts, i + 1);
    }
    assert parts[..|hs| + 1] == parts;
  }

  lemma ConcatOne(parts: seq<seq<Passage>>, k: nat)
    requires k < |parts|
    ensures Concat(parts[..k + 1]) == Concat(parts[..k]) + parts[k]
    ensures Concat(parts[..0]) == []
  {
    assert parts[..k + 1][..k] == parts[..k];
  }

  method ChunkSection(text: string, hs: seq<Heading>, k: nat, stack: seq<Crumb>, max: nat, overlap: int,
                      ghost parts: seq<seq<Passage>>)
    returns (passages: seq<Passage>)
    requires WellPlaced(text, hs) && k <= |hs| && stack == StackAfter(hs, k) && parts == Parts(text, hs, max, overlap)
    ensures passages == parts[k]
  {
    passages := Window(Strip(Section(text, hs, k)), Path(stack), max, overlap);
  }

  lemma {:induction false} ConcatHolds(parts: seq<seq<Passage>>, q: Passage)
    ensures q in Concat(parts) <==> exists k :: 0 <= k < |parts| && q in parts[k]
  {
    if parts != [] {
      var n := |parts| - 1;
      ConcatHolds(parts[..n], q);
      assert forall k | 0 <= k < n :: parts[..n][k] == parts[k];
    }
  }

  lemma {:induction false} CutHolds(body: string, path: string, max: nat, starts: seq<nat>, x: nat)
    requires x in starts
    ensures Passage(path, WindowAt(body, x, max)) in Cut(body, path, max, starts)
  {
    var n := |starts| - 1;
    if x != starts[n] {
      CutHolds(body, path, max, starts[..n], x);
    }
  }

  /** Passage `q` is the stretch of the text from `lo` on, and holds position `p`. */
  predicate Quotes(text: string, q: Passage, lo: nat, p: nat) {
    lo <= p < lo + |q.text| <= |text| && q.text == text[lo..lo + |q.text|]
  }

  lemma WindowQuotes(body: string, path: string, x: nat, max: nat, p: nat)
    requires x <= p < x + max && p < |body|
    ensures Quotes(body, Passage(path, WindowAt(body, x, max)), x, p)
  {
  }

  lemma BodyWindowHolds(body: string, path: string, max: nat, overlap: int, p: nat) returns (q: Passage, x: nat)
    requires max >= 1 && overlap >= 0 && p < |body| && !IsSpace(body[p])
    ensures q in Cut(body, path, max, Starts(body, max, overlap)) && q.path == path && Quotes(body, q, x, p)
  {
    var starts := Starts(body, max, overlap);
    WindowsCover(body, max, overlap, p);
    x :| x in starts && x <= p < x + max;
    CutHolds(body, path, max, starts, x);
    q := Passage(path, WindowAt(body, x, max));
    WindowQuotes(body, path, x, max, p);
  }

  lemma QuotesOfStretch(text: string, lo: nat, hi: nat, q: Passage, x: nat, p: nat)
    requires lo <= hi <= |text| && Quotes(text[lo..hi], q, x, p)
    ensures Quotes(text, q, lo + x, lo + p)
  {
    SliceOfSlice(text, lo, hi, x, x + |q.text|);
  }

  lemma SliceOfSlice(s: string, lo: nat, hi: nat, i: nat, j: nat)
    requires lo <= hi <= |s| && i <= j <= hi - lo
    ensures s[lo..hi][i..j] == s[lo + i..lo + j]
  {
    var a, b := s[lo..hi][i..j], s[lo + i..lo + j];
    forall k | 0 <= k < |a| ensures a[k] == b[k] {
    }
  }

  /** A non-blank character survives stripping. */
  lemma StripKeeps(s: string, p: nat)
    requires p < |s| && !IsSpace(s[p])
    ensures var lo, hi := Leading(s), Leading(s) + |Strip(s)|;
      lo <= p < hi <= |s| && Strip(s) == s[lo..hi]
  {
    StripIsStretch(s);
  }

  /** What quotes the inner text quotes the outer one, `lead` places on. */
  ghost predicate QuotesMove(inner: string, at: nat, outer: string, p: nat, lead: nat) {
    forall q, x: nat, y: nat | Quotes(inner, q, x, at) && y == lead + x :: Quotes(outer, q, y, p)
  }

  lemma MovedQuotes(outer: string, lead: nat, inner: string, at: nat, p: nat)
    requires lead + |inner| <= |outer| && inner == outer[lead..lead + |inner|] && p == lead + at
    ensures QuotesMove(inner, at, outer, p, lead)
  {
    forall q, x: nat, y: nat | Quotes(inner, q, x, at) && y == lead + x ensures Quotes(outer, q, y, p) {
      QuotesOfStretch(outer, lead, lead + |inner|, q, x, at);
    }
  }

  lemma StrippedPlace(section: string, p: nat) returns (lead: nat)
    requires p < |section| && !IsSpace(section[p])
    ensures lead <= p < lead + |Strip(section)| && !IsSpace(Strip(section)[p - lead])
    ensures QuotesMove(Strip(section), p - lead, section, p, lead)
  {
    StripKeeps(section, p);
    lead := Leading(section);
    MovedQuotes(section, lead, Strip(section), p - lead, p);
  }

  lemma ChunkHolds(section: string, path: string, max: nat, overlap: int, p: nat) returns (q: Passage, x: nat)
    requires max >= 1 && overlap >= 0 && p < |Strip(section)| && !IsSpace(Strip(section)[p])
    ensures q in TextChunks(section, path, max, overlap) && q.path == path && Quotes(Strip(section), q, x, p)
  {
    q, x := BodyWindowHolds(Strip(section), path, max, overlap, p);
  }

  lemma TextHolds(section: string, path: string, max: nat, overlap: int, p: nat) returns (q: Passage, lo: nat)
    requires max >= 1 && overlap >= 0 && p < |section| && !IsSpace(section[p])
    ensures q in TextChunks(section, path, max, overlap) && q.path == path && Quotes(section, q, lo, p)
  {
    var lead := StrippedPlace(section, p);
    var x;
    q, x := ChunkHolds(section, path, max, overlap, p - lead);
    lo := lead + x;
  }

  ghost predicate QuotedIn(passages: seq<Passage>, path: string, text: string, p: nat) {
    exists q, lo: nat :: q in passages && q.path == path && Quotes(text, q, lo, p)
  }

  /** Chunking loses no text: for non-empty windows that do not overlap negatively,
      every non-blank character outside the headings is quoted, at its place, by a
      passage whose path names exactly the headings that enclose it. */
  lemma DocumentKeepsText(text: string, hs: seq<Heading>, k: nat, max: nat, overlap: int, p: nat)
    requires WellPlaced(text, hs) && k <= |hs| && max >= 1 && overlap >= 0
    requires SectionStart(hs, k) <= p < SectionEnd(text, hs, k) && !IsSpace(text[p])
    ensures QuotedIn(Chunks(text, hs, max, overlap), Path(Chain(hs, k, k)), text, p)
  {
    StackIsChain(hs, k);
    var path, section := Path(Chain(hs, k, k)), Section(text, hs, k);
    var q, lo := SpanHolds(text, SectionStart(hs, k), section, path, max, overlap, p);
    var parts := Parts(text, hs, max, overlap);
    assert q in parts[k];
    ConcatHolds(parts, q);
  }

  lemma SpanHolds(text: string, a: nat, section: string, path: string, max: nat, overlap: int, p: nat)
    returns (q: Passage, lo: nat)
    requires max >= 1 && overlap >= 0 && a <= p < a + |section| <= |text| && !IsSpace(text[p])
    requires section == text[a..a + |section|]
    ensures q in TextChunks(section, path, max, overlap) && q.path == path && Quotes(text, q, lo, p)
  {
    var x;
    q, x := TextHolds(section, path, max, overlap, p - a);
    MovedQuotes(text, a, section, p - a, p);
    lo := a + x;
  }

  /** No passage of a document is longer than the limit. */
  lemma DocumentPassagesAreShort(text: string, hs: seq<Heading>, max: nat, overlap: int, q: Passage)
    requires WellPlaced(text, hs) && q in Chunks(text, hs, max, overlap)
    ensures |q.text| <= max
  {
    var parts := Parts(text, hs, max, overlap);
    ConcatHolds(parts, q);
    var k: nat :| k < |parts| && q in parts[k];
    var body := Strip(Section(text, hs, k));
    PassagesAreShort(body, Path(StackAfter(hs, k)), max, Starts(body, max, overlap));
  }
}
