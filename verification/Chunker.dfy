/** Overlapping text windows with preferred white-space boundaries
    (backend/app/domains/knowledge/chunker.py). */
module Chunker {
  import opened Common
  import opened PyText

  datatype TextChunk = TextChunk(ordinal: nat, content: string)

  datatype ChunkError = SizeNotPositive | OverlapOutOfRange

  /** The half-open slice of the normalized text that one loop iteration looks at. */
  datatype Window = Window(start: nat, end: nat)

  function Length(w: Window): int {
    w.end - w.start
  }

  // ---------------------------------------------------------------- declarative specification

  ghost predicate NoSpace(s: string, lo: nat, hi: nat)
    requires hi <= |s|
  {
    forall i :: lo <= i < hi ==> s[i] != ' '
  }

  /** A window ends at the last space of its second half, or, when there is none,
      at its full size; a window that reaches the end of the text takes all of it. */
  ghost predicate WellCut(s: string, size: nat, w: Window) {
    && w.start < w.end <= |s|
    && Length(w) <= size
    && if w.start + size >= |s| then w.end == |s|
       else if w.end == w.start + size then NoSpace(s, w.start + Max(size / 2, 1), w.end)
       else && w.start + Max(size / 2, 1) <= w.end
            && s[w.end] == ' '
            && NoSpace(s, w.end + 1, w.start + size)
  }

  /** Consecutive windows share exactly `overlap` characters, or all but one of the
      earlier window when that window is too short for it. */
  ghost predicate Follows(overlap: nat, w: Window, next: Window) {
    w.end - next.start == Min(overlap, Length(w) - 1)
  }

  /** `ws` cuts the text from `start` to its end by the two rules above. */
  ghost predicate IsChunking(s: string, size: nat, overlap: nat, start: nat, ws: seq<Window>) {
    && |ws| > 0
    && ws[0].start == start
    && (forall i :: 0 <= i < |ws| ==> WellCut(s, size, ws[i]))
    && (forall i :: 0 <= i < |ws| - 1 ==> ws[i].end < |s| && Follows(overlap, ws[i], ws[i + 1]))
    && ws[|ws| - 1].end == |s|
  }

  // ---------------------------------------------------------------- computed windows

  function WindowEnd(s: string, size: nat, start: nat): (end: nat)
    requires 0 < size && start < |s|
    ensures start < end <= |s| && end - start <= size
  {
    var limit := Min(start + size, |s|);
    if limit < |s| then
      var boundary := RFind(s, ' ', start + Max(size / 2, 1), limit);
      if boundary > start then boundary else limit
    else limit
  }

  lemma WindowEndIsWellCut(s: string, size: nat, start: nat)
    requires 0 < size && start < |s|
    ensures WellCut(s, size, Window(start, WindowEnd(s, size, start)))
  {
  }

  function NextStart(overlap: nat, w: Window): int {
    Max(w.end - overlap, w.start + 1)
  }

  function Windows(s: string, size: nat, overlap: nat, start: nat): (ws: seq<Window>)
    requires overlap < size && start < |s|
    ensures |ws| > 0 && ws[0] == Window(start, WindowEnd(s, size, start))
    ensures forall w :: w in ws ==> w.start <= w.end <= |s| && Length(w) <= size
    decreases |s| - start
  {
    var w := Window(start, WindowEnd(s, size, start));
    if w.end >= |s| then [w]
    else [w] + Windows(s, size, overlap, NextStart(overlap, w))
  }

  lemma {:induction false} WindowsAreChunking(s: string, size: nat, overlap: nat, start: nat)
    requires overlap < size && start < |s|
    ensures IsChunking(s, size, overlap, start, Windows(s, size, overlap, start))
    decreases |s| - start
  {
    var w := Window(start, WindowEnd(s, size, start));
    WindowEndIsWellCut(s, size, start);
    if w.end < |s| {
      var next := NextStart(overlap, w);
      WindowsAreChunking(s, size, overlap, next);
      ChunkingCons(s, size, overlap, w, Windows(s, size, overlap, next));
    }
  }

  lemma ChunkingCons(s: string, size: nat, overlap: nat, w: Window, rest: seq<Window>)
    requires WellCut(s, size, w) && w.end < |s|
    requires rest != [] && Follows(overlap, w, rest[0])
    requires IsChunking(s, size, overlap, rest[0].start, rest)
    ensures IsChunking(s, size, overlap, w.start, [w] + rest)
  {
    var ws := [w] + rest;
    forall i | 0 <= i < |ws| ensures WellCut(s, size, ws[i]) {
      if i > 0 { assert ws[i] == rest[i - 1]; }
    }
    forall i | 0 <= i < |ws| - 1 ensures ws[i].end < |s| && Follows(overlap, ws[i], ws[i + 1]) {
      if i > 0 { assert ws[i] == rest[i - 1] && ws[i + 1] == rest[i]; }
    }
    assert ws[|ws| - 1] == rest[|rest| - 1];
  }

  lemma ChunkingTail(s: string, size: nat, overlap: nat, start: nat, ws: seq<Window>)
    requires IsChunking(s, size, overlap, start, ws) && |ws| > 1
    ensures IsChunking(s, size, overlap, ws[1].start, ws[1..])
  {
    var rest := ws[1..];
    forall i | 0 <= i < |rest| ensures WellCut(s, size, rest[i]) {
      assert rest[i] == ws[i + 1];
    }
    forall i | 0 <= i < |rest| - 1 ensures rest[i].end < |s| && Follows(overlap, rest[i], rest[i + 1]) {
      assert rest[i] == ws[i + 1] && rest[i + 1] == ws[i + 2];
    }
  }

  lemma WindowsUnfold(s: string, size: nat, overlap: nat, start: nat)
    requires overlap < size && start < |s|
    ensures var w := Window(start, WindowEnd(s, size, start));
            Windows(s, size, overlap, start) ==
            if w.end >= |s| then [w]
            else [w] + Windows(s, size, overlap, NextStart(overlap, w))
  {
  }

  /** The rules leave no freedom: they determine the windows. */
  lemma {:induction false} ChunkingIsUnique(
      s: string, size: nat, overlap: nat, start: nat, ws: seq<Window>)
    requires overlap < size && start < |s|
    requires IsChunking(s, size, overlap, start, ws)
    ensures ws == Windows(s, size, overlap, start)
    decreases |ws|
  {
    assert ws != [];
    hide IsChunking, Windows, WindowEnd;
    FirstWindow(s, size, overlap, start, ws);
    if |ws| > 1 {
      ChunkingTail(s, size, overlap, start, ws);
      ChunkingIsUnique(s, size, overlap, NextStart(overlap, ws[0]), ws[1..]);
    }
    assert ws == [ws[0]] + ws[1..];
    WindowsUnfold(s, size, overlap, start);
  }

  lemma FirstWindow(s: string, size: nat, overlap: nat, start: nat, ws: seq<Window>)
    requires overlap < size && start < |s|
    requires IsChunking(s, size, overlap, start, ws)
    ensures ws[0] == Window(start, WindowEnd(s, size, start))
    ensures |ws| > 1 <==> ws[0].end < |s|
    ensures |ws| > 1 ==> ws[1].start == NextStart(overlap, ws[0])
  {
    WindowEndIsWellCut(s, size, start);
    CutIsUnique(s, size, ws[0], Window(start, WindowEnd(s, size, start)));
    if |ws| > 1 {
      assert ws[0].end < |s| && Follows(overlap, ws[0], ws[1]);
    }
  }

  lemma CutIsUnique(s: string, size: nat, v: Window, w: Window)
    requires WellCut(s, size, v) && WellCut(s, size, w) && v.start == w.start
    ensures v == w
  {
  }

  /** Starts strictly increase, ends never go back, and no character is skipped. */
  lemma WindowsAdvance(s: string, size: nat, overlap: nat, v: Window, w: Window)
    requires overlap < size && WellCut(s, size, v) && WellCut(s, size, w)
    requires v.end < |s| && Follows(overlap, v, w)
    ensures v.start < w.start <= v.end <= w.end
  {
  }

  /** The same for any two consecutive windows of a text. */
  lemma WindowsOfTextAdvance(s: string, size: nat, overlap: nat, i: nat)
    requires overlap < size && s != ""
    requires i < |Windows(s, size, overlap, 0)| - 1
    ensures var ws := Windows(s, size, overlap, 0);
            && ws[i].start < ws[i + 1].start <= ws[i].end <= ws[i + 1].end
            && ws[i].end - ws[i + 1].start == Min(overlap, Length(ws[i]) - 1)
  {
    hide Windows, WellCut;
    var ws := Windows(s, size, overlap, 0);
    WindowsAreChunking(s, size, overlap, 0);
    assert WellCut(s, size, ws[i]) && WellCut(s, size, ws[i + 1]);
    WindowsAdvance(s, size, overlap, ws[i], ws[i + 1]);
  }

  /** The windows glued together, dropping from each what the one before it already held. */
  function Glue(s: string, ws: seq<Window>, from: nat): string
    requires forall w :: w in ws ==> w.end <= |s|
  {
    if ws == [] then ""
    else s[Min(Max(from, ws[0].start), ws[0].end)..ws[0].end] + Glue(s, ws[1..], ws[0].end)
  }

  lemma {:induction false} GlueRebuilds(
      s: string, size: nat, overlap: nat, start: nat, ws: seq<Window>, from: nat)
    requires overlap < size && start <= from <= |s|
    requires IsChunking(s, size, overlap, start, ws) && from <= ws[0].end
    requires forall w :: w in ws ==> w.end <= |s|
    ensures Glue(s, ws, from) == s[from..]
    decreases |ws|
  {
    var e := ws[0].end;
    FirstOfChunking(s, size, overlap, start, ws);
    if |ws| > 1 {
      ChunkingTail(s, size, overlap, start, ws);
      hide IsChunking;
      GlueRebuilds(s, size, overlap, ws[1].start, ws[1..], e);
      assert s[from..] == s[from..e] + s[e..];
    }
  }

  lemma FirstOfChunking(s: string, size: nat, overlap: nat, start: nat, ws: seq<Window>)
    requires overlap < size && IsChunking(s, size, overlap, start, ws)
    ensures ws[0].start == start < ws[0].end <= |s|
    ensures |ws| == 1 ==> ws[0].end == |s| && ws[1..] == []
    ensures |ws| > 1 ==> ws[0].start < ws[1].start <= ws[0].end <= ws[1].end
  {
    if |ws| > 1 {
      assert ws[0].end < |s| && Follows(overlap, ws[0], ws[1]);
      WindowsAdvance(s, size, overlap, ws[0], ws[1]);
    }
  }

  // ---------------------------------------------------------------- chunks

  function Content(s: string, w: Window): string
    requires w.start <= w.end <= |s|
  {
    Strip(s[w.start..w.end])
  }

  lemma ContentIsBounded(s: string, w: Window)
    requires w.start <= w.end <= |s|
    ensures |Content(s, w)| <= Length(w)
    ensures Strip(Content(s, w)) == Content(s, w)
  {
    StripTwice(s[w.start..w.end]);
  }

  /** The stripped, non-empty windows, numbered from `ordinal`. */
  function ChunksOf(s: string, ws: seq<Window>, ordinal: nat): seq<TextChunk>
    requires forall w :: w in ws ==> w.start <= w.end <= |s|
  {
    if ws == [] then []
    else
      var content := Content(s, ws[0]);
      if content == "" then ChunksOf(s, ws[1..], ordinal)
      else [TextChunk(ordinal, content)] + ChunksOf(s, ws[1..], ordinal + 1)
  }

  lemma ChunksUnfold(s: string, ws: seq<Window>, ordinal: nat)
    requires ws != [] && forall w :: w in ws ==> w.start <= w.end <= |s|
    ensures var content := Content(s, ws[0]);
            ChunksOf(s, ws, ordinal) ==
            if content == "" then ChunksOf(s, ws[1..], ordinal)
            else [TextChunk(ordinal, content)] + ChunksOf(s, ws[1..], ordinal + 1)
  {
  }

  ghost predicate IsProper(c: TextChunk, ordinal: nat, size: nat) {
    c.ordinal == ordinal && 1 <= |c.content| <= size && Strip(c.content) == c.content
  }

  /** The chunks are numbered from `ordinal`, carry 1..size characters and no outer white space. */
  ghost predicate AllProper(chunks: seq<TextChunk>, ordinal: nat, size: nat) {
    forall k :: 0 <= k < |chunks| ==> IsProper(chunks[k], ordinal + k, size)
  }

  lemma ProperCons(c: TextChunk, rest: seq<TextChunk>, ordinal: nat, size: nat)
    requires IsProper(c, ordinal, size) && AllProper(rest, ordinal + 1, size)
    ensures AllProper([c] + rest, ordinal, size)
  {
    hide IsProper;
    forall k | 0 <= k < 1 + |rest| ensures IsProper(([c] + rest)[k], ordinal + k, size) {
      if k > 0 {
        assert ([c] + rest)[k] == rest[k - 1];
      }
    }
  }

  lemma {:induction false} ChunkShape(s: string, ws: seq<Window>, ordinal: nat, size: nat)
    requires forall w :: w in ws ==> w.start <= w.end <= |s| && Length(w) <= size
    ensures AllProper(ChunksOf(s, ws, ordinal), ordinal, size)
  {
    if ws != [] {
      ContentIsBounded(s, ws[0]);
      ChunksUnfold(s, ws, ordinal);
      hide ChunksOf, Content, Strip;
      if Content(s, ws[0]) == "" {
        ChunkShape(s, ws[1..], ordinal, size);
      } else {
        ChunkShape(s, ws[1..], ordinal + 1, size);
        ProperCons(TextChunk(ordinal, Content(s, ws[0])), ChunksOf(s, ws[1..], ordinal + 1), ordinal, size);
      }
    }
  }

  lemma StripTwice(s: string)
    ensures Strip(Strip(s)) == Strip(s)
  {
    var lo, hi := StripIsSlice(s);
    var t := Strip(s);
    if t != "" {
      assert t[0] == s[lo] && t[|t| - 1] == s[hi - 1];
    }
  }

  lemma SliceOfSlice(s: string, a: nat, b: nat, lo: nat, hi: nat)
    requires a <= b <= |s| && lo <= hi <= b - a
    ensures s[a..b][lo..hi] == s[a + lo..a + hi]
  {
    var inner, outer := s[a..b][lo..hi], s[a + lo..a + hi];
    assert |inner| == |outer| == hi - lo;
    forall i | 0 <= i < hi - lo ensures inner[i] == outer[i] {
      assert s[a..b][lo + i] == s[a + lo + i];
    }
  }

  lemma StripKeeps(s: string, a: nat, b: nat, p: nat) returns (lo: nat, hi: nat)
    requires a <= p < b <= |s| && !IsSpace(s[p])
    ensures lo <= p < hi <= |s| && Content(s, Window(a, b)) == s[lo..hi]
  {
    var t := s[a..b];
    lo, hi := StripIsSlice(t);
    assert t[p - a] == s[p];
    assert lo <= p - a < hi;
    SliceOfSlice(s, a, b, lo, hi);
    lo, hi := a + lo, a + hi;
  }

  /** A non-space character inside a window is inside the chunk cut from that window. */
  lemma {:induction false} ChunkHolds(s: string, ws: seq<Window>, ordinal: nat, i: nat, p: nat)
    returns (k: nat, lo: nat, hi: nat)
    requires forall w :: w in ws ==> w.start <= w.end <= |s|
    requires i < |ws| && ws[i].start <= p < ws[i].end && !IsSpace(s[p])
    ensures k < |ChunksOf(s, ws, ordinal)|
    ensures lo <= p < hi <= |s| && ChunksOf(s, ws, ordinal)[k].content == s[lo..hi]
  {
    hide ChunksOf, Content;
    ChunksUnfold(s, ws, ordinal);
    if i == 0 {
      k := 0;
      lo, hi := StripKeeps(s, ws[0].start, ws[0].end, p);
    } else {
      var head := if Content(s, ws[0]) == "" then 0 else 1;
      var rest := ChunksOf(s, ws[1..], ordinal + head);
      k, lo, hi := ChunkHolds(s, ws[1..], ordinal + head, i - 1, p);
      assert ChunksOf(s, ws, ordinal)[k + head] == rest[k];
      k := k + head;
    }
  }

  lemma {:induction false} SomeWindowCovers(
      s: string, size: nat, overlap: nat, start: nat, ws: seq<Window>, p: nat) returns (i: nat)
    requires overlap < size && IsChunking(s, size, overlap, start, ws)
    requires start <= p < |s|
    ensures i < |ws| && ws[i].start <= p < ws[i].end
    decreases |ws|
  {
    if p < ws[0].end {
      i := 0;
    } else {
      assert ws[0].end < |s| && Follows(overlap, ws[0], ws[1]);
      WindowsAdvance(s, size, overlap, ws[0], ws[1]);
      ChunkingTail(s, size, overlap, start, ws);
      i := SomeWindowCovers(s, size, overlap, ws[1].start, ws[1..], p);
      i := i + 1;
    }
  }

  /** The chunks of a text: what the function returns when its arguments are in range. */
  function TextChunks(text: string, size: nat, overlap: nat): seq<TextChunk>
    requires overlap < size
  {
    var s := Normalize(text);
    if s == "" then [] else ChunksOf(s, Windows(s, size, overlap, 0), 0)
  }

  /** Chunks are numbered without gaps, carry 1..size characters and no outer white space. */
  lemma ChunksAreBounded(text: string, size: nat, overlap: nat)
    requires overlap < size
    ensures AllProper(TextChunks(text, size, overlap), 0, size)
  {
    var s := Normalize(text);
    if s != "" {
      ChunkShape(s, Windows(s, size, overlap, 0), 0, size);
    }
  }

  /** Every non-space character of the normalized text lies in some chunk. */
  lemma ChunksCover(text: string, size: nat, overlap: nat, p: nat)
    returns (k: nat, lo: nat, hi: nat)
    requires overlap < size
    requires p < |Normalize(text)| && !IsSpace(Normalize(text)[p])
    ensures k < |TextChunks(text, size, overlap)|
    ensures lo <= p < hi <= |Normalize(text)|
    ensures TextChunks(text, size, overlap)[k].content == Normalize(text)[lo..hi]
  {
    var s := Normalize(text);
    var ws := Windows(s, size, overlap, 0);
    WindowsAreChunking(s, size, overlap, 0);
    var i := SomeWindowCovers(s, size, overlap, 0, ws, p);
    k, lo, hi := ChunkHolds(s, ws, 0, i, p);
  }

  /** Gluing the windows of a text gives back the normalized text, and with it every
      non-space character of the original text in its original order. */
  lemma ChunkingLosesNothing(text: string, size: nat, overlap: nat)
    requires overlap < size && Normalize(text) != ""
    ensures var s := Normalize(text);
            var ws := Windows(s, size, overlap, 0);
            && (forall w :: w in ws ==> w.end <= |s|)
            && Glue(s, ws, 0) == s
            && NonSpace(Glue(s, ws, 0)) == NonSpace(text)
  {
    var s := Normalize(text);
    var ws := Windows(s, size, overlap, 0);
    WindowsAreChunking(s, size, overlap, 0);
    GlueRebuilds(s, size, overlap, 0, ws, 0);
    NormalizeKeepsText(text);
  }

  /** What is left of a text without the white space around it. */
  ghost predicate IsStripped(s: string, r: string) {
    exists lo: nat, hi: nat :: lo <= hi <= |s| && StrippedAt(s, r, lo, hi)
  }

  ghost predicate StrippedAt(s: string, r: string, lo: nat, hi: nat)
    requires lo <= hi <= |s|
  {
    && r == s[lo..hi] && Blank(s[..lo]) && Blank(s[hi..])
    && (lo < hi ==> !IsSpace(s[lo]) && !IsSpace(s[hi - 1]))
  }

  lemma ContentIsStripped(s: string, w: Window)
    requires w.start <= w.end <= |s|
    ensures IsStripped(s[w.start..w.end], Content(s, w))
    ensures Content(s, w) == "" <==> Blank(s[w.start..w.end])
  {
    var t := s[w.start..w.end];
    var lo, hi := StripIsSlice(t);
    assert StrippedAt(t, Content(s, w), lo, hi);
    if lo == hi {
      forall i | 0 <= i < |t| ensures IsSpace(t[i]) {
        assert i < lo ==> t[..lo][i] == t[i];
        assert i >= hi ==> t[hi..][i - hi] == t[i];
      }
    }
  }

  /** `from` lists, in order, the windows that hold more than white space; chunk `k` is window
      `from[k]`, stripped. */
  ghost predicate ComeFrom(s: string, ws: seq<Window>, contents: seq<string>, from: seq<nat>) {
    && |from| == |contents|
    && Increasing(from)
    && (forall k :: 0 <= k < |from| ==> from[k] < |ws| && IsChunkOf(s, ws[from[k]], contents[k]))
    && (forall i :: 0 <= i < |ws| ==> i in from || IsBlank(s, ws[i]))
  }

  ghost predicate Increasing(from: seq<nat>) {
    forall j, k :: 0 <= j < k < |from| ==> from[j] < from[k]
  }

  ghost predicate IsChunkOf(s: string, w: Window, content: string) {
    w.start <= w.end <= |s| && content != "" && IsStripped(s[w.start..w.end], content)
  }

  ghost predicate IsBlank(s: string, w: Window) {
    w.start <= w.end <= |s| && Blank(s[w.start..w.end])
  }

  function Contents(chunks: seq<TextChunk>): seq<string> {
    seq(|chunks|, k requires 0 <= k < |chunks| => chunks[k].content)
  }

  lemma ComeFromCons(s: string, w: Window, ws: seq<Window>, contents: seq<string>, from: seq<nat>) returns (all: seq<nat>)
    requires w.start <= w.end <= |s|
    requires ComeFrom(s, ws, contents, from)
    ensures Content(s, w) == "" ==> ComeFrom(s, [w] + ws, contents, all)
    ensures Content(s, w) != "" ==> ComeFrom(s, [w] + ws, [Content(s, w)] + contents, all)
  {
    BlankIfEmpty(s, w);
    hide Content, IsChunkOf, IsBlank, ComeFrom;
    var later := seq(|from|, k requires 0 <= k < |from| => from[k] + 1);
    if Content(s, w) == "" {
      all := later;
      SkipBlank(s, w, ws, contents, from, later);
    } else {
      all := [0] + later;
      PutFirst(s, w, ws, Content(s, w), contents, from, later);
    }
  }

  lemma SkipBlank(s: string, w: Window, ws: seq<Window>, contents: seq<string>, from: seq<nat>, later: seq<nat>)
    requires ComeFrom(s, ws, contents, from) && IsBlank(s, w)
    requires |later| == |from| && forall k :: 0 <= k < |from| ==> later[k] == from[k] + 1
    ensures ComeFrom(s, [w] + ws, contents, later)
  {
    LaterIncreases(from, later);
    hide IsChunkOf, IsBlank, Increasing;
    Shifted(s, w, ws, contents, from, later);
  }

  lemma LaterIncreases(from: seq<nat>, later: seq<nat>)
    requires Increasing(from)
    requires |later| == |from| && forall k :: 0 <= k < |from| ==> later[k] == from[k] + 1
    ensures Increasing(later) && Increasing([0] + later)
  {
    var all := [0] + later;
    assert forall k :: 0 < k < |all| ==> all[k] == later[k - 1];
  }

  lemma PutFirst(s: string, w: Window, ws: seq<Window>, content: string, contents: seq<string>,
                 from: seq<nat>, later: seq<nat>)
    requires ComeFrom(s, ws, contents, from) && IsChunkOf(s, w, content)
    requires |later| == |from| && forall k :: 0 <= k < |from| ==> later[k] == from[k] + 1
    ensures ComeFrom(s, [w] + ws, [content] + contents, [0] + later)
  {
    LaterIncreases(from, later);
    hide IsChunkOf, IsBlank, Increasing;
    Shifted(s, w, ws, contents, from, later);
    FirstChunks(s, w, ws, content, contents, later);
    FirstRest(s, w, ws, later);
  }

  lemma FirstChunks(s: string, w: Window, ws: seq<Window>, content: string, contents: seq<string>, later: seq<nat>)
    requires |later| == |contents| && IsChunkOf(s, w, content)
    requires forall k :: 0 <= k < |later| ==> later[k] < |ws| + 1 && IsChunkOf(s, ([w] + ws)[later[k]], contents[k])
    ensures forall k :: 0 <= k < |[0] + later| ==>
              ([0] + later)[k] < |ws| + 1 && IsChunkOf(s, ([w] + ws)[([0] + later)[k]], ([content] + contents)[k])
  {
    hide IsChunkOf;
    forall k | 0 < k < |[0] + later|
      ensures ([0] + later)[k] == later[k - 1] && ([content] + contents)[k] == contents[k - 1]
    {
    }
  }

  lemma FirstRest(s: string, w: Window, ws: seq<Window>, later: seq<nat>)
    requires forall i :: 0 < i < |ws| + 1 ==> i in later || IsBlank(s, ([w] + ws)[i])
    ensures forall i :: 0 <= i < |ws| + 1 ==> i in [0] + later || IsBlank(s, ([w] + ws)[i])
  {
    hide IsBlank;
    assert ([0] + later)[0] == 0;
    forall i | i in later ensures i in [0] + later {
      var k :| 0 <= k < |later| && later[k] == i;
      assert ([0] + later)[k + 1] == i;
    }
  }

  lemma BlankIfEmpty(s: string, w: Window)
    requires w.start <= w.end <= |s|
    ensures if Content(s, w) == "" then IsBlank(s, w) else IsChunkOf(s, w, Content(s, w))
  {
    ContentIsStripped(s, w);
  }

  lemma Shifted(s: string, w: Window, ws: seq<Window>, contents: seq<string>, from: seq<nat>, later: seq<nat>)
    requires ComeFrom(s, ws, contents, from)
    requires |later| == |from| && forall k :: 0 <= k < |from| ==> later[k] == from[k] + 1
    ensures forall k :: 0 <= k < |from| ==> later[k] < |ws| + 1 && IsChunkOf(s, ([w] + ws)[later[k]], contents[k])
    ensures forall i :: 0 < i < |ws| + 1 ==> i in later || IsBlank(s, ([w] + ws)[i])
  {
    hide IsChunkOf, IsBlank;
    var ws' := [w] + ws;
    forall i | 0 < i < |ws'| ensures i in later || IsBlank(s, ws'[i]) {
      assert ws'[i] == ws[i - 1];
      if i - 1 in from {
        var k :| 0 <= k < |from| && from[k] == i - 1;
        assert later[k] == i;
      }
    }
    forall k | 0 <= k < |from| ensures IsChunkOf(s, ws'[later[k]], contents[k]) {
      assert ws'[later[k]] == ws[from[k]];
    }
  }

  lemma {:induction false} ChunksComeFrom(s: string, ws: seq<Window>, ordinal: nat) returns (from: seq<nat>)
    requires forall w :: w in ws ==> w.start <= w.end <= |s|
    ensures ComeFrom(s, ws, Contents(ChunksOf(s, ws, ordinal)), from)
  {
    hide ChunksOf, Content, ComeFrom;
    if ws == [] {
      from := [];
      assert ComeFrom(s, ws, [], from) by { NothingComesFrom(s); }
      NoChunks(s, ordinal);
    } else {
      ChunksUnfold(s, ws, ordinal);
      var next := if Content(s, ws[0]) == "" then ordinal else ordinal + 1;
      from := ChunksComeFrom(s, ws[1..], next);
      from := ComeFromCons(s, ws[0], ws[1..], Contents(ChunksOf(s, ws[1..], next)), from);
      assert ws == [ws[0]] + ws[1..];
      assert Contents([TextChunk(ordinal, Content(s, ws[0]))] + ChunksOf(s, ws[1..], next))
          == [Content(s, ws[0])] + Contents(ChunksOf(s, ws[1..], next));
    }
  }

  lemma NoChunks(s: string, ordinal: nat)
    ensures ChunksOf(s, [], ordinal) == [] && Contents([]) == []
  {
  }

  lemma NothingComesFrom(s: string)
    ensures ComeFrom(s, [], [], [])
  {
  }

  /** The chunks of a text are its windows, each stripped, in order, without those that hold only
      white space. */
  lemma ChunksAreStrippedWindows(text: string, size: nat, overlap: nat) returns (ws: seq<Window>, from: seq<nat>)
    requires overlap < size
    ensures var s := Normalize(text);
            && (if s == "" then ws == [] else IsChunking(s, size, overlap, 0, ws))
            && (forall w :: w in ws ==> w.start <= w.end <= |s|)
            && ComeFrom(s, ws, Contents(TextChunks(text, size, overlap)), from)
  {
    var s := Normalize(text);
    ws, from := [], [];
    if s != "" {
      ws := Windows(s, size, overlap, 0);
      WindowsAreChunking(s, size, overlap, 0);
      hide IsChunking, ChunksOf, ComeFrom;
      from := ChunksComeFrom(s, ws, 0);
    }
  }

  /** `chunk_text` */
  method ChunkText(text: string, size: int, overlap: int)
    returns (r: Result<seq<TextChunk>, ChunkError>)
    ensures size <= 0 ==> r == Err(SizeNotPositive)
    ensures size > 0 && (overlap < 0 || overlap >= size) ==> r == Err(OverlapOutOfRange)
    ensures 0 <= overlap < size ==> r == Ok(TextChunks(text, size, overlap))
  {
    if size <= 0 {
      return Err(SizeNotPositive);
    }
    if overlap < 0 || overlap >= size {
      return Err(OverlapOutOfRange);
    }
    var s := Normalize(text);
    if s == "" {
      return Ok([]);
    }
    var chunks := ChunkNormalized(s, size, overlap);
    return Ok(chunks);
  }

  /** Where the window that starts at `start` is cut. */
  method ChooseEnd(s: string, size: nat, start: nat) returns (end: nat)
    requires 0 < size && start < |s|
    ensures end == WindowEnd(s, size, start)
  {
    end := Min(start + size, |s|);
    if end < |s| {
      var boundary := RFind(s, ' ', start + Max(size / 2, 1), end);
      if boundary > start {
        end := boundary;
      }
    }
  }

  /** The loop of `chunk_text`, over text whose white space is already normalized. */
  method ChunkNormalized(s: string, size: nat, overlap: nat) returns (chunks: seq<TextChunk>)
    requires overlap < size && s != ""
    ensures chunks == ChunksOf(s, Windows(s, size, overlap, 0), 0)
  {
    chunks := [];
    var start := 0;
    var ordinal := 0;
    ghost var total := Finish(s, size, overlap, 0, 0, []);
    while start < |s|
      invariant 0 <= start < |s| && 0 <= ordinal
      invariant Finish(s, size, overlap, start, ordinal, chunks) == total
      decreases |s| - start
    {
      var end := ChooseEnd(s, size, start);
      var content := Strip(s[start..end]);
      ghost var w := Window(start, end);
      FinishStep(s, size, overlap, w, ordinal, chunks, content);
      if content != "" {
        chunks := chunks + [TextChunk(ordinal, content)];
        ordinal := ordinal + 1;
      }
      assert end < |s| ==> Finish(s, size, overlap, NextStart(overlap, w), ordinal, chunks) == total;
      if end >= |s| {
        break;
      }
      start := Max(end - overlap, start + 1);
      assert start == NextStart(overlap, w);
      assert Finish(s, size, overlap, start, ordinal, chunks) == total;
    }
    FinishIsChunks(s, size, overlap, 0, 0, []);
  }

  /** What the loop still returns when it stands at `start` with `chunks` collected. */
  ghost function Finish(
      s: string, size: nat, overlap: nat, start: nat, ordinal: nat, chunks: seq<TextChunk>)
      : seq<TextChunk>
    requires overlap < size && start < |s|
    decreases |s| - start
  {
    var w := Window(start, WindowEnd(s, size, start));
    var content := Content(s, w);
    var chunks' := if content == "" then chunks else chunks + [TextChunk(ordinal, content)];
    var ordinal' := if content == "" then ordinal else ordinal + 1;
    if w.end >= |s| then chunks'
    else Finish(s, size, overlap, NextStart(overlap, w), ordinal', chunks')
  }

  lemma FinishStep(
      s: string, size: nat, overlap: nat, w: Window, ordinal: nat, chunks: seq<TextChunk>,
      content: string)
    requires overlap < size && w.start < |s|
    requires w.end == WindowEnd(s, size, w.start) && content == Strip(s[w.start..w.end])
    ensures content == "" && w.end >= |s| ==>
              Finish(s, size, overlap, w.start, ordinal, chunks) == chunks
    ensures content == "" && w.end < |s| ==>
              Finish(s, size, overlap, w.start, ordinal, chunks) ==
              Finish(s, size, overlap, NextStart(overlap, w), ordinal, chunks)
    ensures content != "" && w.end >= |s| ==>
              Finish(s, size, overlap, w.start, ordinal, chunks) ==
              chunks + [TextChunk(ordinal, content)]
    ensures content != "" && w.end < |s| ==>
              Finish(s, size, overlap, w.start, ordinal, chunks) ==
              Finish(s, size, overlap, NextStart(overlap, w), ordinal + 1,
                     chunks + [TextChunk(ordinal, content)])
  {
  }

  lemma {:induction false} FinishIsChunks(
      s: string, size: nat, overlap: nat, start: nat, ordinal: nat, chunks: seq<TextChunk>)
    requires overlap < size && start < |s|
    ensures Finish(s, size, overlap, start, ordinal, chunks) ==
            chunks + ChunksOf(s, Windows(s, size, overlap, start), ordinal)
    decreases |s| - start
  {
    var w := Window(start, WindowEnd(s, size, start));
    var content := Content(s, w);
    WindowsUnfold(s, size, overlap, start);
    FinishStep(s, size, overlap, w, ordinal, chunks, content);
    var ordinal' := if content == "" then ordinal else ordinal + 1;
    var chunks' := if content == "" then chunks else chunks + [TextChunk(ordinal, content)];
    var rest := [];
    if w.end < |s| {
      rest := Windows(s, size, overlap, NextStart(overlap, w));
      FinishIsChunks(s, size, overlap, NextStart(overlap, w), ordinal', chunks');
    }
    ChunksCons(s, w, rest, ordinal, chunks);
  }

  lemma ChunksCons(s: string, w: Window, rest: seq<Window>, ordinal: nat, chunks: seq<TextChunk>)
    requires w.start <= w.end <= |s| && forall v :: v in rest ==> v.start <= v.end <= |s|
    ensures var content := Content(s, w);
            chunks + ChunksOf(s, [w] + rest, ordinal) ==
            if content == "" then chunks + ChunksOf(s, rest, ordinal)
            else chunks + [TextChunk(ordinal, content)] + ChunksOf(s, rest, ordinal + 1)
    ensures rest == [] ==> ChunksOf(s, rest, ordinal) == [] && ChunksOf(s, rest, ordinal + 1) == []
  {
    assert ([w] + rest)[1..] == rest;
  }
}
