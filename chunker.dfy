/**
 * `chunk_text`: split a document into overlapping windows of at most
 * `chunkSize` characters, snapping a window that is not the last one back
 * to just after its last period when that period lies past 80% of the
 * window, and emitting each window stripped of surrounding whitespace.
 */
module Chunker {
  import opened PyStr

  const DefaultChunkSize := 1000
  const DefaultOverlap := 200

  /**
   * The configurations under which the loop terminates. The source has no
   * guard. A full window is `chunkSize` wide and a snapped one at least
   * `4 * chunkSize / 5 + 2`, so for a non-negative `overlap` every window
   * that is not the last is wider than `overlap` exactly when these bounds
   * hold: `ProgressUnderGuard` shows they suffice; `NoProgressWithoutGuard`
   * (`overlap >= chunkSize`) and `GuardIsTight` (a smaller `overlap` past
   * the bound) give texts on which the loop never reaches the end. A
   * negative `overlap` also ends the loop, but leaves gaps between the
   * chunks; it is outside the model. The defaults 1000/200 satisfy the bounds.
   */
  predicate ValidConfig(chunkSize: int, overlap: int) {
    0 < chunkSize && 0 <= overlap < chunkSize && 5 * overlap <= 4 * chunkSize + 5
  }

  /** A window `text[start..end]` the loop cut, before stripping. */
  datatype Window = Window(start: nat, end: nat)

  /**
   * The loop's `end` for a window opening at `start`: `start + chunkSize`,
   * or, when that is short of the text's end and the window's last `.` sits
   * at an offset `p` with `p > 0.8 * chunkSize` (compared exactly, as
   * `5 * p > 4 * chunkSize`), just after that period. It may pass `|text|`,
   * as the Python slice clamps. The period is searched for in `text` itself
   * (`RFindIn`); `CutWindow` searches the slice, as the loop does, and
   * `RFindSlice` relates the two.
   */
  function WindowEnd(text: string, start: nat, chunkSize: nat): (end: nat)
    requires start < |text| && 0 < chunkSize
    ensures start < end <= start + chunkSize
    ensures end < start + chunkSize ==> 5 * (end - 1 - start) > 4 * chunkSize
  {
    var end := start + chunkSize;
    if end < |text| then
      var period := RFindIn(text, '.', start, end);
      if period >= 0 && 5 * (period - start) > 4 * chunkSize then period + 1 else end
    else end
  }

  /**
   * The sentence-boundary snap: the last window is never snapped; a snapped
   * window ends with the last period of the full-width window, which lies
   * past 80% of it; a window left at full width has no period past 80% of
   * it other than possibly its last character.
   */
  lemma WindowEndSnap(text: string, start: nat, chunkSize: nat)
    requires start < |text| && 0 < chunkSize
    ensures var end := WindowEnd(text, start, chunkSize);
      && (start + chunkSize >= |text| ==> end == start + chunkSize)
      && (start + chunkSize < |text| && end < start + chunkSize ==>
            text[end - 1] == '.' && 5 * (end - 1 - start) > 4 * chunkSize
            && forall k :: end <= k < start + chunkSize ==> text[k] != '.')
      && (start + chunkSize < |text| && end == start + chunkSize ==>
            text[end - 1] == '.'
            || forall k :: start <= k < start + chunkSize && 5 * (k - start) > 4 * chunkSize ==> text[k] != '.')
  {
    var full := start + chunkSize;
    if full < |text| {
      RFindInIsLast(text, '.', start, full);
    }
  }

  /**
   * The loop's next `start`: `end - overlap`, or `|text|` once a window
   * reached the end; it reaches the end exactly when the window did.
   */
  function NextStart(text: string, start: nat, chunkSize: nat, overlap: nat): (next: int)
    requires start < |text| && 0 < chunkSize
    ensures next <= |text|
    ensures next == |text| <==> WindowEnd(text, start, chunkSize) >= |text|
    ensures next < |text| ==> next == WindowEnd(text, start, chunkSize) - overlap
  {
    var end := WindowEnd(text, start, chunkSize);
    if end < |text| then end - overlap else |text|
  }

  /** Every window of `ws` is non-empty and lies inside `text`. */
  predicate InText(text: string, ws: seq<Window>) {
    forall i :: 0 <= i < |ws| ==> ws[i].start < ws[i].end <= |text|
  }

  /** The windows the loop cuts from `start` on, in order, with their ends clamped to `|text|`. */
  function Windows(text: string, chunkSize: int, overlap: int, start: nat): (ws: seq<Window>)
    requires ValidConfig(chunkSize, overlap) && start <= |text|
    ensures InText(text, ws)
    decreases |text| - start
  {
    if start == |text| then []
    else
      var end := WindowEnd(text, start, chunkSize);
      if end < |text| then
        assert NextStart(text, start, chunkSize, overlap) > start;
        [Window(start, end)] + Windows(text, chunkSize, overlap, NextStart(text, start, chunkSize, overlap))
      else [Window(start, |text|)]
  }

  /** Each window of `ws`, cut from `text` and stripped, in order. */
  function StripAll(text: string, ws: seq<Window>): (chunks: seq<string>)
    requires InText(text, ws)
    ensures |chunks| == |ws|
  {
    if ws == [] then []
    else StripAll(text, ws[..|ws| - 1]) + [Strip(text[ws[|ws| - 1].start..ws[|ws| - 1].end])]
  }

  /** The `i`-th chunk is the `i`-th window, stripped. */
  lemma {:induction false} StripAllAt(text: string, ws: seq<Window>, i: nat)
    requires InText(text, ws)
    requires i < |ws|
    ensures StripAll(text, ws)[i] == Strip(text[ws[i].start..ws[i].end])
  {
    if i < |ws| - 1 {
      StripAllAt(text, ws[..|ws| - 1], i);
    }
  }

  /** The chunks `chunk_text(text, chunkSize, overlap)` returns: each window, stripped. */
  function Chunks(text: string, chunkSize: int, overlap: int): (chunks: seq<string>)
    requires ValidConfig(chunkSize, overlap)
    ensures |chunks| == |Windows(text, chunkSize, overlap, 0)|
  {
    StripAll(text, Windows(text, chunkSize, overlap, 0))
  }

  /**
   * The `i`-th window and the loop turn that cuts it: it starts where the
   * previous turn left `start`, ends at `WindowEnd` clamped to the text, and
   * is the last window exactly when `WindowEnd` reaches the end of the text.
   */
  predicate LoopTurn(text: string, chunkSize: int, overlap: int, ws: seq<Window>, i: nat)
    requires 0 < chunkSize && i < |ws| && ws[i].start < |text|
  {
    var end := WindowEnd(text, ws[i].start, chunkSize);
    && ws[i].end == (if end < |text| then end else |text|)
    && (end < |text| ==> i + 1 < |ws| && ws[i + 1].start == end - overlap)
    && (end >= |text| ==> i + 1 == |ws|)
  }

  /** Every window is cut by a loop turn as `LoopTurn` describes it. */
  lemma {:induction false} WindowAt(text: string, chunkSize: int, overlap: int, start: nat, i: nat)
    requires ValidConfig(chunkSize, overlap) && start <= |text|
    requires i < |Windows(text, chunkSize, overlap, start)|
    ensures LoopTurn(text, chunkSize, overlap, Windows(text, chunkSize, overlap, start), i)
    decreases i
  {
    var ws := Windows(text, chunkSize, overlap, start);
    var end := WindowEnd(text, start, chunkSize);
    if end < |text| {
      var next := NextStart(text, start, chunkSize, overlap);
      var rest := Windows(text, chunkSize, overlap, next);
      assert ws == [Window(start, end)] + rest;
      if i == 0 {
        WindowsEnds(text, chunkSize, overlap, next);
      } else {
        WindowAt(text, chunkSize, overlap, next, i - 1);
        assert ws[i] == rest[i - 1];
        if i < |rest| {
          assert ws[i + 1] == rest[i];
        }
      }
    }
  }

  /** A turn of the loop moves `start` forward, to where the next window opens, or to the end after the last one. */
  lemma LoopAdvance(text: string, chunkSize: int, overlap: int, ws: seq<Window>, n: nat, start: nat, end: nat, next: int)
    requires ValidConfig(chunkSize, overlap) && ws == Windows(text, chunkSize, overlap, 0)
    requires n < |ws| && ws[n].start == start && start < |text|
    requires end == WindowEnd(text, start, chunkSize)
    requires next == if end < |text| then end - overlap else |text|
    ensures start < next <= |text|
    ensures next < |text| <==> n + 1 < |ws|
    ensures n + 1 < |ws| ==> ws[n + 1].start == next
  {
    WindowAt(text, chunkSize, overlap, 0, n);
  }

  /** A turn of the loop appends the stripped text of the window it cuts. */
  lemma LoopStep(text: string, chunkSize: int, overlap: int, ws: seq<Window>, chunks: seq<string>,
                 start: nat, end: nat, chunk: string)
    requires ValidConfig(chunkSize, overlap) && ws == Windows(text, chunkSize, overlap, 0)
    requires |chunks| < |ws| && ws[|chunks|].start == start && start < |text|
    requires chunks == StripAll(text, ws[..|chunks|])
    requires end == WindowEnd(text, start, chunkSize) && chunk == text[start..if end < |text| then end else |text|]
    ensures chunks + [Strip(chunk)] == StripAll(text, ws[..|chunks| + 1])
  {
    WindowAt(text, chunkSize, overlap, 0, |chunks|);
    StripAllSnoc(text, ws, |chunks|);
  }

  /** Cutting one more window appends its stripped text. */
  lemma StripAllSnoc(text: string, ws: seq<Window>, n: nat)
    requires InText(text, ws) && n < |ws|
    ensures StripAll(text, ws[..n + 1]) == StripAll(text, ws[..n]) + [Strip(text[ws[n].start..ws[n].end])]
  {
    assert ws[..n + 1][..n] == ws[..n];
  }

  /** One turn of the loop up to the append: the window's `end`, snapped or not, and its slice. */
  method CutWindow(text: string, start: nat, chunkSize: int) returns (end: nat, chunk: string)
    requires start < |text| && 0 < chunkSize
    ensures end == WindowEnd(text, start, chunkSize)
    ensures chunk == text[start..if end < |text| then end else |text|]
  {
    var textLength := |text|;
    end := start + chunkSize;
    chunk := text[start..if end < textLength then end else textLength];
    if end < textLength {
      var lastPeriod := RFind(chunk, '.');
      RFindSlice(text, '.', start, end);
      if 5 * lastPeriod > 4 * chunkSize {
        end := start + lastPeriod + 1;
        chunk := text[start..end];
      }
    }
  }

  /** `chunk_text`: the source's while loop, proved to return `Chunks`. */
  method ChunkText(text: string, chunkSize: int, overlap: int) returns (chunks: seq<string>)
    requires ValidConfig(chunkSize, overlap)
    ensures chunks == Chunks(text, chunkSize, overlap)
    ensures chunks == [] <==> text == []
    ensures forall i :: 0 <= i < |chunks| ==> |chunks[i]| <= chunkSize
  {
    chunks := [];
    var start := 0;
    var textLength := |text|;
    ghost var ws := Windows(text, chunkSize, overlap, 0);
    WindowsEnds(text, chunkSize, overlap, 0);
    while start < textLength
      invariant 0 <= start <= textLength && |chunks| <= |ws|
      invariant start < textLength <==> |chunks| < |ws|
      invariant |chunks| < |ws| ==> ws[|chunks|].start == start
      invariant chunks == StripAll(text, ws[..|chunks|])
      decreases textLength - start
    {
      var end, chunk := CutWindow(text, start, chunkSize);
      var next := if end < textLength then end - overlap else textLength;
      LoopAdvance(text, chunkSize, overlap, ws, |chunks|, start, end, next);
      LoopStep(text, chunkSize, overlap, ws, chunks, start, end, chunk);
      chunks := chunks + [Strip(chunk)];
      start := next;
    }
    assert ws[..|chunks|] == ws;
    assert chunks == Chunks(text, chunkSize, overlap);
    ChunkCount(text, chunkSize, overlap);
    ChunkLength(text, chunkSize, overlap);
  }

  /** The first window opens at `start`; the windows from `start` are empty exactly when `start` is the end. */
  lemma {:induction false} WindowsEnds(text: string, chunkSize: int, overlap: int, start: nat)
    requires ValidConfig(chunkSize, overlap) && start <= |text|
    ensures var ws := Windows(text, chunkSize, overlap, start);
      (ws == [] <==> start == |text|)
      && (ws != [] ==> ws[0].start == start && ws[|ws| - 1].end == |text|)
    decreases |text| - start
  {
    if start < |text| {
      var end := WindowEnd(text, start, chunkSize);
      if end < |text| {
        WindowsEnds(text, chunkSize, overlap, NextStart(text, start, chunkSize, overlap));
      }
    }
  }

  /** Each window of `ws` but the last ends inside the text, and the next one opens `overlap` before that end. */
  predicate Linked(text: string, overlap: int, ws: seq<Window>) {
    forall i :: 0 <= i < |ws| - 1 ==> ws[i].end < |text| && ws[i + 1].start == ws[i].end - overlap
  }

  /**
   * Every window is non-empty, lies inside the text and is at most
   * `chunkSize` wide; a window that is not the last ends before the text
   * does and is followed by one opening `overlap` characters before its end.
   */
  lemma WindowsLinked(text: string, chunkSize: int, overlap: int, start: nat)
    requires ValidConfig(chunkSize, overlap) && start <= |text|
    ensures Linked(text, overlap, Windows(text, chunkSize, overlap, start))
  {
    var ws := Windows(text, chunkSize, overlap, start);
    forall i | 0 <= i < |ws| - 1
      ensures ws[i].end < |text| && ws[i + 1].start == ws[i].end - overlap
    {
      WindowAt(text, chunkSize, overlap, start, i);
    }
  }

  /**
   * A window as the loop leaves it when more text follows: a full
   * `chunkSize` wide, or snapped to end with a period that lies past 80% of it.
   */
  predicate FullOrSnapped(text: string, chunkSize: int, w: Window) {
    w.end - w.start == chunkSize
    || (0 < w.end <= |text| && text[w.end - 1] == '.' && 5 * (w.end - 1 - w.start) > 4 * chunkSize)
  }

  /** Each window of `ws` but the last is full or snapped. */
  predicate SnappedBeforeLast(text: string, chunkSize: int, ws: seq<Window>) {
    forall i :: 0 <= i < |ws| - 1 ==> FullOrSnapped(text, chunkSize, ws[i])
  }

  /** Each window that is not the last is either a full `chunkSize` wide or snapped at a period. */
  lemma WindowsSnap(text: string, chunkSize: int, overlap: int, start: nat)
    requires ValidConfig(chunkSize, overlap) && start <= |text|
    ensures SnappedBeforeLast(text, chunkSize, Windows(text, chunkSize, overlap, start))
  {
    var ws := Windows(text, chunkSize, overlap, start);
    forall i | 0 <= i < |ws| - 1
      ensures FullOrSnapped(text, chunkSize, ws[i])
    {
      WindowAt(text, chunkSize, overlap, start, i);
      WindowEndSnap(text, ws[i].start, chunkSize);
    }
  }

  /** Some window of `ws` holds the character at `k`. */
  predicate Covered(ws: seq<Window>, k: nat) {
    exists i :: 0 <= i < |ws| && ws[i].start <= k < ws[i].end
  }

  /** The windows leave no gap: every character from `start` on lies in one of them. */
  lemma {:induction false} WindowsCover(text: string, chunkSize: int, overlap: int, start: nat, k: nat)
    requires ValidConfig(chunkSize, overlap) && start <= k < |text|
    ensures Covered(Windows(text, chunkSize, overlap, start), k)
    decreases |text| - start
  {
    var ws := Windows(text, chunkSize, overlap, start);
    var end := WindowEnd(text, start, chunkSize);
    if end < |text| {
      var next := NextStart(text, start, chunkSize, overlap);
      var rest := Windows(text, chunkSize, overlap, next);
      assert ws == [Window(start, end)] + rest;
      if end <= k {
        WindowsCover(text, chunkSize, overlap, next, k);
        var j :| 0 <= j < |rest| && rest[j].start <= k < rest[j].end;
        assert ws[j + 1] == rest[j];
      } else {
        assert ws[0].start <= k < ws[0].end;
      }
    } else {
      assert ws == [Window(start, |text|)];
      assert ws[0].start <= k < ws[0].end;
    }
  }

  /** Empty text gives no chunk, any other text at least one. */
  lemma ChunkCount(text: string, chunkSize: int, overlap: int)
    requires ValidConfig(chunkSize, overlap)
    ensures Chunks(text, chunkSize, overlap) == [] <==> text == []
  {
    WindowsEnds(text, chunkSize, overlap, 0);
  }

  /** No window is wider than `chunkSize`: the chunks before stripping. */
  lemma WindowsNarrow(text: string, chunkSize: int, overlap: int)
    requires ValidConfig(chunkSize, overlap)
    ensures forall i :: 0 <= i < |Windows(text, chunkSize, overlap, 0)| ==>
      Windows(text, chunkSize, overlap, 0)[i].end - Windows(text, chunkSize, overlap, 0)[i].start <= chunkSize
  {
    var ws := Windows(text, chunkSize, overlap, 0);
    forall i | 0 <= i < |ws|
      ensures ws[i].end - ws[i].start <= chunkSize
    {
      WindowAt(text, chunkSize, overlap, 0, i);
    }
  }

  /** No chunk is wider than `chunkSize` after stripping, since no window is (`WindowsNarrow`). */
  lemma ChunkLength(text: string, chunkSize: int, overlap: int)
    requires ValidConfig(chunkSize, overlap)
    ensures forall i :: 0 <= i < |Chunks(text, chunkSize, overlap)| ==> |Chunks(text, chunkSize, overlap)[i]| <= chunkSize
  {
    var ws := Windows(text, chunkSize, overlap, 0);
    var chunks := Chunks(text, chunkSize, overlap);
    WindowsNarrow(text, chunkSize, overlap);
    forall i | 0 <= i < |chunks|
      ensures |chunks[i]| <= chunkSize
    {
      StripAllAt(text, ws, i);
    }
  }

  /**
   * Without the guard the loop can stall: when `overlap >= chunkSize`, a
   * window that is not the last leaves the next `start` at or before the
   * current one. A start that becomes negative does not rescue the loop:
   * Python counts it from the end of the text, but `end` is still at most
   * `start + chunkSize`, so `start` never grows and `end` never reaches
   * the end of the text.
   */
  lemma NoProgressWithoutGuard(text: string, start: nat, chunkSize: nat, overlap: nat)
    requires 0 < chunkSize <= overlap && start + chunkSize < |text|
    ensures NextStart(text, start, chunkSize, overlap) <= start
  {
  }

  /** Under the guard, every window that is not the last moves `start` forward. */
  lemma ProgressUnderGuard(text: string, start: nat, chunkSize: int, overlap: int)
    requires ValidConfig(chunkSize, overlap) && start < |text|
    ensures NextStart(text, start, chunkSize, overlap) > start
  {
  }

  /** A text of `n` letters, with a period at offset `p` when `p < n`. */
  function PeriodAt(n: nat, p: nat): (text: string)
    ensures |text| == n
    ensures forall k :: 0 <= k < n ==> (text[k] == '.' <==> k == p)
  {
    seq(n, k => if k == p then '.' else 'a')
  }

  /**
   * The other half of the guard: when `overlap` is below `chunkSize` but
   * past `4 * chunkSize / 5 + 1`, a text whose only period sits at offset
   * `overlap - 1` snaps its first window to `overlap` characters, and the
   * next start is 0 again. The loop then cuts that same window forever.
   * With `chunkSize` 20 and `overlap` 18, the period sits at offset 17.
   */
  lemma GuardIsTight(chunkSize: nat, overlap: nat)
    requires 0 < overlap < chunkSize && 5 * overlap > 4 * chunkSize + 5
    ensures chunkSize < |PeriodAt(chunkSize + 1, overlap - 1)|
    ensures NextStart(PeriodAt(chunkSize + 1, overlap - 1), 0, chunkSize, overlap) == 0
  {
    var text := PeriodAt(chunkSize + 1, overlap - 1);
    RFindInIsLast(text, '.', 0, chunkSize);
    assert text[overlap - 1] == '.';
    assert RFindIn(text, '.', 0, chunkSize) == overlap - 1;
  }
}
