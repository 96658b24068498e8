/** `chunk_text` (backend/app/utils/rag_ingest.py): a text cut into fixed-width windows
    that advance by `chunk_size - overlap`, white-space-only windows dropped. */
module RagIngest {
  import opened Text
  import opened Selection

  /** `text[start:start + size]`, the slice the chunker takes its windows with: Python
      clips it at the end of the text, and with a negative `size` an end below zero
      counts from the end of the text, while an end at or below `start` gives nothing. */
  function Window(text: string, start: nat, size: int): (w: string)
    requires start <= |text|
    ensures 0 <= size ==> |w| <= size
  {
    if 0 <= size then
      if start + size <= |text| then text[start..start + size] else text[start..]
    else if start + size < 0 && start < start + size + |text| then text[start..start + size + |text|]
    else []
  }

  /** The windows from `start` on, one per value `start` takes while it is below the
      length. */
  function WindowsFrom(text: string, size: int, step: nat, start: nat): seq<string>
    requires step > 0
    decreases |text| - start
  {
    if start >= |text| then [] else [Window(text, start, size)] + WindowsFrom(text, size, step, start + step)
  }

  function Windows(text: string, size: int, step: nat): seq<string>
    requires step > 0
  {
    WindowsFrom(text, size, step, 0)
  }

  /** The windows of `ws` that are not white space only, in order. */
  function Kept(ws: seq<string>): seq<string> {
    if ws == [] then []
    else
      var w := ws[|ws| - 1];
      Kept(ws[..|ws| - 1]) + (if AllSpace(w) then [] else [w])
  }

  /** The list `chunk_text(text, chunk_size, overlap)` returns. */
  function Chunks(text: string, chunkSize: int, overlap: int): seq<string>
    requires overlap < chunkSize
  {
    Kept(Windows(text, chunkSize, chunkSize - overlap))
  }

  /** The k-th window starts at `k * step`, and there are windows exactly for the `k`
      with `k * step` below the length. */
  lemma {:induction false} WindowsFromAt(text: string, size: int, step: nat, start: nat, k: nat)
    requires step > 0
    ensures var ws := WindowsFrom(text, size, step, start);
            (k < |ws| <==> start + k * step < |text|)
            && (k < |ws| ==> ws[k] == Window(text, start + k * step, size))
    decreases k
  {
    if k > 0 && start < |text| {
      WindowsFromAt(text, size, step, start + step, k - 1);
      assert start + step + (k - 1) * step == start + k * step;
    }
  }

  lemma {:induction false} WindowAt(text: string, size: int, step: nat, k: nat)
    requires step > 0
    ensures var ws := Windows(text, size, step);
            (k < |ws| <==> k * step < |text|) && (k < |ws| ==> ws[k] == Window(text, k * step, size))
  {
    WindowsFromAt(text, size, step, 0, k);
  }

  /** `not chunk.strip()`: the window holds nothing but white space. */
  method IsBlank(chunk: string) returns (blank: bool)
    ensures blank <==> AllSpace(chunk)
  {
    blank := Strip(chunk) == [];
    StripEmptyIff(chunk);
  }

  /** `chunk_text(text, chunk_size, overlap)`. On a non-empty text the loop stops only
      when `chunk_size > overlap`, so that is required there; an empty text gives no
      chunks whatever the parameters. */
  method ChunkText(text: string, chunkSize: int, overlap: int) returns (chunks: seq<string>)
    requires text == [] || overlap < chunkSize
    ensures text == [] ==> chunks == []
    ensures text != [] ==> chunks == Chunks(text, chunkSize, overlap)
  {
    ghost var step: nat := if text == [] then 1 else chunkSize - overlap;
    ghost var done: seq<string> := [];
    chunks := [];
    var start: nat := 0;
    while start < |text|
      invariant text == [] ==> chunks == []
      invariant text != [] ==> Windows(text, chunkSize, step) == done + WindowsFrom(text, chunkSize, step, start)
      invariant text != [] ==> chunks == Kept(done)
      decreases |text| - start
    {
      var chunk := Window(text, start, chunkSize);
      var blank := IsBlank(chunk);
      if !blank {
        chunks := chunks + [chunk];
      }
      KeptSnoc(done, chunk);
      done := done + [chunk];
      start := start + (chunkSize - overlap);
    }
    assert done + [] == done;
  }

  /** The value `start` holds after `k` turns of the loop of `chunk_text`, whatever the
      parameters. */
  function StartAfter(k: nat, chunkSize: int, overlap: int): int {
    if k == 0 then 0 else StartAfter(k - 1, chunkSize, overlap) + (chunkSize - overlap)
  }

  /** As written, `chunk_text` on a non-empty text with `chunk_size <= overlap` never
      leaves its loop: `start` never grows, so `start < len(text)` holds after every
      turn. `ChunkText` requires `overlap < chunkSize` for a non-empty text instead. */
  lemma {:induction false} StuckWithoutStep(text: string, chunkSize: int, overlap: int, k: nat)
    requires text != [] && chunkSize <= overlap
    ensures StartAfter(k, chunkSize, overlap) <= 0 < |text|
  {
    if k > 0 {
      StuckWithoutStep(text, chunkSize, overlap, k - 1);
    }
  }

  /** Keeping after one more window keeps what was kept and that window unless it is
      blank. */
  lemma {:induction false} KeptSnoc(ws: seq<string>, w: string)
    ensures Kept(ws + [w]) == Kept(ws) + if AllSpace(w) then [] else [w]
  {
    assert (ws + [w])[..|ws|] == ws;
  }

  // ------------------------------------------------------------ what the chunker promises

  /** Which windows are kept. */
  function NonBlank(ws: seq<string>): (flags: seq<bool>)
    ensures |flags| == |ws|
  {
    seq(|ws|, k requires 0 <= k < |ws| => !AllSpace(ws[k]))
  }

  /** The kept windows are the ones that are not white space only, in order. */
  lemma {:induction false} KeptPositions(ws: seq<string>)
    ensures var p, out := Positions(NonBlank(ws)), Kept(ws);
            |out| == |p| && forall a :: 0 <= a < |p| ==> p[a] < |ws| && out[a] == ws[p[a]]
  {
    if ws != [] {
      var n := |ws|;
      var init := ws[..n - 1];
      KeptPositions(init);
      assert NonBlank(ws)[..n - 1] == NonBlank(init);
      var p, out := Positions(NonBlank(ws)), Kept(ws);
      var p', out' := Positions(NonBlank(init)), Kept(init);
      assert p == p' + (if !AllSpace(ws[n - 1]) then [n - 1] else []);
      forall a | 0 <= a < |p| ensures p[a] < |ws| && out[a] == ws[p[a]] {
        if a < |p'| {
          assert p[a] == p'[a] && out[a] == out'[a];
          assert init[p'[a]] == ws[p'[a]];
        }
      }
    }
  }

  /** The chunks are, in order, exactly the windows that are not white space only, each
      at most `chunk_size` long; `WindowAt` says where each window starts. */
  lemma {:induction false} ChunksAreWindows(text: string, chunkSize: nat, overlap: int)
    requires overlap < chunkSize
    ensures var ws, out := Windows(text, chunkSize, chunkSize - overlap), Chunks(text, chunkSize, overlap);
            var p := Positions(NonBlank(ws));
            |out| == |p|
            && (forall a :: 0 <= a < |p| ==>
                  p[a] < |ws| && out[a] == ws[p[a]] && !AllSpace(out[a]) && |out[a]| <= chunkSize)
            && (forall a, b :: 0 <= a < b < |p| ==> p[a] < p[b])
            && (forall k :: 0 <= k < |ws| && !AllSpace(ws[k]) ==> k in p)
  {
    var step, ws := chunkSize - overlap, Windows(text, chunkSize, chunkSize - overlap);
    KeptPositions(ws);
    PositionsSpec(NonBlank(ws));
    var p := Positions(NonBlank(ws));
    forall a | 0 <= a < |p| ensures !AllSpace(ws[p[a]]) && |ws[p[a]]| <= chunkSize {
      WindowAt(text, chunkSize, step, p[a]);
      assert NonBlank(ws)[p[a]];
    }
  }

  /** Empty text gives no chunks. */
  lemma {:induction false} EmptyText(chunkSize: nat, overlap: int)
    requires overlap < chunkSize
    ensures Chunks([], chunkSize, overlap) == []
  {
  }

  /** Two consecutive windows, the first of full width, share exactly `overlap`
      characters: the last `overlap` of the first are the first `overlap` of the second. */
  lemma {:induction false} ConsecutiveOverlap(text: string, chunkSize: nat, overlap: nat, k: nat)
    requires overlap < chunkSize
    requires k + 1 < |Windows(text, chunkSize, chunkSize - overlap)|
    requires k * (chunkSize - overlap) + chunkSize <= |text|
    ensures var ws := Windows(text, chunkSize, chunkSize - overlap);
            |ws[k]| == chunkSize && |ws[k + 1]| >= overlap
            && ws[k][chunkSize - overlap..] == ws[k + 1][..overlap]
  {
    var step := chunkSize - overlap;
    var s := k * step;
    NextStart(k, step);
    WindowAt(text, chunkSize, step, k);
    WindowAt(text, chunkSize, step, k + 1);
    WindowShift(text, s, chunkSize, step);
  }

  lemma {:induction false} NextStart(k: nat, step: nat)
    ensures (k + 1) * step == k * step + step
  {
  }

  /** The window at `s + step` begins with what the full window at `s` has after its
      first `step` characters. */
  lemma {:induction false} WindowShift(text: string, s: nat, size: nat, step: nat)
    requires step <= size && s + size <= |text|
    ensures |Window(text, s, size)| == size && |Window(text, s + step, size)| >= size - step
            && Window(text, s, size)[step..] == Window(text, s + step, size)[..size - step]
  {
    assert Window(text, s, size) == text[s..s + size];
  }

  /** With a non-negative overlap the windows cover the text: every position lies in the
      window that starts at the last multiple of the step before it. */
  lemma {:induction false} Coverage(text: string, chunkSize: nat, overlap: nat, i: nat)
    requires overlap < chunkSize && i < |text|
    ensures var step, ws := chunkSize - overlap, Windows(text, chunkSize, chunkSize - overlap);
            exists k :: 0 <= k < |ws| && k * step <= i < k * step + |ws[k]|
  {
    var step := chunkSize - overlap;
    var k := i / step;
    DivBounds(i, step);
    WindowCovers(text, chunkSize, step, k, i);
  }

  /** Window `k` covers every position from its start up to `step` past it. */
  lemma {:induction false} WindowCovers(text: string, size: nat, step: nat, k: nat, i: nat)
    requires 0 < step <= size && k * step <= i < k * step + step && i < |text|
    ensures var ws := Windows(text, size, step); k < |ws| && k * step <= i < k * step + |ws[k]|
  {
    WindowAt(text, size, step, k);
  }

  lemma {:induction false} DivBounds(i: nat, step: nat)
    requires step > 0
    ensures (i / step) * step <= i < (i / step) * step + step
  {
  }
}
