/**
 * The contract-text chunker: a sliding window of `chunkSize` characters that
 * breaks at the last space or newline inside the window, steps back by
 * `chunkOverlap` characters for the next window, and drops chunks that trim
 * to nothing.
 *
 * The source loop does not always terminate, so the model runs it with a
 * step budget (`fuel`). `Windows` is the trajectory of the loop as a
 * function; `ChunkText` is the loop itself, proved to compute it.
 */
module Chunking {
  import opened Js

  const DefaultChunkSize: nat := 1000
  const DefaultChunkOverlap: nat := 200

  /** Characters the window may break at. */
  predicate IsBreakChar(c: char) { c == ' ' || c == '\n' }

  /** A slice `text[start..end]` taken by one iteration of the loop. */
  datatype Slice = Slice(start: nat, end: nat)

  /** Every slice lies inside the text. */
  predicate AllInText(text: string, ws: seq<Slice>) {
    forall i :: 0 <= i < |ws| ==> ws[i].start <= ws[i].end <= |text|
  }

  /** The last index at or before `from` holding a space or a newline, or -1. */
  function LastBreak(text: string, from: int): (r: int)
    requires -1 <= from < |text|
    ensures -1 <= r <= from
    decreases from + 1
  {
    if from < 0 then -1
    else if IsBreakChar(text[from]) then from
    else LastBreak(text, from - 1)
  }

  /** `LastBreak` finds a break character, and the last one. */
  lemma {:induction false} LastBreakLast(text: string, from: int)
    requires -1 <= from < |text|
    ensures LastBreak(text, from) >= 0 ==> IsBreakChar(text[LastBreak(text, from)])
    ensures forall k :: LastBreak(text, from) < k <= from ==> !IsBreakChar(text[k])
    decreases from + 1
  {
    if from >= 0 && !IsBreakChar(text[from]) {
      LastBreakLast(text, from - 1);
    }
  }

  /** The larger of the last space and the last newline is the last break. */
  lemma {:induction false} LastBreakFrom(text: string, from: int)
    requires -1 <= from < |text|
    ensures MaxInt(LastIndexOfFrom(text, ' ', from), LastIndexOfFrom(text, '\n', from)) == LastBreak(text, from)
    decreases from + 1
  {
    if from >= 0 && !IsBreakChar(text[from]) {
      LastBreakFrom(text, from - 1);
    }
  }

  /** Lines 10-12 compute `LastBreak`. */
  lemma LastBreakIsMax(text: string, from: nat)
    requires from < |text|
    ensures MaxInt(LastIndexOf(text, ' ', from), LastIndexOf(text, '\n', from)) == LastBreak(text, from)
  {
    LastBreakFrom(text, from);
  }

  /** Where the window that starts at `start` ends (lines 6-19 of the loop). */
  function WindowEnd(text: string, start: nat, size: nat): (e: nat)
    requires start < |text|
    ensures start <= e <= |text| && e <= start + size
    ensures start + size >= |text| ==> e == |text|
  {
    var endIndex := start + size;
    if endIndex < |text| then
      var breakPoint := LastBreak(text, endIndex);
      if breakPoint > start then breakPoint else endIndex
    else
      |text|
  }

  /** A window that ends before the text does ends at the last space or
      newline in (start, start + size] when there is one, and at
      `start + size` when there is none; the break character itself is not
      part of the slice. */
  lemma WindowEndBreak(text: string, start: nat, size: nat)
    requires start < |text| && start + size < |text|
    ensures var e := WindowEnd(text, start, size);
      if exists k :: start < k <= start + size && IsBreakChar(text[k]) then
        start < e <= start + size && IsBreakChar(text[e])
        && forall k :: e < k <= start + size ==> !IsBreakChar(text[k])
      else
        e == start + size
  {
    LastBreakLast(text, start + size);
  }

  /** Where the next window starts after a slice ending at `e`, or None when
      the loop stops: `e - overlap`, unless that is not positive or not inside
      the text, in which case the loop stops if `e` reached the end and
      otherwise restarts at `e`. */
  function NextStart(text: string, e: nat, overlap: nat): (r: Option<nat>)
    ensures r.None? <==> e >= |text|
    ensures r.Some? ==> r.value < |text| && r.value <= e
    ensures r.Some? && 0 < e - overlap ==> r.value == e - overlap
    ensures r.Some? && e - overlap <= 0 ==> r.value == e
  {
    var next := e - overlap;
    if next <= 0 || next >= |text| || e >= |text| then
      if e >= |text| then None else Some(e)
    else
      Some(next)
  }

  /** The slices a run starting at `start` takes before it stops: each is one
      window, each window after the first starts where the previous one said,
      and the last one reaches the end of the text. */
  ghost predicate IsRun(text: string, size: nat, overlap: nat, start: nat, ws: seq<Slice>) {
    && 0 < |ws|
    && ws[0].start == start
    && (forall i :: 0 <= i < |ws| ==> ws[i].start < |text| && ws[i].end == WindowEnd(text, ws[i].start, size))
    && (forall i :: 0 <= i < |ws| - 1 ==> NextStart(text, ws[i].end, overlap) == Some(ws[i + 1].start))
    && ws[|ws| - 1].end == |text|
  }

  /** The trajectory of the loop from `start`, or None when it needs more
      than `fuel` iterations. */
  function Windows(text: string, size: nat, overlap: nat, start: nat, fuel: nat): Option<seq<Slice>>
    requires start < |text|
    decreases fuel
  {
    if fuel == 0 then None
    else
      var e := WindowEnd(text, start, size);
      match NextStart(text, e, overlap)
      case None => Some([Slice(start, e)])
      case Some(next) =>
        match Windows(text, size, overlap, next, fuel - 1)
        case None => None
        case Some(rest) =>
          Some([Slice(start, e)] + rest)
  }

  /** The trimmed slice contents, in order. */
  function Pieces(text: string, ws: seq<Slice>): (r: seq<string>)
    requires AllInText(text, ws)
    ensures |r| == |ws|
    decreases |ws|
  {
    if ws == [] then []
    else
      var last := ws[|ws| - 1];
      Pieces(text, ws[..|ws| - 1]) + [Trim(text[last.start..last.end])]
  }

  /** The `i`th piece is the trim of the `i`th slice. */
  lemma {:induction false} PieceAt(text: string, ws: seq<Slice>, i: nat)
    requires AllInText(text, ws) && i < |ws|
    ensures Pieces(text, ws)[i] == Trim(text[ws[i].start..ws[i].end])
    decreases |ws|
  {
    if i < |ws| - 1 {
      var init := ws[..|ws| - 1];
      PieceAt(text, init, i);
      assert init[i] == ws[i];
    }
  }

  /** Taking one more slice appends its trim. */
  lemma PiecesSnoc(text: string, ws: seq<Slice>, s: Slice)
    requires AllInText(text, ws) && s.start <= s.end <= |text|
    ensures AllInText(text, ws + [s])
    ensures Pieces(text, ws + [s]) == Pieces(text, ws) + [Trim(text[s.start..s.end])]
  {
    assert (ws + [s])[..|ws|] == ws;
    assert forall i :: 0 <= i < |ws| ==> ws[i] == (ws + [s])[i];
  }

  /** `chunks.filter(c => c.length > 0)` */
  function NonEmptyOnly(cs: seq<string>): (r: seq<string>)
    ensures |r| <= |cs|
    ensures forall k :: 0 <= k < |r| ==> r[k] != []
    ensures forall c :: c in r <==> c in cs && c != []
  {
    if cs == [] then []
    else if cs[0] == [] then NonEmptyOnly(cs[1..])
    else [cs[0]] + NonEmptyOnly(cs[1..])
  }

  /** Whatever the loop returns is a run: the trajectory of `WindowEnd` and
      `NextStart` from `start` to the end of the text. */
  lemma {:induction false} WindowsIsRun(text: string, size: nat, overlap: nat, start: nat, fuel: nat)
    requires start < |text| && Windows(text, size, overlap, start, fuel).Some?
    ensures IsRun(text, size, overlap, start, Windows(text, size, overlap, start, fuel).value)
    decreases fuel
  {
    var e := WindowEnd(text, start, size);
    match NextStart(text, e, overlap)
    case None =>
    case Some(next) =>
      WindowsIsRun(text, size, overlap, next, fuel - 1);
      var rest := Windows(text, size, overlap, next, fuel - 1).value;
      var ws := [Slice(start, e)] + rest;
      assert Windows(text, size, overlap, start, fuel).value == ws;
      forall i | 0 <= i < |ws|
        ensures ws[i].start < |text| && ws[i].end == WindowEnd(text, ws[i].start, size)
      {
        if i > 0 { assert ws[i] == rest[i - 1]; }
      }
      forall i | 0 <= i < |ws| - 1
        ensures NextStart(text, ws[i].end, overlap) == Some(ws[i + 1].start)
      {
        if i > 0 { assert ws[i] == rest[i - 1] && ws[i + 1] == rest[i]; }
      }
      assert ws[|ws| - 1] == rest[|rest| - 1];
  }

  /** Every slice of a run lies in the text and is at most one window long. */
  lemma RunInText(text: string, size: nat, overlap: nat, start: nat, ws: seq<Slice>)
    requires IsRun(text, size, overlap, start, ws)
    ensures AllInText(text, ws)
    ensures forall i :: 0 <= i < |ws| ==> ws[i].end - ws[i].start <= size
  {
  }

  /** What `chunkText(text, size, overlap)` returns when the loop stops
      within `fuel` iterations. */
  function Chunks(text: string, size: nat, overlap: nat, fuel: nat): Option<seq<string>> {
    if |text| == 0 then Some([])
    else
      match Windows(text, size, overlap, 0, fuel)
      case None => None
      case Some(ws) =>
        WindowsIsRun(text, size, overlap, 0, fuel);
        RunInText(text, size, overlap, 0, ws);
        Some(NonEmptyOnly(Pieces(text, ws)))
  }

  /** `Chunks` once the trajectory of a non-empty text is known. */
  lemma ChunksSome(text: string, size: nat, overlap: nat, fuel: nat, ws: seq<Slice>)
    requires |text| > 0 && Windows(text, size, overlap, 0, fuel) == Some(ws) && AllInText(text, ws)
    ensures Chunks(text, size, overlap, fuel) == Some(NonEmptyOnly(Pieces(text, ws)))
  {
  }

  lemma ChunksNone(text: string, size: nat, overlap: nat, fuel: nat)
    requires |text| > 0 && Windows(text, size, overlap, 0, fuel).None?
    ensures Chunks(text, size, overlap, fuel).None?
  {
  }

  /** One iteration of the loop, as an equation on `Windows`. */
  lemma UnfoldWindows(text: string, size: nat, overlap: nat, start: nat, fuel: nat)
    requires start < |text| && fuel > 0
    ensures var e := WindowEnd(text, start, size);
      match NextStart(text, e, overlap)
      case None => Windows(text, size, overlap, start, fuel) == Some([Slice(start, e)])
      case Some(next) =>
        Windows(text, size, overlap, start, fuel) == Then([Slice(start, e)], Windows(text, size, overlap, next, fuel - 1))
  {
  }

  lemma ThenNil(r: Option<seq<Slice>>)
    ensures Then([], r) == r
  {
    match r
    case None =>
    case Some(ws) => assert [] + ws == ws;
  }

  lemma ThenThen(a: seq<Slice>, b: seq<Slice>, r: Option<seq<Slice>>)
    ensures Then(a, Then(b, r)) == Then(a + b, r)
  {
    match r
    case None =>
    case Some(ws) => assert a + (b + ws) == (a + b) + ws;
  }

  /** The slices of the first iterations of a run from 0, whose last window
      says the loop continues at `next`. */
  ghost predicate IsPartialRun(text: string, size: nat, overlap: nat, ws: seq<Slice>, next: nat)
    decreases |ws|
  {
    if ws == [] then next == 0
    else
      var last := ws[|ws| - 1];
      && last.start < |text|
      && last.end == WindowEnd(text, last.start, size)
      && NextStart(text, last.end, overlap) == Some(next)
      && IsPartialRun(text, size, overlap, ws[..|ws| - 1], last.start)
  }

  /** Taking the window at `start` extends a partial run. */
  lemma PartialRunSnoc(text: string, size: nat, overlap: nat, ws: seq<Slice>, start: nat, next: nat)
    requires start < |text| && IsPartialRun(text, size, overlap, ws, start)
    requires NextStart(text, WindowEnd(text, start, size), overlap) == Some(next)
    ensures IsPartialRun(text, size, overlap, ws + [Slice(start, WindowEnd(text, start, size))], next)
  {
    var ws' := ws + [Slice(start, WindowEnd(text, start, size))];
    assert ws'[..|ws'| - 1] == ws;
  }

  /** A partial run is a prefix of the trajectory from 0. */
  lemma {:induction false} PartialRunWindows(text: string, size: nat, overlap: nat, fuel: nat, ws: seq<Slice>, next: nat)
    requires next < |text| && |ws| <= fuel && IsPartialRun(text, size, overlap, ws, next)
    ensures Windows(text, size, overlap, 0, fuel) == Then(ws, Windows(text, size, overlap, next, fuel - |ws|))
    decreases |ws|
  {
    if ws == [] {
      ThenNil(Windows(text, size, overlap, 0, fuel));
    } else {
      var init := ws[..|ws| - 1];
      var last := ws[|ws| - 1];
      PartialRunWindows(text, size, overlap, fuel, init, last.start);
      LoopStepOn(text, size, overlap, fuel, init, last.start, |init|, next);
      assert init + [Slice(last.start, WindowEnd(text, last.start, size))] == ws;
    }
  }

  /** An iteration that continues: the slices taken so far grow by the
      window at `start`, and the loop goes on at `next`. */
  lemma LoopStepOn(text: string, size: nat, overlap: nat, fuel: nat, taken: seq<Slice>, start: nat, steps: nat, next: nat)
    requires start < |text| && steps < fuel
    requires NextStart(text, WindowEnd(text, start, size), overlap) == Some(next)
    requires Windows(text, size, overlap, 0, fuel) == Then(taken, Windows(text, size, overlap, start, fuel - steps))
    ensures Windows(text, size, overlap, 0, fuel)
      == Then(taken + [Slice(start, WindowEnd(text, start, size))], Windows(text, size, overlap, next, fuel - steps - 1))
  {
    UnfoldWindows(text, size, overlap, start, fuel - steps);
    ThenThen(taken, [Slice(start, WindowEnd(text, start, size))], Windows(text, size, overlap, next, fuel - steps - 1));
  }

  /** The iteration that stops: the window at `start` is the last slice. */
  lemma LoopStepStop(text: string, size: nat, overlap: nat, fuel: nat, taken: seq<Slice>, start: nat, steps: nat)
    requires start < |text| && steps < fuel
    requires NextStart(text, WindowEnd(text, start, size), overlap).None?
    requires Windows(text, size, overlap, 0, fuel) == Then(taken, Windows(text, size, overlap, start, fuel - steps))
    ensures Windows(text, size, overlap, 0, fuel) == Some(taken + [Slice(start, WindowEnd(text, start, size))])
  {
    UnfoldWindows(text, size, overlap, start, fuel - steps);
  }

  /** The kept chunks of trimmed slices are non-empty, at most `size` long,
      and each is the trim of a non-empty slice of the text. */
  lemma PiecesBounded(text: string, ws: seq<Slice>, size: nat)
    requires AllInText(text, ws)
    requires forall i :: 0 <= i < |ws| ==> ws[i].end - ws[i].start <= size
    ensures var cs := NonEmptyOnly(Pieces(text, ws));
      forall k :: 0 <= k < |cs| ==>
        && cs[k] != [] && |cs[k]| <= size
        && exists i, j :: 0 <= i < j <= |text| && j - i <= size && cs[k] == Trim(text[i..j])
  {
    var ps := Pieces(text, ws);
    var cs := NonEmptyOnly(ps);
    forall k | 0 <= k < |cs|
      ensures |cs[k]| <= size
      ensures exists i, j :: 0 <= i < j <= |text| && j - i <= size && cs[k] == Trim(text[i..j])
    {
      assert cs[k] in ps;
      var m :| 0 <= m < |ps| && ps[m] == cs[k];
      var sl := ws[m];
      PieceAt(text, ws, m);
      assert cs[k] == Trim(text[sl.start..sl.end]);
      assert sl.start < sl.end && sl.end - sl.start <= size;
    }
  }

  /** Prefixes `taken` to a run that may have run out of fuel. */
  function Then(taken: seq<Slice>, r: Option<seq<Slice>>): Option<seq<Slice>> {
    match r
    case None => None
    case Some(ws) => Some(taken + ws)
  }

  /** Lines 6-19 of the loop body: the window end, searched with `lastIndexOf`. */
  method FindWindowEnd(text: string, startIndex: nat, chunkSize: nat) returns (endIndex: nat)
    requires startIndex < |text|
    ensures endIndex == WindowEnd(text, startIndex, chunkSize)
  {
    endIndex := startIndex + chunkSize;
    if endIndex < |text| {
      var lastSpace := LastIndexOf(text, ' ', endIndex);
      var lastNewline := LastIndexOf(text, '\n', endIndex);
      var breakPoint := MaxInt(lastSpace, lastNewline);
      LastBreakIsMax(text, endIndex);
      if breakPoint > startIndex {
        endIndex := breakPoint;
      }
    } else {
      endIndex := |text|;
    }
  }

  /** Lines 22-28 of the loop body: step back by the overlap, and either
      stop or force progress when that leaves the text or does not advance. */
  method AdvanceStart(text: string, endIndex: nat, chunkOverlap: nat) returns (stop: bool, startIndex: nat)
    ensures stop <==> NextStart(text, endIndex, chunkOverlap).None?
    ensures !stop ==> NextStart(text, endIndex, chunkOverlap) == Some(startIndex)
  {
    stop := false;
    startIndex := 0;
    var next: int := endIndex - chunkOverlap;
    if next <= 0 || next >= |text| || endIndex >= |text| {
      if endIndex >= |text| {
        stop := true;
        return;
      }
      next := endIndex;
    }
    startIndex := next;
  }

  /** The loop of `chunkText`, run for at most `fuel` iterations; `finished`
      is false when the budget ran out first (the source would keep going). */
  method ChunkText(text: string, chunkSize: nat, chunkOverlap: nat, fuel: nat)
    returns (chunks: seq<string>, finished: bool)
    ensures finished <==> Chunks(text, chunkSize, chunkOverlap, fuel).Some?
    ensures finished ==> Chunks(text, chunkSize, chunkOverlap, fuel) == Some(chunks)
  {
    var pieces: seq<string> := [];
    ghost var taken: seq<Slice> := [];
    var startIndex: nat := 0;
    var steps: nat := 0;
    finished := true;
    while startIndex < |text|
      invariant steps == |taken| <= fuel
      invariant AllInText(text, taken)
      invariant pieces == Pieces(text, taken)
      invariant startIndex >= |text| ==> text == [] && taken == []
      invariant IsPartialRun(text, chunkSize, chunkOverlap, taken, startIndex)
      decreases fuel - steps
    {
      if steps == fuel {
        PartialRunWindows(text, chunkSize, chunkOverlap, fuel, taken, startIndex);
        assert Windows(text, chunkSize, chunkOverlap, startIndex, 0).None?;
        ChunksNone(text, chunkSize, chunkOverlap, fuel);
        finished := false;
        break;
      }
      var endIndex := FindWindowEnd(text, startIndex, chunkSize);
      ghost var before := taken;
      ghost var at := startIndex;
      pieces := pieces + [Trim(text[startIndex..endIndex])];
      taken := taken + [Slice(startIndex, endIndex)];
      PiecesSnoc(text, before, Slice(startIndex, endIndex));
      var stop, next := AdvanceStart(text, endIndex, chunkOverlap);
      if stop {
        PartialRunWindows(text, chunkSize, chunkOverlap, fuel, before, at);
        LoopStepStop(text, chunkSize, chunkOverlap, fuel, before, at, steps);
        ChunksSome(text, chunkSize, chunkOverlap, fuel, taken);
        break;
      }
      PartialRunSnoc(text, chunkSize, chunkOverlap, before, at, next);
      startIndex := next;
      steps := steps + 1;
    }
    chunks := NonEmptyOnly(pieces);
  }

  // ---------------------------------------------------------------------
  // Properties of the trajectory
  // ---------------------------------------------------------------------

  /** A text no longer than the window comes back as one trimmed chunk, or
      as nothing when it is empty or only whitespace. */
  lemma ShortText(text: string, size: nat, overlap: nat, fuel: nat)
    requires |text| <= size && fuel > 0
    ensures Chunks(text, size, overlap, fuel) == Some(if Trim(text) == [] then [] else [Trim(text)])
  {
    if |text| > 0 {
      var ws := [Slice(0, |text|)];
      UnfoldWindows(text, size, overlap, 0, fuel);
      assert NextStart(text, WindowEnd(text, 0, size), overlap).None?;
      assert ws[..0] == [] && text[0..|text|] == text;
      assert Pieces(text, ws) == [Trim(text)];
      ChunksSome(text, size, overlap, fuel, ws);
      assert [Trim(text)][1..] == [];
      if Trim(text) == [] {
        assert NonEmptyOnly([Trim(text)]) == NonEmptyOnly([]);
      } else {
        assert NonEmptyOnly([Trim(text)]) == [Trim(text)] + NonEmptyOnly([]);
        assert NonEmptyOnly([]) == [];
        assert [Trim(text)] + [] == [Trim(text)];
      }
    } else {
      assert Trim(text) == [];
    }
  }

  /** Every chunk returned is non-empty, at most `size` long, and the trim
      of a non-empty slice of the text no longer than `size`. */
  lemma ChunksBounded(text: string, size: nat, overlap: nat, fuel: nat)
    requires Chunks(text, size, overlap, fuel).Some?
    ensures var cs := Chunks(text, size, overlap, fuel).value;
      forall k :: 0 <= k < |cs| ==>
        && cs[k] != [] && |cs[k]| <= size
        && exists i, j :: 0 <= i < j <= |text| && j - i <= size && cs[k] == Trim(text[i..j])
  {
    if |text| > 0 {
      var ws := Windows(text, size, overlap, 0, fuel).value;
      WindowsIsRun(text, size, overlap, 0, fuel);
      RunInText(text, size, overlap, 0, ws);
      ChunksSome(text, size, overlap, fuel, ws);
      PiecesBounded(text, ws, size);
    }
  }

  /** The first slice starts at 0, each later one where `NextStart` puts it,
      and the last one ends at the end of the text. */
  lemma RunShape(text: string, size: nat, overlap: nat, fuel: nat)
    requires text != [] && Windows(text, size, overlap, 0, fuel).Some?
    ensures var ws := Windows(text, size, overlap, 0, fuel).value;
      && ws != [] && ws[0].start == 0 && ws[|ws| - 1].end == |text|
      && (forall i :: 0 <= i < |ws| - 1 ==> ws[i + 1].start <= ws[i].end && ws[i].end < |text|)
      && (forall i :: 0 <= i < |ws| - 1 ==>
            ws[i + 1].start == if 0 < ws[i].end - overlap then ws[i].end - overlap else ws[i].end)
  {
    WindowsIsRun(text, size, overlap, 0, fuel);
    var ws := Windows(text, size, overlap, 0, fuel).value;
    forall i | 0 <= i < |ws| - 1
      ensures ws[i + 1].start <= ws[i].end && ws[i].end < |text|
      ensures ws[i + 1].start == if 0 < ws[i].end - overlap then ws[i].end - overlap else ws[i].end
    {
      assert NextStart(text, ws[i].end, overlap) == Some(ws[i + 1].start);
    }
  }

  /** Every position of the text lies in some slice: the slices cover the
      text from their first start to its end, with no gap. */
  lemma {:induction false} RunCovers(text: string, size: nat, overlap: nat, start: nat, ws: seq<Slice>, p: nat)
    requires IsRun(text, size, overlap, start, ws)
    requires start <= p < |text|
    ensures exists i :: 0 <= i < |ws| && ws[i].start <= p < ws[i].end
    decreases |ws|
  {
    if p < ws[0].end {
      assert ws[0].start <= p < ws[0].end;
    } else {
      assert |ws| > 1;
      var tail := ws[1..];
      assert IsRun(text, size, overlap, ws[1].start, tail) by {
        forall i | 0 <= i < |tail| - 1
          ensures NextStart(text, tail[i].end, overlap) == Some(tail[i + 1].start)
        {
          assert tail[i] == ws[i + 1] && tail[i + 1] == ws[i + 2];
        }
      }
      RunCovers(text, size, overlap, ws[1].start, tail, p);
      var i :| 0 <= i < |tail| && tail[i].start <= p < tail[i].end;
      assert ws[i + 1].start <= p < ws[i + 1].end;
    }
  }

  /** Running with more fuel than needed changes nothing: the fuel only
      bounds the loop, it does not shape the result. */
  lemma {:induction false} WindowsFuelMonotone(text: string, size: nat, overlap: nat, start: nat, fuel: nat, more: nat)
    requires start < |text| && fuel <= more
    requires Windows(text, size, overlap, start, fuel).Some?
    ensures Windows(text, size, overlap, start, more) == Windows(text, size, overlap, start, fuel)
    decreases fuel
  {
    UnfoldWindows(text, size, overlap, start, fuel);
    UnfoldWindows(text, size, overlap, start, more);
    var e := WindowEnd(text, start, size);
    var n := NextStart(text, e, overlap);
    if n.Some? {
      var r := Windows(text, size, overlap, n.value, fuel - 1);
      assert Windows(text, size, overlap, start, fuel) == Then([Slice(start, e)], r);
      assert r.Some?;
      WindowsFuelMonotone(text, size, overlap, n.value, fuel - 1, more - 1);
    }
  }

  // ---------------------------------------------------------------------
  // Termination and its failure
  // ---------------------------------------------------------------------

  /** A window whose successor is itself: the loop revisits this start forever. */
  predicate IsFixedPoint(text: string, size: nat, overlap: nat, start: nat)
    requires start < |text|
  {
    NextStart(text, WindowEnd(text, start, size), overlap) == Some(start)
  }

  lemma {:induction false} FixedPointDiverges(text: string, size: nat, overlap: nat, start: nat, fuel: nat)
    requires start < |text| && IsFixedPoint(text, size, overlap, start)
    ensures Windows(text, size, overlap, start, fuel).None?
    decreases fuel
  {
    if fuel > 0 {
      FixedPointDiverges(text, size, overlap, start, fuel - 1);
    }
  }

  /** 300 letters `a`, one space, then 4699 letters `b`: 5000 characters. */
  function StuckText(): (s: string)
    ensures |s| == 5000
    ensures s[300] == ' '
    ensures forall k :: 0 <= k < |s| && k != 300 ==> !IsBreakChar(s[k])
  {
    seq(5000, k => if k < 300 then 'a' else if k == 300 then ' ' else 'b')
  }

  /** With the default sizes, `chunkText(StuckText())` never returns: the
      first window breaks at the space (index 300), the next start is 100,
      and the window from 100 breaks at the same space again. */
  lemma StuckTextDiverges(fuel: nat)
    ensures Chunks(StuckText(), DefaultChunkSize, DefaultChunkOverlap, fuel).None?
  {
    var t := StuckText();
    assert IsBreakChar(t[300]);
    WindowEndBreak(t, 0, DefaultChunkSize);
    WindowEndBreak(t, 100, DefaultChunkSize);
    assert WindowEnd(t, 0, DefaultChunkSize) == 300;
    assert NextStart(t, 300, DefaultChunkOverlap) == Some(100);
    assert WindowEnd(t, 100, DefaultChunkSize) == 300;
    assert IsFixedPoint(t, DefaultChunkSize, DefaultChunkOverlap, 100);
    if fuel > 0 {
      FixedPointDiverges(t, DefaultChunkSize, DefaultChunkOverlap, 100, fuel - 1);
    }
  }

  /** Every window is followed by a strictly later one, or by none. */
  ghost predicate AlwaysAdvances(text: string, size: nat, overlap: nat) {
    forall s: nat :: s < |text| ==>
      match NextStart(text, WindowEnd(text, s, size), overlap)
      case None => true
      case Some(next) => next > s
  }

  /** When every window advances, the loop stops within |text| iterations. */
  lemma {:induction false} AdvancingTerminates(text: string, size: nat, overlap: nat, start: nat, fuel: nat)
    requires start < |text| && AlwaysAdvances(text, size, overlap)
    requires fuel >= |text| - start
    ensures Windows(text, size, overlap, start, fuel).Some?
    decreases |text| - start
  {
    UnfoldWindows(text, size, overlap, start, fuel);
    var e := WindowEnd(text, start, size);
    match NextStart(text, e, overlap)
    case None =>
    case Some(next) =>
      assert next > start;
      AdvancingTerminates(text, size, overlap, next, fuel - 1);
  }

  /** Without overlap the loop always terminates (for a positive window). */
  lemma NoOverlapTerminates(text: string, size: nat)
    requires size > 0
    ensures Chunks(text, size, 0, |text|).Some?
  {
    assert AlwaysAdvances(text, size, 0) by {
      forall s: nat | s < |text|
        ensures match NextStart(text, WindowEnd(text, s, size), 0)
                case None => true
                case Some(next) => next > s
      {
        var e := WindowEnd(text, s, size);
        assert e > s;
      }
    }
    if |text| > 0 {
      AdvancingTerminates(text, size, 0, 0, |text|);
    }
  }

  /** A text with no space or newline makes the loop terminate whenever the
      overlap is smaller than the window. */
  lemma NoBreakCharTerminates(text: string, size: nat, overlap: nat)
    requires overlap < size
    requires forall k :: 0 <= k < |text| ==> !IsBreakChar(text[k])
    ensures Chunks(text, size, overlap, |text|).Some?
  {
    assert AlwaysAdvances(text, size, overlap) by {
      forall s: nat | s < |text|
        ensures match NextStart(text, WindowEnd(text, s, size), overlap)
                case None => true
                case Some(next) => next > s
      {
        if s + size < |text| {
          WindowEndBreak(text, s, size);
        }
      }
    }
    if |text| > 0 {
      AdvancingTerminates(text, size, overlap, 0, |text|);
    }
  }
}
