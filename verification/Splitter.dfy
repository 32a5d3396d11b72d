/** Splitting an outbound message into chunks at paragraph, line, word and character boundaries. */
module Splitter {
  import opened Utf8
  import opened Sequences

  const NEWLINE: Byte := 10
  const SPACE: Byte := 32
  const BACKTICK: Byte := 96

  // ---------------------------------------------------------------- code fences

  predicate FenceAt(s: Bytes, i: nat) {
    i + 3 <= |s| && s[i] == BACKTICK && s[i + 1] == BACKTICK && s[i + 2] == BACKTICK
  }

  /** The first newline at or after i, or the end. */
  function LineEnd(s: Bytes, i: nat): (e: nat)
    requires i <= |s|
    ensures i <= e <= |s| && (e < |s| ==> s[e] == NEWLINE)
    ensures forall k :: i <= k < e ==> s[k] != NEWLINE
    decreases |s| - i
  {
    if i < |s| && s[i] != NEWLINE then LineEnd(s, i + 1) else i
  }

  /** Outside any fence, or inside the one that opened at an offset. */
  datatype Fence = Outside | Inside(at: nat)

  /** The fence automaton from offset i: an opening fence takes the rest of its line with it. */
  function Scan(s: Bytes, i: nat, limit: nat, f: Fence): Fence
    decreases |s| - i
  {
    if i >= |s| || i >= limit then f
    else if FenceAt(s, i) then
      if f == Outside then Scan(s, LineEnd(s, i + 3), limit, Inside(i)) else Scan(s, i + 3, limit, Outside)
    else Scan(s, i + 1, limit, f)
  }

  /** The offset of the fence the automaton leaves open, 0 when there is none. */
  function OpenFence(s: Bytes, limit: nat): nat {
    match Scan(s, 0, limit, Outside)
    case Outside => 0
    case Inside(at) => at
  }

  lemma {:induction false} ScanInside(s: Bytes, i: nat, limit: nat, f: Fence)
    ensures Scan(s, i, limit, f).Inside? ==>
              || Scan(s, i, limit, f) == f
              || (i <= Scan(s, i, limit, f).at < limit && FenceAt(s, Scan(s, i, limit, f).at))
    decreases |s| - i
  {
    if i < |s| && i < limit {
      if FenceAt(s, i) {
        if f == Outside {
          ScanInside(s, LineEnd(s, i + 3), limit, Inside(i));
        } else {
          ScanInside(s, i + 3, limit, Outside);
        }
      } else {
        ScanInside(s, i + 1, limit, f);
      }
    }
  }

  /** Cutting the text before a fence that is still open there leaves the automaton outside. */
  lemma {:induction false} ScanBeforeOpen(s: Bytes, i: nat, limit: nat, f: Fence, at: nat)
    requires Scan(s, i, limit, f) == Inside(at) && f != Inside(at) && i <= at
    requires f.Inside? ==> f.at < i
    ensures at <= |s| && Scan(s[..at], i, at, f) == Outside
    decreases |s| - i
  {
    ScanInside(s, i, limit, f);
    var t := s[..at];
    if i < at {
      if FenceAt(s, i) {
        if f == Outside {
          var e := LineEnd(s, i + 3);
          ScanInside(s, e, limit, Inside(i));
          assert e <= at && s[at] == BACKTICK;
          LineEndOfPrefix(s, i + 3, at);
          ScanBeforeOpen(s, e, limit, Inside(i), at);
        } else {
          ScanInside(s, i + 3, limit, Outside);
          ScanBeforeOpen(s, i + 3, limit, Outside, at);
        }
      } else {
        ScanBeforeOpen(s, i + 1, limit, f, at);
      }
    } else if f.Inside? {
      ScanFenceInside(s, i, limit, f);
    }
  }

  /** A fence met while inside one closes it, so its own offset is not left open. */
  lemma ScanFenceInside(s: Bytes, i: nat, limit: nat, f: Fence)
    requires f.Inside? && f.at < i && FenceAt(s, i) && i < limit
    ensures Scan(s, i, limit, f) != Inside(i)
  {
    ScanInside(s, i + 3, limit, Outside);
  }

  lemma {:induction false} LineEndOfPrefix(s: Bytes, i: nat, k: nat)
    requires i <= |s| && LineEnd(s, i) < k <= |s|
    ensures LineEnd(s[..k], i) == LineEnd(s, i)
    decreases |s| - i
  {
    if s[i] != NEWLINE {
      LineEndOfPrefix(s, i + 1, k);
    }
  }

  /** A positive result cuts the text where no fence is open. */
  lemma CutIsOutside(s: Bytes, limit: nat)
    requires OpenFence(s, limit) > 0
    ensures OpenFence(s, limit) < limit && OpenFence(s, limit) < |s| && FenceAt(s, OpenFence(s, limit))
    ensures Scan(s[..OpenFence(s, limit)], 0, OpenFence(s, limit), Outside) == Outside
  {
    var at := OpenFence(s, limit);
    ScanInside(s, 0, limit, Outside);
    ScanBeforeOpen(s, 0, limit, Outside, at);
  }

  /** The in-place scan finds exactly the fence the automaton leaves open. */
  method FindCodeBlockSafeCut(content: Bytes, maxLen: nat) returns (cut: nat)
    ensures cut == OpenFence(content, maxLen)
  {
    var open, lastFenceEnd, i := false, 0, 0;
    ghost var f := Outside;
    while i < |content| && i < maxLen
      invariant i <= |content|
      invariant Scan(content, i, maxLen, f) == Scan(content, 0, maxLen, Outside)
      invariant open <==> f.Inside?
      invariant open ==> lastFenceEnd == f.at
      invariant i == 0 ==> lastFenceEnd == 0
      decreases |content| - i
    {
      if FenceAt(content, i) {
        if !open {
          if i > 0 {
            lastFenceEnd := i;
          }
          open := true;
          f := Inside(i);
        } else {
          var fenceEnd := i + 3;
          while fenceEnd < |content| && content[fenceEnd] != NEWLINE
          {
            fenceEnd := fenceEnd + 1;
          }
          if fenceEnd < |content| && content[fenceEnd] == NEWLINE {
            fenceEnd := fenceEnd + 1;
          }
          open := false;
          f := Outside;
          if fenceEnd <= maxLen {
            lastFenceEnd := fenceEnd;
          }
        }
        var skip := 3;
        if open {
          while i + skip < |content| && content[i + skip] != NEWLINE
            invariant 3 <= skip && i + skip <= |content|
            invariant LineEnd(content, i + skip) == LineEnd(content, i + 3)
          {
            skip := skip + 1;
          }
        }
        i := i + skip;
        continue;
      }
      i := i + 1;
    }
    if open && lastFenceEnd > 0 {
      return lastFenceEnd;
    }
    cut := 0;
  }

  // ---------------------------------------------------------------- cut points

  /** The last occurrence before n, -1 when there is none. */
  function LastIndexBelow(s: Bytes, pattern: Bytes, n: nat): (r: int)
    ensures -1 <= r < n && (r >= 0 ==> MatchAt(s, pattern, r))
    ensures forall i :: r < i < n ==> !MatchAt(s, pattern, i)
  {
    if n == 0 then -1
    else if MatchAt(s, pattern, n - 1) then n - 1
    else LastIndexBelow(s, pattern, n - 1)
  }

  function LastIndex(s: Bytes, pattern: Bytes): int {
    LastIndexBelow(s, pattern, |s| + 1)
  }

  /** The part of the text in which a boundary is looked for. */
  function Window(content: Bytes, maxLen: nat): nat {
    if OpenFence(content, maxLen) > 0 then OpenFence(content, maxLen) else maxLen
  }

  /** The last character start in 1..k, or the whole first character when there is none. */
  ghost predicate IsRuneCut(content: Bytes, k: nat, cut: nat)
    requires k < |content|
  {
    if 0 < cut <= k && RuneStart(content[cut]) then forall i :: cut < i <= k ==> !RuneStart(content[i])
    else cut == DecodedSize(content) && forall i :: 0 < i <= k ==> !RuneStart(content[i])
  }

  method RuneAlignedCut(content: Bytes, maxLen: nat) returns (cut: nat)
    ensures maxLen >= |content| ==> cut == |content|
    ensures maxLen < |content| ==> IsRuneCut(content, maxLen, cut)
  {
    if maxLen >= |content| {
      return |content|;
    }
    cut := maxLen;
    while cut > 0 && !RuneStart(content[cut])
      invariant cut <= maxLen
      invariant forall i :: cut < i <= maxLen ==> !RuneStart(content[i])
    {
      cut := cut - 1;
    }
    if cut == 0 {
      cut := DecodedSize(content);
      if cut <= maxLen {
        assert !RuneStart(content[cut]);
      }
    }
  }

  /** Where a text that is too long is cut: after a paragraph, a line, a word, or a character. */
  ghost predicate IsCut(content: Bytes, maxLen: nat, cut: nat)
    requires 0 < maxLen < |content| && Window(content, maxLen) <= maxLen
  {
    var w := content[..Window(content, maxLen)];
    if LastIndex(w, [NEWLINE, NEWLINE]) > 0 then cut == LastIndex(w, [NEWLINE, NEWLINE]) + 2
    else if LastIndex(w, [NEWLINE]) > 0 then cut == LastIndex(w, [NEWLINE]) + 1
    else if LastIndex(w, [SPACE]) > 0 then cut == LastIndex(w, [SPACE]) + 1
    else IsRuneCut(content, |w|, cut)
  }

  lemma WindowFits(content: Bytes, maxLen: nat)
    requires 0 < maxLen
    ensures 0 < Window(content, maxLen) <= maxLen
  {
    if OpenFence(content, maxLen) > 0 {
      CutIsOutside(content, maxLen);
    }
  }

  method FindCutPoint(content: Bytes, maxLen: nat) returns (cut: nat)
    requires 0 < maxLen < |content|
    ensures Window(content, maxLen) <= maxLen && IsCut(content, maxLen, cut)
  {
    WindowFits(content, maxLen);
    var effective := maxLen;
    var codeBlockCut := FindCodeBlockSafeCut(content, maxLen);
    if codeBlockCut > 0 {
      effective := codeBlockCut;
    }
    var idx := LastIndex(content[..effective], [NEWLINE, NEWLINE]);
    if idx > 0 {
      return idx + 2;
    }
    idx := LastIndex(content[..effective], [NEWLINE]);
    if idx > 0 {
      return idx + 1;
    }
    idx := LastIndex(content[..effective], [SPACE]);
    if idx > 0 {
      return idx + 1;
    }
    cut := RuneAlignedCut(content, effective);
  }

  /** A boundary byte found in the window ends a chunk there. */
  lemma AsciiCut(content: Bytes, w: Bytes, pattern: Bytes, i: nat)
    requires w <= content && MatchAt(w, pattern, i) && pattern != [] && pattern[|pattern| - 1] <= 0x7F
    ensures Valid(content) ==> Valid(content[..i + |pattern|]) && Valid(content[i + |pattern|..])
  {
    var k := i + |pattern| - 1;
    assert content[k] == w[i..i + |pattern|][|pattern| - 1];
    if Valid(content) {
      SplitsAfterAscii(content, k);
    }
  }

  lemma RuneCut(content: Bytes, k: nat, cut: nat)
    requires 0 < k < |content| && IsRuneCut(content, k, cut)
    ensures 0 < cut <= |content| && (cut <= k || cut == DecodedSize(content))
    ensures Valid(content) ==> Valid(content[..cut]) && Valid(content[cut..])
  {
    if Valid(content) {
      if !(0 < cut <= k && RuneStart(content[cut])) {
        assert cut == CharLen(content) && Valid(content[cut..]);
        assert cut < |content| ==> content[cut] == content[cut..][0];
      }
      SplitsAtStart(content, cut);
    }
  }

  /** A cut makes progress, stays within the limit or takes one character, and never breaks a character. */
  lemma CutSound(content: Bytes, maxLen: nat, cut: nat)
    requires 0 < maxLen < |content| && Window(content, maxLen) <= maxLen && IsCut(content, maxLen, cut)
    ensures 0 < cut <= |content| && (cut <= maxLen || cut == DecodedSize(content))
    ensures Valid(content) ==> Valid(content[..cut]) && Valid(content[cut..])
  {
    WindowFits(content, maxLen);
    var w := content[..Window(content, maxLen)];
    hide Valid, Window, IsRuneCut, LastIndexBelow;
    if LastIndex(w, [NEWLINE, NEWLINE]) > 0 {
      AsciiCut(content, w, [NEWLINE, NEWLINE], LastIndex(w, [NEWLINE, NEWLINE]));
    } else if LastIndex(w, [NEWLINE]) > 0 {
      AsciiCut(content, w, [NEWLINE], LastIndex(w, [NEWLINE]));
    } else if LastIndex(w, [SPACE]) > 0 {
      AsciiCut(content, w, [SPACE], LastIndex(w, [SPACE]));
    } else {
      RuneCut(content, |w|, cut);
    }
  }

  /** The pattern stands within the first n bytes, not at their very start, for the last time at i. */
  ghost predicate IsLastBreak(s: Bytes, n: nat, pattern: Bytes, i: int) {
    && 0 < i && MatchAt(s, pattern, i) && i + |pattern| <= n
    && forall j :: i < j ==> !(MatchAt(s, pattern, j) && j + |pattern| <= n)
  }

  ghost predicate NoBreak(s: Bytes, n: nat, pattern: Bytes) {
    forall j :: 0 < j ==> !(MatchAt(s, pattern, j) && j + |pattern| <= n)
  }

  lemma LastBreak(s: Bytes, n: nat, pattern: Bytes)
    requires n <= |s|
    ensures var i := LastIndex(s[..n], pattern);
            (i > 0 ==> IsLastBreak(s, n, pattern, i)) && (i <= 0 ==> NoBreak(s, n, pattern))
  {
    var w := s[..n];
    forall j: nat ensures MatchAt(w, pattern, j) <==> MatchAt(s, pattern, j) && j + |pattern| <= n {
      if j + |pattern| <= n {
        assert w[j..j + |pattern|] == s[j..j + |pattern|];
      }
    }
    var i := LastIndex(w, pattern);
    forall j | i < j && 0 < j ensures !MatchAt(w, pattern, j) {
    }
  }

  /**
   * A cut comes behind the last empty line of the window; without one, behind its last line; without that, behind its
   * last word; and only then behind its last character.
   */
  lemma CutPrefers(content: Bytes, maxLen: nat, cut: nat)
    requires 0 < maxLen < |content| && Window(content, maxLen) <= maxLen && IsCut(content, maxLen, cut)
    ensures var n := Window(content, maxLen);
            || IsLastBreak(content, n, [10, 10], cut - 2)
            || (NoBreak(content, n, [10, 10]) && IsLastBreak(content, n, [10], cut - 1))
            || (NoBreak(content, n, [10, 10]) && NoBreak(content, n, [10]) && IsLastBreak(content, n, [32], cut - 1))
            || (NoBreak(content, n, [10, 10]) && NoBreak(content, n, [10]) && NoBreak(content, n, [32])
                && IsRuneCut(content, n, cut))
  {
    var n := Window(content, maxLen);
    LastBreak(content, n, [NEWLINE, NEWLINE]);
    LastBreak(content, n, [NEWLINE]);
    LastBreak(content, n, [SPACE]);
    hide LastIndex, IsRuneCut, IsLastBreak, NoBreak, Window;
  }

  // ---------------------------------------------------------------- cuts and fences

  /** Where the automaton is, and in what state, when it first arrives at the limit or beyond it. */
  function Reach(s: Bytes, i: nat, limit: nat, f: Fence): (nat, Fence)
    decreases |s| - i
  {
    if i >= |s| || i >= limit then (i, f)
    else if FenceAt(s, i) then
      if f == Outside then Reach(s, LineEnd(s, i + 3), limit, Inside(i)) else Reach(s, i + 3, limit, Outside)
    else Reach(s, i + 1, limit, f)
  }

  lemma {:induction false} ReachSplits(s: Bytes, i: nat, mid: nat, limit: nat, f: Fence)
    requires mid <= limit
    ensures var r := Reach(s, i, mid, f);
            && i <= r.0 && (mid <= |s| ==> mid <= r.0) && Scan(s, i, mid, f) == r.1
            && Scan(s, r.0, limit, r.1) == Scan(s, i, limit, f)
            && Reach(s, r.0, limit, r.1) == Reach(s, i, limit, f)
    decreases |s| - i
  {
    if i < |s| && i < mid {
      if FenceAt(s, i) {
        if f == Outside {
          ReachSplits(s, LineEnd(s, i + 3), mid, limit, Inside(i));
        } else {
          ReachSplits(s, i + 3, mid, limit, Outside);
        }
      } else {
        ReachSplits(s, i + 1, mid, limit, f);
      }
    }
  }

  /** A block of code: opened at o, and closed by the fence at c, which the automaton meets while inside. */
  predicate ClosedBlock(s: Bytes, o: nat, c: nat, limit: nat) {
    c < limit && FenceAt(s, c) && Reach(s, 0, c, Outside) == (c, Inside(o))
  }

  /** A block opened at o that is still open where the automaton stops leads on to its closing fence or stays open. */
  lemma {:induction false} ClosesOrStays(s: Bytes, i: nat, limit: nat, o: nat) returns (c: nat)
    requires i <= |s|
    ensures || Scan(s, i, limit, Inside(o)) == Inside(o)
            || (i <= c < limit && FenceAt(s, c) && Reach(s, i, c, Inside(o)) == (c, Inside(o)))
    decreases |s| - i
  {
    c := i;
    if i < |s| && i < limit && !FenceAt(s, i) {
      c := ClosesOrStays(s, i + 1, limit, o);
    }
  }

  lemma {:induction false} ReachWithin(s: Bytes, i: nat, limit: nat, f: Fence)
    requires i <= |s|
    ensures Reach(s, i, limit, f).0 <= |s|
    decreases |s| - i
  {
    if i < |s| && i < limit {
      if FenceAt(s, i) {
        if f == Outside {
          ReachWithin(s, LineEnd(s, i + 3), limit, Inside(i));
        } else {
          ReachWithin(s, i + 3, limit, Outside);
        }
      } else {
        ReachWithin(s, i + 1, limit, f);
      }
    }
  }

  /** A block that is open later and was opened before the cut is open at the cut. */
  lemma OpenBefore(s: Bytes, cut: nat, limit: nat, o: nat)
    requires cut <= limit && cut <= |s| && o < cut && Scan(s, 0, limit, Outside) == Inside(o)
    ensures Scan(s, 0, cut, Outside) == Inside(o)
  {
    ReachSplits(s, 0, cut, limit, Outside);
    var r := Reach(s, 0, cut, Outside);
    ScanInside(s, r.0, limit, r.1);
  }

  /** Whatever stands in the line that opens a block, also another fence, leaves the block open. */
  lemma OpeningLineStaysOpen(s: Bytes, o: nat, limit: nat)
    requires Reach(s, 0, o, Outside) == (o, Outside) && FenceAt(s, o)
    requires o < limit && forall k :: o + 3 <= k < limit && k < |s| ==> s[k] != NEWLINE
    ensures Scan(s, 0, limit, Outside) == Inside(o)
  {
    ReachSplits(s, 0, o, limit, Outside);
    var e := LineEnd(s, o + 3);
    assert e >= limit || e == |s|;
  }

  /** The block around a cut: a closed one, or one at the start of the text that is open up to the limit. */
  ghost predicate InBlock(s: Bytes, cut: nat, limit: nat) {
    || (exists o, c :: 0 <= o < cut <= c && ClosedBlock(s, o, c, limit))
    || Scan(s, 0, limit, Outside) == Inside(0)
  }

  lemma InsideIsInBlock(s: Bytes, cut: nat, limit: nat, o: nat)
    requires 0 < cut <= Window(s, limit) <= limit && cut <= |s| && Scan(s, 0, cut, Outside) == Inside(o)
    ensures InBlock(s, cut, limit)
  {
    ScanInside(s, 0, cut, Outside);
    ReachSplits(s, 0, cut, limit, Outside);
    ReachWithin(s, 0, cut, Outside);
    var r := Reach(s, 0, cut, Outside);
    var c := ClosesOrStays(s, r.0, limit, o);
    if Scan(s, r.0, limit, Inside(o)) != Inside(o) {
      ReachSplits(s, 0, cut, c, Outside);
      assert ClosedBlock(s, o, c, limit);
    }
  }

  lemma InBlockIsInside(s: Bytes, cut: nat, limit: nat)
    requires 0 < cut <= limit && cut <= |s| && InBlock(s, cut, limit)
    ensures Scan(s, 0, cut, Outside).Inside?
  {
    if Scan(s, 0, limit, Outside) == Inside(0) {
      OpenBefore(s, cut, limit, 0);
    } else {
      var o, c :| 0 <= o < cut <= c && ClosedBlock(s, o, c, limit);
      ReachSplits(s, 0, c, c, Outside);
      OpenBefore(s, cut, c, o);
    }
  }

  /**
   * The window ends outside every fence, but the cut is looked for before its end. The text is inside a fence
   * at the cut exactly when the cut falls into a block that is closed within the limit, or the text starts with
   * a block that is still open there.
   */
  lemma CutIsInsideExactlyWhen(content: Bytes, maxLen: nat, cut: nat)
    requires 0 < maxLen < |content| && Window(content, maxLen) <= maxLen && IsCut(content, maxLen, cut)
    requires cut <= Window(content, maxLen)
    ensures Scan(content, 0, cut, Outside).Inside? <==> InBlock(content, cut, maxLen)
  {
    CutSound(content, maxLen, cut);
    hide IsCut, Valid, InBlock;
    if Scan(content, 0, cut, Outside).Inside? {
      InsideIsInBlock(content, cut, maxLen, Scan(content, 0, cut, Outside).at);
    }
    if InBlock(content, cut, maxLen) {
      InBlockIsInside(content, cut, maxLen);
    }
  }

  /** Every cut is within the window, except behind a first character that alone exceeds the limit. */
  lemma CutWithinWindow(content: Bytes, maxLen: nat, cut: nat)
    requires 0 < maxLen < |content| && Window(content, maxLen) <= maxLen && IsCut(content, maxLen, cut)
    ensures cut <= Window(content, maxLen) || (cut == DecodedSize(content) && maxLen < cut)
  {
    WindowFits(content, maxLen);
    if OpenFence(content, maxLen) > 0 {
      CutIsOutside(content, maxLen);
    }
  }

  /** A fence, an empty line, the closing fence, and one byte more. */
  const FENCED: Bytes := [BACKTICK, BACKTICK, BACKTICK, NEWLINE, NEWLINE, BACKTICK, BACKTICK, BACKTICK, 120]

  lemma FencedScan(limit: nat)
    requires 5 <= limit <= 8
    ensures Scan(FENCED, 0, limit, Outside) == if limit == 5 then Inside(0) else Outside
  {
    assert LineEnd(FENCED, 3) == 3;
    assert Scan(FENCED, 0, limit, Outside) == Scan(FENCED, 3, limit, Inside(0));
    assert Scan(FENCED, 3, limit, Inside(0)) == Scan(FENCED, 4, limit, Inside(0)) == Scan(FENCED, 5, limit, Inside(0));
    if limit > 5 {
      assert Scan(FENCED, 5, limit, Inside(0)) == Scan(FENCED, 8, limit, Outside);
    }
  }

  /** A text whose cut falls into a block of code: the paragraph break inside the block is preferred. */
  lemma CutInsideBlock()
    ensures Window(FENCED, 8) == 8 && IsCut(FENCED, 8, 5) && Scan(FENCED, 0, 5, Outside) == Inside(0)
  {
    FencedScan(5);
    FencedScan(8);
    hide Scan;
    var w, pattern := FENCED[..8], [NEWLINE, NEWLINE];
    EmptyLine(w);
    assert LastIndex(w, pattern) == 3;
  }

  lemma EmptyLine(w: Bytes)
    requires |w| == 8 && w[3] == w[4] == NEWLINE && forall i :: 5 <= i < 8 ==> w[i] == BACKTICK
    ensures MatchAt(w, [NEWLINE, NEWLINE], 3) && forall i :: 3 < i < 9 ==> !MatchAt(w, [NEWLINE, NEWLINE], i)
  {
    var pattern := [NEWLINE, NEWLINE];
    assert w[3..3 + |pattern|] == [w[3], w[4]];
    forall i | 3 < i < 9 ensures !MatchAt(w, pattern, i) {
      if i + 2 <= 8 {
        assert w[i..i + 2][1] == w[i + 1];
      }
    }
  }

  // ---------------------------------------------------------------- splitting

  function Joined(chunks: seq<Bytes>): Bytes {
    if chunks == [] then [] else Joined(chunks[..|chunks| - 1]) + chunks[|chunks| - 1]
  }

  /** A chunk is non-empty and fits, unless it is one character that does not. */
  predicate ChunkFits(c: Bytes, maxLen: int) {
    c != [] && (|c| <= maxLen || |c| == DecodedSize(c))
  }

  /** Each chunk reaches up to the cut of what is left, and the last one is what needs no cut. */
  ghost predicate CutInto(content: Bytes, maxLen: nat, chunks: seq<Bytes>)
    decreases |chunks|
  {
    if |content| <= maxLen then chunks == if content == [] then [] else [content]
    else
      && 0 < maxLen && Window(content, maxLen) <= maxLen
      && chunks != [] && chunks[0] <= content && IsCut(content, maxLen, |chunks[0]|)
      && CutInto(content[|chunks[0]|..], maxLen, chunks[1..])
  }

  /** Whatever the rest is cut into, the chunks so far go in front of it. */
  ghost predicate Leads(content: Bytes, maxLen: nat, chunks: seq<Bytes>, rest: Bytes) {
    forall more :: CutInto(rest, maxLen, more) ==> CutInto(content, maxLen, chunks + more)
  }

  lemma LeadsStart(content: Bytes, maxLen: nat)
    ensures Leads(content, maxLen, [], content)
  {
    hide CutInto;
    forall more | CutInto(content, maxLen, more) ensures CutInto(content, maxLen, [] + more) {
      assert [] + more == more;
    }
  }

  lemma LeadsOn(content: Bytes, maxLen: nat, chunks: seq<Bytes>, rest: Bytes, c: Bytes)
    requires Leads(content, maxLen, chunks, rest) && c <= rest && c != []
    requires if |rest| <= maxLen then c == rest
             else 0 < maxLen && Window(rest, maxLen) <= maxLen && IsCut(rest, maxLen, |c|)
    ensures Leads(content, maxLen, chunks + [c], rest[|c|..])
  {
    forall more | CutInto(rest[|c|..], maxLen, more) ensures CutInto(content, maxLen, (chunks + [c]) + more) {
      CutFirst(maxLen, rest, c, more);
      hide *;
      LeadsTo(content, maxLen, chunks, rest, [c] + more);
      assert chunks + ([c] + more) == (chunks + [c]) + more;
    }
  }

  lemma LeadsTo(content: Bytes, maxLen: nat, chunks: seq<Bytes>, rest: Bytes, more: seq<Bytes>)
    requires Leads(content, maxLen, chunks, rest) && CutInto(rest, maxLen, more)
    ensures CutInto(content, maxLen, chunks + more)
  {
  }

  lemma CutFirst(maxLen: nat, rest: Bytes, c: Bytes, more: seq<Bytes>)
    requires c <= rest && c != [] && CutInto(rest[|c|..], maxLen, more)
    requires if |rest| <= maxLen then c == rest
             else 0 < maxLen && Window(rest, maxLen) <= maxLen && IsCut(rest, maxLen, |c|)
    ensures CutInto(rest, maxLen, [c] + more)
  {
    hide IsCut, Window;
    var chunks := [c] + more;
    assert chunks[0] == c && chunks[1..] == more;
  }

  lemma CutDone(content: Bytes, maxLen: nat, chunks: seq<Bytes>)
    requires Leads(content, maxLen, chunks, [])
    ensures CutInto(content, maxLen, chunks)
  {
    assert CutInto([], maxLen, []);
    assert chunks + [] == chunks;
  }

  method SplitMessage(content: Bytes, maxLen: int) returns (chunks: seq<Bytes>)
    ensures Joined(chunks) == content
    ensures 0 < maxLen < |content| ==> CutInto(content, maxLen, chunks)
    ensures maxLen <= 0 || |content| <= maxLen ==> chunks == [content]
    ensures 0 < maxLen < |content| ==> forall i :: 0 <= i < |chunks| ==> ChunkFits(chunks[i], maxLen)
    ensures 4 <= maxLen ==> forall i :: 0 <= i < |chunks| ==> |chunks[i]| <= maxLen
    ensures Valid(content) ==> forall i :: 0 <= i < |chunks| ==> Valid(chunks[i])
  {
    hide Valid, DecodedSize, IsCut, Window, Joined, CutInto, Leads;
    if maxLen <= 0 || |content| <= maxLen {
      JoinedSnoc([], content);
      assert [] + [content] == [content];
      return [content];
    }
    chunks := [];
    var rest := content;
    JoinedSnoc([], content);
    LeadsStart(content, maxLen);
    while |rest| > 0
      invariant Joined(chunks) + rest == content && Leads(content, maxLen, chunks, rest)
      invariant forall i :: 0 <= i < |chunks| ==> ChunkFits(chunks[i], maxLen)
      invariant Valid(content) ==> Valid(rest) && forall i :: 0 <= i < |chunks| ==> Valid(chunks[i])
      decreases |rest|
    {
      if |rest| <= maxLen {
        JoinedSnoc(chunks, rest);
        LeadsOn(content, maxLen, chunks, rest, rest);
        assert rest[|rest|..] == [];
        chunks := chunks + [rest];
        rest := [];
        break;
      }
      var cut := FindCutPoint(rest, maxLen);
      CutSound(rest, maxLen, cut);
      SizeOfPrefix(rest, cut);
      JoinedSnoc(chunks, rest[..cut]);
      LeadsOn(content, maxLen, chunks, rest, rest[..cut]);
      assert rest == rest[..cut] + rest[cut..];
      chunks := chunks + [rest[..cut]];
      rest := rest[cut..];
    }
    CutDone(content, maxLen, chunks);
  }

  lemma SizeOfPrefix(s: Bytes, k: nat)
    requires 0 < k <= |s|
    ensures k == DecodedSize(s) ==> DecodedSize(s[..k]) == k
  {
  }

  lemma JoinedSnoc(chunks: seq<Bytes>, c: Bytes)
    ensures Joined(chunks + [c]) == Joined(chunks) + c && Joined([]) == []
  {
    assert (chunks + [c])[..|chunks|] == chunks;
  }
}
