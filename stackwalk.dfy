/** `FramePointerStackWalk` (player/stackwalk.h): follows the chain of saved
    frame pointers from `aBp`, reporting the return address and stack
    position of each frame after the first `aSkipFrames`, up to
    `aMaxFrames` of them. Memory is a function from byte addresses to the
    word stored there; the callback is the sequence of its calls. */
module StackWalk {

  /** The size of a `void*` in bytes on the 64-bit targets the bot runs on. */
  const WordBytes: nat := 8

  const TwoTo31: int := 0x8000_0000
  const TwoTo32: int := 0x1_0000_0000

  /** The arguments of one callback call (the closure is passed through
      unchanged and is left out). */
  datatype Frame = Frame(number: nat, pc: nat, sp: nat)

  /** The sanity test of lines 65-67 on the saved pointer `next` of the
      frame at `bp`: it must point strictly higher, not past `stackEnd`,
      and be 4-byte aligned. */
  predicate ValidNext(next: nat, bp: nat, stackEnd: nat)
  {
    bp < next <= stackEnd && next % 4 == 0
  }

  /** The frames the walk visits: from a non-null `bp` whose saved pointer
      passes the test, the chain goes on at that pointer. Each step moves
      strictly up and stays at or below `stackEnd`, so the chain is
      finite. */
  function Chain(mem: nat -> nat, bp: nat, stackEnd: nat): seq<nat>
    decreases stackEnd - bp
  {
    if bp == 0 || !ValidNext(mem(bp), bp, stackEnd) then []
    else [bp] + Chain(mem, mem(bp), stackEnd)
  }

  /** The chain starts at `bp`, each frame is followed by the pointer saved
      in it, every frame passes the sanity test, and the frame pointers
      strictly increase up to `stackEnd`. */
  lemma {:induction false} ChainIsLinked(mem: nat -> nat, bp: nat, stackEnd: nat)
    ensures var c := Chain(mem, bp, stackEnd);
      && (|c| > 0 ==> c[0] == bp)
      && (forall k :: 0 <= k < |c| ==> c[k] != 0 && ValidNext(mem(c[k]), c[k], stackEnd))
      && (forall k :: 0 < k < |c| ==> c[k] == mem(c[k - 1]))
      && (forall k, l :: 0 <= k < l < |c| ==> c[k] < c[l] <= stackEnd)
    decreases stackEnd - bp
  {
    var c := Chain(mem, bp, stackEnd);
    if |c| > 0 {
      ChainIsLinked(mem, mem(bp), stackEnd);
      var rest := Chain(mem, mem(bp), stackEnd);
      assert c == [bp] + rest;
      assert forall k :: 0 < k < |c| ==> c[k] == rest[k - 1];
      assert |rest| > 0 ==> rest[0] == mem(bp);
    }
  }

  /** A null frame pointer yields no frames. */
  lemma NullChainIsEmpty(mem: nat -> nat, stackEnd: nat)
    ensures Chain(mem, 0, stackEnd) == []
  {
  }

  /** `int32_t skip = aSkipFrames`: a count of 2^31 or more turns negative
      and then skips nothing. */
  function SkipCount(skipFrames: nat): (s: int)
    requires skipFrames < TwoTo32
    ensures 0 <= skipFrames < TwoTo31 ==> s == skipFrames
    ensures TwoTo31 <= skipFrames ==> s < 0
  {
    if skipFrames < TwoTo31 then skipFrames else skipFrames - TwoTo32
  }

  /** The calls reporting `frames` in order: numbered from 1, the word
      after each frame pointer as pc, the address two words above it as
      sp. */
  function Reported(mem: nat -> nat, frames: seq<nat>): seq<Frame>
  {
    seq(|frames|, j requires 0 <= j < |frames| => Frame(j + 1, mem(frames[j] + WordBytes), frames[j] + 2 * WordBytes))
  }

  /** What the walk reports: the frames of the chain after the skipped
      ones, at most `maxFrames` of them unless that is 0, numbered from 1,
      each with the word after the frame pointer as pc and the address two
      words above it as sp. */
  function Walk(mem: nat -> nat, skipFrames: nat, maxFrames: nat, bp: nat, stackEnd: nat): seq<Frame>
    requires skipFrames < TwoTo32
  {
    var c := Chain(mem, bp, stackEnd);
    var s := Skipped(SkipCount(skipFrames), |c|);
    var fs := c[s..];
    Reported(mem, if maxFrames != 0 && maxFrames < |fs| then fs[..maxFrames] else fs)
  }

  /** How many of `n` frames a skip count skips. */
  function Skipped(skip: int, n: nat): (s: nat)
    ensures s <= n
    ensures skip <= 0 ==> s == 0
    ensures 0 <= skip <= n ==> s == skip
  {
    if skip <= 0 then 0 else if skip < n then skip else n
  }

  /** A null `aBp` makes no calls. */
  lemma WalkFromNullIsEmpty(mem: nat -> nat, skipFrames: nat, maxFrames: nat, stackEnd: nat)
    requires skipFrames < TwoTo32
    ensures Walk(mem, skipFrames, maxFrames, 0, stackEnd) == []
  {
  }

  /** The calls report consecutive chain frames starting right after the
      skipped ones, numbered 1, 2, ..., with pc the word after the frame
      pointer and sp two words above it; there are as many as the chain has
      after the skip, but never more than a non-zero `maxFrames`. */
  lemma WalkReportsFrames(mem: nat -> nat, skipFrames: nat, maxFrames: nat, bp: nat, stackEnd: nat)
    requires skipFrames < TwoTo32
    ensures var c := Chain(mem, bp, stackEnd);
      var s := Skipped(SkipCount(skipFrames), |c|);
      var w := Walk(mem, skipFrames, maxFrames, bp, stackEnd);
      && |w| == (if maxFrames != 0 && maxFrames < |c| - s then maxFrames else |c| - s)
      && (maxFrames != 0 ==> |w| <= maxFrames)
      && (forall j :: 0 <= j < |w| ==>
            w[j] == Frame(j + 1, mem(c[s + j] + WordBytes), c[s + j] + 2 * WordBytes))
  {
  }

  /** Lines 48-85. */
  method FramePointerStackWalk(mem: nat -> nat, aSkipFrames: nat, aMaxFrames: nat, aBp: nat, aStackEnd: nat)
    returns (calls: seq<Frame>)
    requires aSkipFrames < TwoTo32 && aMaxFrames < TwoTo32
    ensures calls == Walk(mem, aSkipFrames, aMaxFrames, aBp, aStackEnd)
  {
    ghost var c := Chain(mem, aBp, aStackEnd);
    ghost var s0 := SkipCount(aSkipFrames);
    ghost var i := 0;
    var skip := SkipCount(aSkipFrames);
    var numFrames := 0;
    var bp: nat := aBp;
    calls := [];
    while bp != 0
      invariant 0 <= i <= |c| && Chain(mem, bp, aStackEnd) == c[i..]
      invariant skip == s0 - i
      invariant calls == Reported(mem, c[Skipped(s0, i)..i]) && numFrames == |calls|
      invariant aMaxFrames != 0 ==> |calls| < aMaxFrames
      decreases |c| - i
    {
      var next: nat := mem(bp);
      if next <= bp || next > aStackEnd || next % 4 != 0 {
        assert |c[i..]| == 0;
        WalkOfWholeChain(mem, aSkipFrames, aMaxFrames, aBp, aStackEnd, calls);
        break;
      }
      var pc := mem(bp + WordBytes);
      bp := bp + 2 * WordBytes;
      assert c[i] == bp - 2 * WordBytes && c[i + 1..] == Chain(mem, next, aStackEnd) by {
        assert c[i..] == [c[i]] + c[i + 1..];
      }
      ghost var before := c[Skipped(s0, i)..i];
      i := i + 1;
      skip := skip - 1;
      if skip < 0 {
        numFrames := numFrames + 1;
        assert c[Skipped(s0, i)..i] == before + [c[i - 1]];
        ReportedGrows(mem, before, c[i - 1]);
        calls := calls + [Frame(numFrames, pc, bp)];
        if aMaxFrames != 0 && numFrames == aMaxFrames {
          WalkOfCappedChain(mem, aSkipFrames, aMaxFrames, aBp, aStackEnd, i, calls);
          break;
        }
      } else {
        assert c[Skipped(s0, i)..i] == [];
      }
      bp := next;
    }
    if bp == 0 {
      assert |c[i..]| == 0;
      WalkOfWholeChain(mem, aSkipFrames, aMaxFrames, aBp, aStackEnd, calls);
    }
  }

  lemma ReportedGrows(mem: nat -> nat, frames: seq<nat>, f: nat)
    ensures Reported(mem, frames + [f]) == Reported(mem, frames) + [Frame(|frames| + 1, mem(f + WordBytes), f + 2 * WordBytes)]
  {
  }

  /** The walk ran off the end of the chain before reaching the cap. */
  lemma WalkOfWholeChain(mem: nat -> nat, skipFrames: nat, maxFrames: nat, bp: nat, stackEnd: nat, calls: seq<Frame>)
    requires skipFrames < TwoTo32
    requires var c := Chain(mem, bp, stackEnd);
      calls == Reported(mem, c[Skipped(SkipCount(skipFrames), |c|)..|c|])
    requires maxFrames != 0 ==> |calls| < maxFrames
    ensures calls == Walk(mem, skipFrames, maxFrames, bp, stackEnd)
  {
    var c := Chain(mem, bp, stackEnd);
    assert c[Skipped(SkipCount(skipFrames), |c|)..|c|] == c[Skipped(SkipCount(skipFrames), |c|)..];
  }

  /** The walk stopped on its `maxFrames`-th report at chain position i. */
  lemma WalkOfCappedChain(mem: nat -> nat, skipFrames: nat, maxFrames: nat, bp: nat, stackEnd: nat, i: nat, calls: seq<Frame>)
    requires skipFrames < TwoTo32
    requires var c := Chain(mem, bp, stackEnd);
      && i <= |c| && calls == Reported(mem, c[Skipped(SkipCount(skipFrames), i)..i])
    requires maxFrames != 0 && |calls| == maxFrames
    ensures calls == Walk(mem, skipFrames, maxFrames, bp, stackEnd)
  {
    var c := Chain(mem, bp, stackEnd);
    var s0 := SkipCount(skipFrames);
    assert Skipped(s0, i) == Skipped(s0, |c|);
    var s := Skipped(s0, |c|);
    assert c[s..][..maxFrames] == c[s..i];
  }
}
