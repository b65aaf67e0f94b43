/**
The playback resampler (engine/internal/audio/wasapi/render.go): linear interpolation
of a stream pulled in pieces. The fractional position, a float64 in the program, is
an exact fraction posNum / outRate here, and interpolated values are exact reals. A
frame is its list of channel samples.
*/
module Resampler {
  import opened Arithmetic
  import opened Common

  type Frame = seq<int>

  /** math.Round: to the nearest integer, halves away from zero. */
  function Round(v: real): (r: int)
  {
    if v >= 0.0 then (v + 0.5).Floor else -((-v + 0.5).Floor)
  }

  /** s16FromF64, read back as a signed sample. */
  function S16FromF64(v: real): (s: int)
    ensures -32768 <= s <= 32767
    ensures v >= 1.0 ==> s == 32767
    ensures v <= -1.0 ==> s == -32768
    ensures 0.0 <= v < 1.0 ==> s as real - 0.5 <= v * 32767.0 < s as real + 0.5
    ensures -1.0 < v < 0.0 ==> s as real - 0.5 < v * 32767.0 <= s as real + 0.5
  {
    if v >= 1.0 then 32767
    else if v <= -1.0 then -32768
    else
      assert -32767.0 <= v * 32767.0 <= 32767.0;
      Round(v * 32767.0)
  }

  lemma S16Monotone(v: real, w: real)
    requires v <= w
    ensures S16FromF64(v) <= S16FromF64(w)
  {
    if -1.0 < v && w < 1.0 { assert v * 32767.0 <= w * 32767.0; }
  }

  /** One output sample between source samples a and b, at fraction num / den. */
  function Blend(a: int, b: int, num: nat, den: nat): (s: int)
    requires num < den
    ensures -32768 <= s <= 32767
  {
    S16FromF64(BlendReal(a, b, num, den) / 32768.0)
  }

  function BlendReal(a: int, b: int, num: nat, den: nat): (v: real)
    requires num < den
  {
    a as real + (b - a) as real * (num as real / den as real)
  }

  /** THEOREM (no overshoot). An output sample lies between what its two neighbours
      alone would give, and at fraction zero is what the left one gives. */
  lemma BlendBetween(a: int, b: int, num: nat, den: nat)
    requires num < den
    ensures Blend(a, a, num, den) <= Blend(a, b, num, den) <= Blend(b, b, num, den)
         || Blend(b, b, num, den) <= Blend(a, b, num, den) <= Blend(a, a, num, den)
    ensures num == 0 ==> Blend(a, b, 0, den) == S16FromF64(a as real / 32768.0)
  {
    BlendRealBetween(a, b, num, den);
    BlendRealBetween(a, a, num, den);
    BlendRealBetween(b, b, num, den);
    var v := BlendReal(a, b, num, den) / 32768.0;
    var left, right := a as real / 32768.0, b as real / 32768.0;
    if a <= b {
      S16Monotone(left, v);
      S16Monotone(v, right);
    } else {
      S16Monotone(right, v);
      S16Monotone(v, left);
    }
  }

  lemma BlendRealBetween(a: int, b: int, num: nat, den: nat)
    requires num < den
    ensures a <= b ==> a as real <= BlendReal(a, b, num, den) <= b as real
    ensures b <= a ==> b as real <= BlendReal(a, b, num, den) <= a as real
    ensures num == 0 ==> BlendReal(a, b, 0, den) == a as real
  {
    var t := num as real / den as real;
    Fraction(num, den);
    if a <= b {
      Scale((b - a) as real, t);
    } else {
      Scale((a - b) as real, t);
      assert (b - a) as real == -((a - b) as real);
      NegativeProduct((a - b) as real, t);
    }
  }

  lemma NegativeProduct(d: real, t: real)
    ensures (-d) * t == -(d * t)
  {
  }

  lemma Fraction(num: nat, den: nat)
    requires num < den
    ensures 0.0 <= num as real / den as real < 1.0 && (num == 0 ==> num as real / den as real == 0.0)
  {
  }

  lemma Scale(d: real, t: real)
    requires d >= 0.0 && 0.0 <= t < 1.0
    ensures 0.0 <= d * t <= d
  {
    assert d * (1.0 - t) >= 0.0;
  }

  // ---- batch resampling

  datatype Rates = Rates(inRate: nat, outRate: nat, channels: nat)
  {
    predicate Valid() { inRate > 0 && outRate > 0 && channels > 0 }
  }

  ghost predicate Shaped(rt: Rates, src: seq<Frame>)
  {
    forall i :: 0 <= i < |src| ==> |src[i]| == rt.channels
  }

  /** The frame at position p / outRate of the source. */
  function FrameAt(rt: Rates, src: seq<Frame>, p: nat): (f: Frame)
    requires rt.Valid() && p / rt.outRate + 1 < |src|
    requires |src[p / rt.outRate]| == |src[p / rt.outRate + 1]| == rt.channels
  {
    var i, num := p / rt.outRate, p % rt.outRate;
    seq(rt.channels, c requires 0 <= c < rt.channels => Blend(src[i][c], src[i + 1][c], num, rt.outRate))
  }

  function Silence(rt: Rates): (f: Frame)
    ensures |f| == rt.channels && forall c :: 0 <= c < |f| ==> f[c] == 0
  {
    seq(rt.channels, _ => 0)
  }

  /** Output frame k: the interpolation of the whole source at k * inRate / outRate. */
  ghost predicate IsBatch(rt: Rates, src: seq<Frame>, k: nat, f: Frame)
    requires rt.Valid() && Shaped(rt, src)
  {
    var p := Position(rt, k);
    p / rt.outRate + 1 < |src| && f == FrameAt(rt, src, p)
  }

  function Position(rt: Rates, k: nat): (p: nat)
  {
    MulNonNegative(k, rt.inRate);
    k * rt.inRate
  }

  /** Frames k, k+1, ... of the batch formula. */
  ghost predicate AreBatch(rt: Rates, src: seq<Frame>, k: nat, out: seq<Frame>)
    requires rt.Valid() && Shaped(rt, src)
  {
    forall i :: 0 <= i < |out| ==> IsBatch(rt, src, k + i, out[i])
  }

  /** More source behind does not change what is already determined. */
  lemma BatchExtends(rt: Rates, src: seq<Frame>, more: seq<Frame>, k: nat, out: seq<Frame>)
    requires rt.Valid() && Shaped(rt, src) && Shaped(rt, more) && AreBatch(rt, src, k, out)
    ensures Shaped(rt, src + more) && AreBatch(rt, src + more, k, out)
  {
    forall i | 0 <= i < |out| ensures IsBatch(rt, src + more, k + i, out[i]) {
      assert IsBatch(rt, src, k + i, out[i]);
    }
  }

  // ---- the slice bound

  /** How many whole source frames the step after output frame k passes over. */
  function Passed(rt: Rates, k: nat): (n: nat)
    requires rt.Valid()
  {
    (Position(rt, k) % rt.outRate + rt.inRate) / rt.outRate
  }

  /** THEOREM (slice bound). With two frames at hand, which is all the loop makes sure
      of, no step runs past the pending frames if and only if inRate <= 2 * outRate. */
  lemma SliceBoundExact(rt: Rates)
    requires rt.Valid()
    ensures (forall k: nat :: Passed(rt, k) <= 2) <==> rt.inRate <= 2 * rt.outRate
  {
    if rt.inRate <= 2 * rt.outRate {
      forall k: nat ensures Passed(rt, k) <= 2 {
        DivBelow(Position(rt, k) % rt.outRate + rt.inRate, 3, rt.outRate);
      }
    } else if rt.inRate >= 3 * rt.outRate {
      DivAtLeast(Position(rt, 0) % rt.outRate + rt.inRate, 3, rt.outRate);
      assert Passed(rt, 0) >= 3;
    } else {
      var k := FirstOverrun(rt);
      assert Passed(rt, k) >= 3;
    }
  }

  /** The fraction grows by inRate - 2 * outRate a step until it spills over. */
  lemma FirstOverrun(rt: Rates) returns (k: nat)
    requires rt.Valid() && 2 * rt.outRate < rt.inRate < 3 * rt.outRate
    ensures Passed(rt, k) >= 3
  {
    var e := rt.inRate - 2 * rt.outRate;
    k := (rt.outRate - 1) / e;
    var left := (rt.outRate - 1) % e;
    assert rt.outRate - 1 == k * e + left;
    assert k * rt.inRate == (2 * k) * rt.outRate + k * e;
    MulNonNegative(k, e);
    DivModUnique(k * rt.inRate, rt.outRate, 2 * k, k * e);
    DivAtLeast(k * e + rt.inRate, 3, rt.outRate);
  }

  // ---- the streaming resampler

  /** What the first n callbacks delivered, end to end. */
  ghost function Joined(pulls: seq<seq<Frame>>, n: nat): (s: seq<Frame>)
    requires n <= |pulls|
  {
    if n == 0 then [] else Joined(pulls, n - 1) + pulls[n - 1]
  }

  ghost predicate AllShaped(rt: Rates, pulls: seq<seq<Frame>>)
  {
    forall i :: 0 <= i < |pulls| ==> Shaped(rt, pulls[i])
  }

  /** The fraction kept and the frames dropped add up to the position of frame k. */
  ghost predicate Stands(rt: Rates, k: nat, posNum: nat, dropped: nat)
    requires rt.Valid()
  {
    posNum < rt.outRate && posNum + dropped * rt.outRate == Position(rt, k)
  }

  /** Reading at fraction r of what is left after dropping is reading the whole source. */
  lemma FrameOfSource(rt: Rates, src: seq<Frame>, dropped: nat, r: nat, k: nat)
    requires rt.Valid() && Shaped(rt, src) && Stands(rt, k, r, dropped) && dropped + 2 <= |src|
    ensures r / rt.outRate == 0
    ensures IsBatch(rt, src, k, FrameAt(rt, src[dropped..], r))
  {
    var p := Position(rt, k);
    DivModUnique(p, rt.outRate, dropped, r);
    DivModUnique(r, rt.outRate, 0, r);
  }

  lemma NextPosition(rt: Rates, k: nat, posNum: nat, dropped: nat)
    requires rt.Valid() && Stands(rt, k, posNum, dropped)
    ensures posNum / rt.outRate == 0
    ensures var moved := posNum + rt.inRate;
            && 0 <= moved / rt.outRate && 0 <= moved % rt.outRate
            && Stands(rt, k + 1, moved % rt.outRate, dropped + moved / rt.outRate)
    ensures (posNum + rt.inRate) / rt.outRate == Passed(rt, k)
  {
    DivModUnique(Position(rt, k), rt.outRate, dropped, posNum);
    DivModUnique(posNum, rt.outRate, 0, posNum);
    var moved := posNum + rt.inRate;
    assert (dropped + moved / rt.outRate) * rt.outRate == dropped * rt.outRate + (moved / rt.outRate) * rt.outRate;
  }

  /** Starvation comes only when the next batch frame is not yet determined. */
  lemma NotYetDetermined(rt: Rates, src: seq<Frame>, dropped: nat, posNum: nat, k: nat)
    requires rt.Valid() && Stands(rt, k, posNum, dropped)
    requires |src| < dropped + 2
    ensures Position(rt, k) / rt.outRate + 1 >= |src|
  {
    DivModUnique(Position(rt, k), rt.outRate, dropped, posNum);
  }

  lemma DropDrop(src: seq<Frame>, a: nat, b: nat)
    requires a <= |src| && b <= |src| - a
    ensures src[a..][b..] == src[a + b..]
  {
  }

  lemma OneMore(rt: Rates, src: seq<Frame>, emitted: seq<Frame>, f: Frame)
    requires rt.Valid() && Shaped(rt, src) && AreBatch(rt, src, 0, emitted)
    requires IsBatch(rt, src, |emitted|, f)
    ensures AreBatch(rt, src, 0, emitted + [f])
  {
  }

  // ---- one call, as a function of the state

  /** The two fields of the object, and what a reset forgets: everything pulled since the
      last one, everything produced, and how many frames have been passed over. */
  datatype Playing = Playing(pending: seq<Frame>, posNum: nat, src: seq<Frame>, emitted: seq<Frame>, dropped: nat)

  const RESET := Playing([], 0, [], [], 0)

  /** The last clause is the streaming theorem: whatever the calls and the callbacks
      were, what has been produced since the last reset is the batch resampling. */
  ghost predicate Inv(rt: Rates, s: Playing)
  {
    && rt.Valid() && Shaped(rt, s.src)
    && s.dropped <= |s.src| && s.pending == s.src[s.dropped..]
    && Stands(rt, |s.emitted|, s.posNum, s.dropped)
    && AreBatch(rt, s.src, 0, s.emitted)
  }

  predicate Ready(rt: Rates, s: Playing)
    requires rt.Valid()
  {
    |s.pending| >= s.posNum / rt.outRate + 2
  }

  /** The output frame when the loop has two frames at hand. */
  function Interpolated(rt: Rates, s: Playing): (f: Frame)
    requires rt.Valid() && Shaped(rt, s.pending) && Ready(rt, s)
  {
    DivAtLeast(s.posNum, 0, rt.outRate);
    FrameAt(rt, s.pending, s.posNum)
  }

  /** One callback's frames go behind the pending ones. */
  function Taken(s: Playing, frames: seq<Frame>): (r: Playing)
  {
    s.(pending := s.pending + frames, src := s.src + frames)
  }

  datatype Filling = Filling(now: Playing, used: nat, starved: bool)

  /** The inner loop: callbacks until two frames are at hand, or one brings nothing. */
  function Filled(rt: Rates, s: Playing, pulls: seq<seq<Frame>>, from: nat): (r: Filling)
    requires rt.Valid() && AllShaped(rt, pulls) && from <= |pulls| && Shaped(rt, s.pending)
    ensures r.used <= |pulls| && Shaped(rt, r.now.pending) && (!r.starved ==> Ready(rt, r.now))
    decreases |pulls| - from
  {
    if Ready(rt, s) then Filling(s, from, false)
    else if from == |pulls| || |pulls[from]| == 0 then Filling(s, from, true)
    else Filled(rt, Taken(s, pulls[from]), pulls, from + 1)
  }

  /** The step behind an output frame: how many frames it passes over. */
  function Consumed(rt: Rates, posNum: nat): (n: nat)
    requires rt.Valid()
  {
    DivAtLeast(posNum + rt.inRate, 0, rt.outRate);
    (posNum + rt.inRate) / rt.outRate
  }

  /** The step itself, when it stays within the pending frames. */
  function Stepped(rt: Rates, s: Playing, f: Frame): (r: Playing)
    requires rt.Valid() && Consumed(rt, s.posNum) <= |s.pending|
  {
    var n := Consumed(rt, s.posNum);
    Playing(s.pending[n..], (s.posNum + rt.inRate) % rt.outRate, s.src, s.emitted + [f], s.dropped + n)
  }

  datatype Outcome = Done | Starved | Panicked

  /** heard: how many of the frames put out are not the silence of starvation. */
  datatype Pulling = Pulling(now: Playing, out: seq<Frame>, outcome: Outcome, used: nat, heard: nat)

  /** pull, with `want` frames still to come. Entry i of `pulls` is what callback i
      delivers; past its end, nothing. */
  function Pulled(rt: Rates, s: Playing, pulls: seq<seq<Frame>>, from: nat, want: nat): (r: Pulling)
    requires rt.Valid() && AllShaped(rt, pulls) && from <= |pulls| && Shaped(rt, s.pending)
    ensures r.used <= |pulls| && Shaped(rt, r.now.pending)
    decreases want
  {
    if want == 0 then Pulling(s, [], Done, from, 0)
    else
      var filled := Filled(rt, s, pulls, from);
      if filled.starved then Pulling(RESET, Repeat(Silence(rt), want), Starved, filled.used, 0)
      else
        var f := Interpolated(rt, filled.now);
        if Consumed(rt, filled.now.posNum) > |filled.now.pending| then
          Pulling(filled.now.(posNum := filled.now.posNum + rt.inRate), [f], Panicked, filled.used, 1)
        else Behind([f], Pulled(rt, Stepped(rt, filled.now, f), pulls, filled.used, want - 1))
  }

  /** What is put out behind earlier frames. */
  function Behind(out: seq<Frame>, r: Pulling): (r': Pulling)
  {
    r.(out := out + r.out, heard := |out| + r.heard)
  }

  // ---- what a call does

  lemma TakenKeeps(rt: Rates, s: Playing, frames: seq<Frame>)
    requires Inv(rt, s) && Shaped(rt, frames)
    ensures Inv(rt, Taken(s, frames))
  {
    BatchExtends(rt, s.src, frames, 0, s.emitted);
    assert s.src[s.dropped..] + frames == (s.src + frames)[s.dropped..];
  }

  lemma {:induction false} FilledKeeps(rt: Rates, s: Playing, pulls: seq<seq<Frame>>, from: nat, base: seq<Frame>)
    requires Inv(rt, s) && AllShaped(rt, pulls) && from <= |pulls| && s.src == base + Joined(pulls, from)
    ensures Shaped(rt, s.pending)
    ensures var r := Filled(rt, s, pulls, from);
            && Inv(rt, r.now) && r.now.src == base + Joined(pulls, r.used) && r.now.emitted == s.emitted
            && (r.starved ==> r.used == |pulls| || pulls[r.used] == [])
            && (r.starved ==> Position(rt, |s.emitted|) / rt.outRate + 1 >= |r.now.src|)
    decreases |pulls| - from
  {
    DivModUnique(s.posNum, rt.outRate, 0, s.posNum);
    if !Ready(rt, s) {
      if from == |pulls| || |pulls[from]| == 0 {
        NotYetDetermined(rt, s.src, s.dropped, s.posNum, |s.emitted|);
      } else {
        TakenKeeps(rt, s, pulls[from]);
        FilledKeeps(rt, Taken(s, pulls[from]), pulls, from + 1, base);
      }
    }
  }

  /** The frame put out is the batch one; the step passes over as many frames as the
      batch positions do. */
  lemma ReadyStep(rt: Rates, s: Playing)
    requires Inv(rt, s) && Ready(rt, s)
    ensures Shaped(rt, s.pending)
    ensures var f := Interpolated(rt, s);
            && IsBatch(rt, s.src, |s.emitted|, f) && Consumed(rt, s.posNum) == Passed(rt, |s.emitted|)
            && |s.pending| >= 2
            && (Consumed(rt, s.posNum) <= |s.pending| ==> Inv(rt, Stepped(rt, s, f)))
  {
    FrameOfSource(rt, s.src, s.dropped, s.posNum, |s.emitted|);
    NextPosition(rt, |s.emitted|, s.posNum, s.dropped);
    var f := Interpolated(rt, s);
    OneMore(rt, s.src, s.emitted, f);
    if Consumed(rt, s.posNum) <= |s.pending| { DropDrop(s.src, s.dropped, Consumed(rt, s.posNum)); }
  }

  /** What a call started in a state with history `s` is good for. */
  ghost predicate Good(rt: Rates, s: Playing, base: seq<Frame>, pulls: seq<seq<Frame>>, want: nat, r: Pulling)
    requires rt.Valid()
  {
    r.used <= |pulls| &&
    var all := base + Joined(pulls, r.used);
    match r.outcome
    case Done =>
      && Inv(rt, r.now) && |r.out| == r.heard == want
      && r.now.src == all && r.now.emitted == s.emitted + r.out
    case Starved =>
      && r.now == RESET && |r.out| == want && r.heard < want
      && (r.used == |pulls| || pulls[r.used] == [])
      && Shaped(rt, all) && AreBatch(rt, all, 0, s.emitted + r.out[..r.heard])
      && Position(rt, |s.emitted| + r.heard) / rt.outRate + 1 >= |all|
      && forall j :: r.heard <= j < want ==> r.out[j] == Silence(rt)
    case Panicked =>
      && 0 < |r.out| == r.heard <= want && Shaped(rt, all) && AreBatch(rt, all, 0, s.emitted + r.out)
      && Passed(rt, |s.emitted| + r.heard - 1) > |r.now.pending| >= 2
  }

  /** THEOREM (streaming is batch). From any state in which what was put out since the
      last reset is the batch resampling, a call puts out the next batch frames; on
      starvation it falls silent exactly where the frames pulled stop determining the
      next one, and resets; and it fails at a step that passes over more frames than are
      pending. */
  lemma {:induction false} PullIsBatch(
      rt: Rates, s: Playing, pulls: seq<seq<Frame>>, from: nat, want: nat, base: seq<Frame>)
    requires Inv(rt, s) && AllShaped(rt, pulls) && from <= |pulls| && s.src == base + Joined(pulls, from)
    ensures Shaped(rt, s.pending) && Good(rt, s, base, pulls, want, Pulled(rt, s, pulls, from, want))
    decreases want
  {
    FilledKeeps(rt, s, pulls, from, base);
    if want > 0 {
      var filled := Filled(rt, s, pulls, from);
      if filled.starved {
        assert s.emitted + Repeat(Silence(rt), want)[..0] == s.emitted;
      } else {
        ReadyStep(rt, filled.now);
        var f := Interpolated(rt, filled.now);
        if Consumed(rt, filled.now.posNum) > |filled.now.pending| {
          OneMore(rt, filled.now.src, s.emitted, f);
        } else {
          var next := Stepped(rt, filled.now, f);
          PullIsBatch(rt, next, pulls, filled.used, want - 1, base);
          GoodBehind(rt, s, next, f, base, pulls, want, Pulled(rt, next, pulls, filled.used, want - 1));
        }
      }
    }
  }

  /** A call's first frame, and what the rest of the call is good for. */
  lemma GoodBehind(
      rt: Rates, s: Playing, next: Playing, f: Frame, base: seq<Frame>, pulls: seq<seq<Frame>>, want: nat, r: Pulling)
    requires rt.Valid() && want > 0 && next.emitted == s.emitted + [f]
    requires Good(rt, next, base, pulls, want - 1, r)
    ensures Good(rt, s, base, pulls, want, Behind([f], r))
  {
    assert s.emitted + [f] + r.out == s.emitted + ([f] + r.out);
    if r.outcome == Starved {
      assert ([f] + r.out)[..r.heard + 1] == [f] + r.out[..r.heard];
      assert s.emitted + [f] + r.out[..r.heard] == s.emitted + ([f] + r.out[..r.heard]);
    }
  }

  /** Frames put out behind frames put out. */
  lemma BehindAgain(out: seq<Frame>, f: Frame, out': seq<Frame>, r: Pulling)
    requires out' == out + [f]
    ensures Behind(out, Behind([f], r)) == Behind(out', r)
    ensures Behind([], r) == r && (r.out == [] ==> Behind(out, r).out == out)
  {
    assert out + ([f] + r.out) == out + [f] + r.out;
  }

  // ---- the object

  class S16Resampler {
    const rt: Rates
    var pending: seq<Frame>
    var posNum: nat
    ghost var src: seq<Frame>
    ghost var emitted: seq<Frame>
    ghost var dropped: nat

    ghost function View(): (s: Playing)
      reads this
    {
      Playing(pending, posNum, src, emitted, dropped)
    }

    ghost predicate Valid()
      reads this
    {
      Inv(rt, View())
    }

    constructor (inRate: nat, channels: nat, outRate: nat)
      requires inRate > 0 && channels > 0 && outRate > 0
      ensures rt == Rates(inRate, outRate, channels) && View() == RESET && Valid()
    {
      rt := Rates(inRate, outRate, channels);
      pending, posNum, src, emitted, dropped := [], 0, [], [], 0;
    }

    method Fill(pulls: seq<seq<Frame>>, from: nat) returns (used: nat, starved: bool)
      requires rt.Valid() && AllShaped(rt, pulls) && from <= |pulls| && Shaped(rt, pending)
      modifies this
      ensures Filling(View(), used, starved) == Filled(rt, old(View()), pulls, from)
    {
      used, starved := from, false;
      while |pending| < posNum / rt.outRate + 2
        invariant used <= |pulls| && Shaped(rt, pending)
        invariant Filled(rt, View(), pulls, used) == Filled(rt, old(View()), pulls, from)
        decreases |pulls| - used
      {
        if used == |pulls| || |pulls[used]| == 0 {
          starved := true;
          return;
        }
        pending, src := pending + pulls[used], src + pulls[used];
        used := used + 1;
      }
    }

    function Interpolate(): (f: Frame)
      requires rt.Valid() && Shaped(rt, pending) && |pending| >= posNum / rt.outRate + 2
      reads this
      ensures f == Interpolated(rt, View())
    {
      DivAtLeast(posNum, 0, rt.outRate);
      FrameAt(rt, pending, posNum)
    }

    /** Move on behind output frame f, unless that runs past the pending frames. */
    method Advance(ghost f: Frame) returns (ok: bool)
      requires rt.Valid()
      modifies this
      ensures ok <==> Consumed(rt, old(posNum)) <= old(|pending|)
      ensures ok ==> View() == Stepped(rt, old(View()), f)
      ensures !ok ==> View() == old(View()).(posNum := old(posNum) + rt.inRate)
    {
      var consumed := Consumed(rt, posNum);
      ghost var next := if consumed <= |pending| then Stepped(rt, View(), f) else View();
      posNum := posNum + rt.inRate;
      ok := consumed <= |pending|;
      if ok {
        pending, posNum := pending[consumed..], posNum % rt.outRate;
        emitted, dropped := next.emitted, next.dropped;
      }
    }

    /** pull. `heard` is how many of the frames are not the silence of starvation. */
    method Pull(pulls: seq<seq<Frame>>, wantFrames: nat)
      returns (out: seq<Frame>, outcome: Outcome, used: nat, ghost heard: nat)
      requires Valid() && AllShaped(rt, pulls)
      modifies this
      ensures Shaped(rt, old(pending))
      ensures Pulling(View(), out, outcome, used, heard) == Pulled(rt, old(View()), pulls, 0, wantFrames)
      ensures Good(rt, old(View()), old(src), pulls, wantFrames, Pulling(View(), out, outcome, used, heard))
    {
      PullIsBatch(rt, View(), pulls, 0, wantFrames, src);
      out, outcome, used, heard := PullFrames(pulls, wantFrames);
    }

    /** One turn of the loop, with `left` more frames to come behind this one's. */
    method Turn(pulls: seq<seq<Frame>>, from: nat, ghost left: nat) returns (f: Frame, outcome: Outcome, used: nat)
      requires rt.Valid() && Shaped(rt, pending) && AllShaped(rt, pulls) && from <= |pulls|
      modifies this
      ensures used <= |pulls| && Shaped(rt, pending)
      ensures outcome == Done ==>
        Pulled(rt, old(View()), pulls, from, left + 1) == Behind([f], Pulled(rt, View(), pulls, used, left))
      ensures outcome == Panicked ==>
        Pulled(rt, old(View()), pulls, from, left + 1) == Pulling(View(), [f], Panicked, used, 1)
      ensures outcome == Starved ==> View() == RESET
      ensures outcome == Starved ==>
        Pulled(rt, old(View()), pulls, from, left + 1) ==
        Pulling(RESET, Repeat(Silence(rt), left + 1), Starved, used, 0)
    {
      var starved;
      used, starved := Fill(pulls, from);
      if starved {
        pending, posNum, src, emitted, dropped := [], 0, [], [], 0;
        return Silence(rt), Starved, used;
      }
      f := Interpolate();
      var ok := Advance(f);
      outcome := if ok then Done else Panicked;
    }

    /** The loop of pull. */
    method PullFrames(pulls: seq<seq<Frame>>, wantFrames: nat)
      returns (out: seq<Frame>, outcome: Outcome, used: nat, ghost heard: nat)
      requires rt.Valid() && Shaped(rt, pending) && AllShaped(rt, pulls)
      modifies this
      ensures Pulling(View(), out, outcome, used, heard) == Pulled(rt, old(View()), pulls, 0, wantFrames)
    {
      ghost var whole := Pulled(rt, View(), pulls, 0, wantFrames);
      out, outcome, used, heard := [], Done, 0, 0;
      var left := wantFrames;
      BehindAgain([], [], [[]], whole);
      while left > 0
        invariant used <= |pulls| && Shaped(rt, pending) && heard == |out| && outcome == Done
        invariant Behind(out, Pulled(rt, View(), pulls, used, left)) == whole
      {
        left := left - 1;
        ghost var put := out;
        var f;
        f, outcome, used := Turn(pulls, used, left);
        if outcome == Starved {
          out := out + Repeat(Silence(rt), left + 1);
          return;
        }
        out, heard := out + [f], heard + 1;
        if outcome == Panicked {
          return;
        }
        BehindAgain(put, f, out, Pulled(rt, View(), pulls, used, left));
      }
      BehindAgain(out, [], out + [[]], Pulled(rt, View(), pulls, used, 0));
    }
  }

  // ---- runs of calls

  datatype Call = Call(pulls: seq<seq<Frame>>, want: nat)

  ghost predicate CallsShaped(rt: Rates, calls: seq<Call>)
  {
    forall i :: 0 <= i < |calls| ==> AllShaped(rt, calls[i].pulls)
  }

  /** The frames the temporary buffer of a callback has room for. */
  const CALLBACK_FRAMES := 4096

  ghost predicate Deliverable(rt: Rates, calls: seq<Call>)
  {
    CallsShaped(rt, calls) && forall i :: 0 <= i < |calls| ==> WithinBuffer(calls[i].pulls)
  }

  ghost predicate WithinBuffer(pulls: seq<seq<Frame>>)
  {
    forall i :: 0 <= i < |pulls| ==> |pulls[i]| <= CALLBACK_FRAMES
  }

  /** What calls made one after the other put out, and whether any of them starved or
      ran past the pending frames, which ends the run. */
  datatype Played = Played(now: Playing, out: seq<Frame>, starved: bool, panicked: bool)

  function Run(rt: Rates, s: Playing, calls: seq<Call>): (r: Played)
    requires rt.Valid() && CallsShaped(rt, calls) && Shaped(rt, s.pending)
    decreases |calls|
  {
    if calls == [] then Played(s, [], false, false)
    else
      var first := Pulled(rt, s, calls[0].pulls, 0, calls[0].want);
      if first.outcome == Panicked then Played(first.now, first.out, false, true)
      else
        var rest := Run(rt, first.now, calls[1..]);
        rest.(out := first.out + rest.out, starved := first.outcome == Starved || rest.starved)
  }

  function Wanted(calls: seq<Call>): (n: nat)
  {
    if calls == [] then 0 else calls[0].want + Wanted(calls[1..])
  }

  lemma FreshInv(rt: Rates)
    requires rt.Valid()
    ensures Inv(rt, RESET)
  {
    DivModUnique(0, rt.outRate, 0, 0);
  }

  lemma Regroup(a: seq<Frame>, b: seq<Frame>, c: seq<Frame>)
    ensures a + b + c == a + (b + c)
  {
  }

  /** A run that neither starves nor fails puts out the batch frames of everything it
      pulled, as many as were asked for. */
  lemma {:induction false} RunIsBatch(rt: Rates, s: Playing, calls: seq<Call>)
    requires Inv(rt, s) && CallsShaped(rt, calls)
    ensures Shaped(rt, s.pending)
    ensures var r := Run(rt, s, calls);
            !r.starved && !r.panicked ==>
              && Inv(rt, r.now) && s.src <= r.now.src && r.now.emitted == s.emitted + r.out
              && |r.out| == Wanted(calls)
    decreases |calls|
  {
    if calls != [] {
      PullIsBatch(rt, s, calls[0].pulls, 0, calls[0].want, s.src);
      var first := Pulled(rt, s, calls[0].pulls, 0, calls[0].want);
      if first.outcome == Done {
        RunIsBatch(rt, first.now, calls[1..]);
        var rest := Run(rt, first.now, calls[1..]);
        Regroup(s.emitted, first.out, rest.out);
      }
    }
  }

  /** THEOREM (sizes unobservable). Two runs over one source, cut into calls and callbacks
      in any two ways, neither of which starves or fails, put out as many frames as they
      were asked for, and the one asked for fewer a prefix of what the other puts out. */
  lemma SizesUnobservable(rt: Rates, source: seq<Frame>, calls: seq<Call>, calls': seq<Call>)
    requires rt.Valid() && CallsShaped(rt, calls) && CallsShaped(rt, calls') && Wanted(calls) <= Wanted(calls')
    ensures var r, r' := Run(rt, RESET, calls), Run(rt, RESET, calls');
            && !r.starved && !r.panicked && !r'.starved && !r'.panicked
            && r.now.src <= source && r'.now.src <= source ==>
              |r.out| == Wanted(calls) && |r'.out| == Wanted(calls') && r.out <= r'.out
  {
    FreshInv(rt);
    RunIsBatch(rt, RESET, calls);
    RunIsBatch(rt, RESET, calls');
    var r, r' := Run(rt, RESET, calls), Run(rt, RESET, calls');
    if !r.starved && !r.panicked && !r'.starved && !r'.panicked && r.now.src <= source && r'.now.src <= source {
      assert r.now.emitted == r.out && r'.now.emitted == r'.out;
      SameBatch(rt, source, r.now.src, r'.now.src, r.out, r'.out);
    }
  }

  lemma SameBatch(rt: Rates, source: seq<Frame>, src: seq<Frame>, src': seq<Frame>, out: seq<Frame>, out': seq<Frame>)
    requires rt.Valid() && Shaped(rt, src) && Shaped(rt, src') && src <= source && src' <= source
    requires AreBatch(rt, src, 0, out) && AreBatch(rt, src', 0, out') && |out| <= |out'|
    ensures out <= out'
  {
    forall k | 0 <= k < |out| ensures out[k] == out'[k] {
      assert IsBatch(rt, src, 0 + k, out[k]);
      assert IsBatch(rt, src', 0 + k, out'[k]);
    }
  }

  // ---- exactly which rates can run past the pending frames

  lemma {:induction false} SlowNeverFails(rt: Rates, s: Playing, calls: seq<Call>)
    requires Inv(rt, s) && CallsShaped(rt, calls) && rt.inRate <= 2 * rt.outRate
    ensures Shaped(rt, s.pending) && !Run(rt, s, calls).panicked
    decreases |calls|
  {
    if calls != [] {
      PullIsBatch(rt, s, calls[0].pulls, 0, calls[0].want, s.src);
      var first := Pulled(rt, s, calls[0].pulls, 0, calls[0].want);
      SliceBoundExact(rt);
      if first.outcome == Starved { FreshInv(rt); }
      if first.outcome != Panicked { SlowNeverFails(rt, first.now, calls[1..]); }
    }
  }

  ghost predicate Singles(pulls: seq<seq<Frame>>)
  {
    forall i :: 0 <= i < |pulls| ==> |pulls[i]| == 1
  }

  /** Callbacks of one frame each bring the pending frames to two and no further. */
  lemma {:induction false} FillsToTwo(rt: Rates, s: Playing, pulls: seq<seq<Frame>>, from: nat)
    requires Inv(rt, s) && AllShaped(rt, pulls) && Singles(pulls)
    requires |s.pending| <= 2 && from + (2 - |s.pending|) <= |pulls|
    ensures Shaped(rt, s.pending)
    ensures var r := Filled(rt, s, pulls, from);
            && !r.starved && r.used == from + (2 - |s.pending|)
            && Inv(rt, r.now) && |r.now.pending| == 2 && r.now.emitted == s.emitted
    decreases 2 - |s.pending|
  {
    DivModUnique(s.posNum, rt.outRate, 0, s.posNum);
    if |s.pending| < 2 {
      TakenKeeps(rt, s, pulls[from]);
      FillsToTwo(rt, Taken(s, pulls[from]), pulls, from + 1);
    }
  }

  /** Fed one frame at a time, a call that gets as far as a step over more than two frames
      fails there. */
  lemma {:induction false} FailsBy(rt: Rates, s: Playing, pulls: seq<seq<Frame>>, from: nat, k: nat)
    requires Inv(rt, s) && AllShaped(rt, pulls) && Singles(pulls) && |s.pending| <= 2
    requires |s.emitted| <= k && Passed(rt, k) > 2 && from + 2 * (k + 1 - |s.emitted|) <= |pulls|
    ensures Shaped(rt, s.pending)
    ensures Pulled(rt, s, pulls, from, k + 1 - |s.emitted|).outcome == Panicked
    decreases k - |s.emitted|
  {
    FillsToTwo(rt, s, pulls, from);
    var filled := Filled(rt, s, pulls, from);
    ReadyStep(rt, filled.now);
    if Consumed(rt, filled.now.posNum) <= |filled.now.pending| {
      FailsBy(rt, Stepped(rt, filled.now, Interpolated(rt, filled.now)), pulls, filled.used, k);
    }
  }

  /** The run that fails: one call, and callbacks that bring one frame each. */
  lemma FastFails(rt: Rates) returns (calls: seq<Call>)
    requires rt.Valid() && rt.inRate > 2 * rt.outRate
    ensures Deliverable(rt, calls) && Run(rt, RESET, calls).panicked
  {
    var k := SomeOverrun(rt);
    var pulls := Repeat([Silence(rt)], 2 * (k + 1));
    calls := [Call(pulls, k + 1)];
    FreshInv(rt);
    FailsBy(rt, RESET, pulls, 0, k);
  }

  lemma SomeOverrun(rt: Rates) returns (k: nat)
    requires rt.Valid() && rt.inRate > 2 * rt.outRate
    ensures Passed(rt, k) > 2
  {
    if rt.inRate >= 3 * rt.outRate {
      k := 0;
      DivAtLeast(Position(rt, 0) % rt.outRate + rt.inRate, 3, rt.outRate);
    } else {
      k := FirstOverrun(rt);
    }
  }

  /** THEOREM (which rates are safe). No run of calls, however cut up, with callbacks of
      up to 4096 frames, runs past the pending frames if and only if inRate <= 2 * outRate. */
  lemma NeverFailsExact(rt: Rates)
    requires rt.Valid()
    ensures (forall calls | Deliverable(rt, calls) :: !Run(rt, RESET, calls).panicked) <==> rt.inRate <= 2 * rt.outRate
  {
    FreshInv(rt);
    if rt.inRate <= 2 * rt.outRate {
      forall calls | Deliverable(rt, calls) ensures !Run(rt, RESET, calls).panicked {
        SlowNeverFails(rt, RESET, calls);
      }
    } else {
      var calls := FastFails(rt);
      assert Run(rt, RESET, calls).panicked;
    }
  }
}
