/**
What the playback resampler (engine/internal/audio/wasapi/render.go) makes of a known
signal: a straight line comes out as the same line at the other rate, rounded, however
calls and callbacks are cut; and at equal rates every frame comes out as itself.
*/
module ResampledLines {
  import opened Arithmetic
  import opened Common
  import opened Resampler

  /** THEOREM (linear interpolation). The value num / den of the way from a to b. */
  lemma BlendExact(a: int, b: int, num: nat, den: nat)
    requires num < den
    ensures BlendReal(a, b, num, den) * den as real == (a * (den - num) + b * num) as real
  {
    var t := num as real / den as real;
    assert t * den as real == num as real;
    Expand(a as real, (b - a) as real, t, den as real);
    assert (b - a) as real * num as real == ((b - a) * num) as real;
    assert a as real * den as real == (a * den) as real;
    assert a * den + (b - a) * num == a * (den - num) + b * num;
  }

  lemma Expand(a: real, d: real, t: real, den: real)
    ensures (a + d * t) * den == a * den + d * (t * den)
  {
    assert d * t * den == d * (t * den);
  }

  /** Channel ch of every source frame i is a + b * i. */
  ghost predicate OnLine(src: seq<Frame>, ch: nat, a: int, b: int)
  {
    forall i :: 0 <= i < |src| ==> ch < |src[i]| && src[i][ch] == a + b * i
  }

  /** The line at k * inRate / outRate, where output frame k lies. */
  function LineAt(rt: Rates, a: int, b: int, k: nat): (v: real)
    requires rt.Valid()
  {
    a as real + b as real * (k * rt.inRate) as real / rt.outRate as real
  }

  /** Output sample of frame k: the line's value, rounded. */
  function LineSample(rt: Rates, a: int, b: int, k: nat): (s: int)
    requires rt.Valid()
  {
    S16FromF64(LineAt(rt, a, b, k) / 32768.0)
  }

  /** Between neighbours on a line the blend is on the line. */
  lemma BlendOnLine(a: int, b: int, p: nat, den: nat, i: nat, num: nat, left: int, right: int)
    requires den > 0 && i == p / den && num == p % den && left == a + b * i && right == a + b * (i + 1)
    ensures num < den
    ensures BlendReal(left, right, num, den) == a as real + b as real * p as real / den as real
  {
    BlendExact(left, right, num, den);
    UnitsOf(p, den);
    assert left * (den - num) + right * num == a * den + b * p by {
      assert right == left + b;
      assert left * (den - num) + (left + b) * num == left * den + b * num;
      assert left * den == a * den + b * (i * den);
      assert b * (i * den) + b * num == b * (i * den + num);
    }
    assert (a * den + b * p) as real == a as real * den as real + b as real * p as real;
    Divided(BlendReal(left, right, num, den), a as real, b as real * p as real, den as real);
  }

  lemma Divided(v: real, a: real, x: real, den: real)
    requires den > 0.0 && v * den == a * den + x
    ensures v == a + x / den
  {
    assert (a + x / den) * den == a * den + x;
    assert (v - (a + x / den)) * den == 0.0;
  }

  /** A batch frame of a source on a line. */
  lemma FrameOnLine(rt: Rates, src: seq<Frame>, k: nat, f: Frame, ch: nat, a: int, b: int)
    requires rt.Valid() && Shaped(rt, src) && IsBatch(rt, src, k, f) && ch < rt.channels && OnLine(src, ch, a, b)
    ensures |f| == rt.channels && f[ch] == LineSample(rt, a, b, k)
  {
    var p := Position(rt, k);
    var i, num := p / rt.outRate, p % rt.outRate;
    BlendOnLine(a, b, p, rt.outRate, i, num, src[i][ch], src[i + 1][ch]);
    assert BlendReal(src[i][ch], src[i + 1][ch], num, rt.outRate) == LineAt(rt, a, b, k);
  }

  /** THEOREM (lines stay lines, one call). Whatever was put out since the last reset, if
      what has been pulled since then lies on a line, every frame a call puts out before it
      falls silent is the line's value at its place, rounded. */
  lemma PullOnLine(rt: Rates, s: Playing, pulls: seq<seq<Frame>>, want: nat, ch: nat, a: int, b: int, i: nat)
    requires Inv(rt, s) && AllShaped(rt, pulls) && ch < rt.channels
    ensures Shaped(rt, s.pending)
    ensures var r := Pulled(rt, s, pulls, 0, want);
            OnLine(s.src + Joined(pulls, r.used), ch, a, b) && i < r.heard ==>
              i < |r.out| && |r.out[i]| == rt.channels && r.out[i][ch] == LineSample(rt, a, b, |s.emitted| + i)
  {
    PullIsBatch(rt, s, pulls, 0, want, s.src);
    var r := Pulled(rt, s, pulls, 0, want);
    var all := s.src + Joined(pulls, r.used);
    if OnLine(all, ch, a, b) && i < r.heard {
      HeardIsBatch(rt, s, pulls, want, r, i);
      FrameOnLine(rt, all, |s.emitted| + i, r.out[i], ch, a, b);
    }
  }

  lemma HeardIsBatch(rt: Rates, s: Playing, pulls: seq<seq<Frame>>, want: nat, r: Pulling, i: nat)
    requires rt.Valid() && Good(rt, s, s.src, pulls, want, r) && i < r.heard
    ensures var all := s.src + Joined(pulls, r.used);
            i < |r.out| && Shaped(rt, all) && IsBatch(rt, all, |s.emitted| + i, r.out[i])
  {
    var all := s.src + Joined(pulls, r.used);
    var out := if r.outcome == Starved then s.emitted + r.out[..r.heard] else s.emitted + r.out;
    assert AreBatch(rt, all, 0, out);
    assert IsBatch(rt, all, 0 + (|s.emitted| + i), out[|s.emitted| + i]);
  }

  /** THEOREM (lines stay lines, any run). However a source on a line is cut into calls and
      callbacks, a run that neither starves nor fails puts out the line at the other rate. */
  lemma RunOnLine(rt: Rates, calls: seq<Call>, ch: nat, a: int, b: int)
    requires rt.Valid() && CallsShaped(rt, calls) && ch < rt.channels
    ensures var r := Run(rt, RESET, calls);
            !r.starved && !r.panicked && OnLine(r.now.src, ch, a, b) ==>
              && |r.out| == Wanted(calls)
              && forall k :: 0 <= k < |r.out| ==>
                   |r.out[k]| == rt.channels && r.out[k][ch] == LineSample(rt, a, b, k)
  {
    FreshInv(rt);
    RunIsBatch(rt, RESET, calls);
    var r := Run(rt, RESET, calls);
    if !r.starved && !r.panicked && OnLine(r.now.src, ch, a, b) {
      assert r.now.emitted == r.out;
      forall k | 0 <= k < |r.out| ensures |r.out[k]| == rt.channels && r.out[k][ch] == LineSample(rt, a, b, k) {
        assert IsBatch(rt, r.now.src, 0 + k, r.out[k]);
        FrameOnLine(rt, r.now.src, k, r.out[k], ch, a, b);
      }
    }
  }

  /** THEOREM (equal rates). With equal rates frame k comes out as frame k of the source. */
  lemma EqualRates(rt: Rates, src: seq<Frame>, k: nat, f: Frame)
    requires rt.Valid() && rt.inRate == rt.outRate && Shaped(rt, src) && IsBatch(rt, src, k, f)
    ensures k < |src| && |f| == rt.channels
    ensures forall ch :: 0 <= ch < rt.channels ==> f[ch] == S16FromF64(src[k][ch] as real / 32768.0)
  {
    MultipleOf(k, rt.outRate);
    forall ch | 0 <= ch < rt.channels ensures f[ch] == S16FromF64(src[k][ch] as real / 32768.0) {
      BlendBetween(src[k][ch], src[k + 1][ch], 0, rt.outRate);
    }
  }
}
