/** The simulated camera and telescope of scripts/fake_alpaca_camera.py: guide pulses move the star
    field, and a frame is cached while nothing moves. Offsets are exact reals. */
module FakeCamera {
  import opened Wrappers

  datatype Pulse = Pulse(direction: int, durationMs: real)

  const GUIDE_RATE_DEG_S := 15.0 / 3600.0

  // With a scale of 0 the division raises, and the pulse is not applied.
  function Pixels(p: Pulse, scale: real): real {
    if scale == 0.0 then 0.0 else GUIDE_RATE_DEG_S * (p.durationMs / 1000.0) * 3600.0 / scale
  }

  // The sky turns 15 arc seconds in a second.
  function ArcSeconds(durationMs: real): real { 15.0 * durationMs / 1000.0 }

  lemma PixelsAreArcSeconds(p: Pulse, scale: real)
    requires scale != 0.0
    ensures Pixels(p, scale) == ArcSeconds(p.durationMs) / scale
  {
    assert GUIDE_RATE_DEG_S * (p.durationMs / 1000.0) * 3600.0 == ArcSeconds(p.durationMs);
  }

  // 2 is east, 3 is west; 0 is north, 1 is south; anything else moves nothing.
  function ShiftX(p: Pulse, scale: real): real {
    if p.direction == 2 then Pixels(p, scale) else if p.direction == 3 then -Pixels(p, scale) else 0.0
  }

  function ShiftY(p: Pulse, scale: real): real {
    if p.direction == 0 then -Pixels(p, scale) else if p.direction == 1 then Pixels(p, scale) else 0.0
  }

  // The signed sum of all pulses, per axis.

  function SumX(ps: seq<Pulse>, scale: real): real {
    if ps == [] then 0.0 else SumX(ps[..|ps| - 1], scale) + ShiftX(ps[|ps| - 1], scale)
  }

  function SumY(ps: seq<Pulse>, scale: real): real {
    if ps == [] then 0.0 else SumY(ps[..|ps| - 1], scale) + ShiftY(ps[|ps| - 1], scale)
  }

  lemma {:induction false} SumsConcat(a: seq<Pulse>, b: seq<Pulse>, scale: real)
    ensures SumX(a + b, scale) == SumX(a, scale) + SumX(b, scale)
    ensures SumY(a + b, scale) == SumY(a, scale) + SumY(b, scale)
  {
    if b == [] {
      assert a + b == a;
    } else {
      SumsConcat(a, b[..|b| - 1], scale);
      assert (a + b)[..|a + b| - 1] == a + b[..|b| - 1];
    }
  }

  // Taking one pulse out of the middle.
  lemma SumsWithout(ps: seq<Pulse>, i: nat, scale: real)
    requires i < |ps|
    ensures SumX(ps, scale) == SumX(ps[..i] + ps[i + 1..], scale) + ShiftX(ps[i], scale)
    ensures SumY(ps, scale) == SumY(ps[..i] + ps[i + 1..], scale) + ShiftY(ps[i], scale)
  {
    var one := [ps[i]];
    assert ps == ps[..i] + one + ps[i + 1..] && one[..0] == [];
    assert SumX(one, scale) == ShiftX(ps[i], scale) && SumY(one, scale) == ShiftY(ps[i], scale);
    SumsConcat(ps[..i] + one, ps[i + 1..], scale);
    SumsConcat(ps[..i], one, scale);
    SumsConcat(ps[..i], ps[i + 1..], scale);
  }

  lemma TakenOut(ps: seq<Pulse>, i: nat)
    requires i < |ps|
    ensures multiset(ps[..i] + ps[i + 1..]) == multiset(ps) - multiset{ps[i]}
  {
    assert ps == ps[..i] + [ps[i]] + ps[i + 1..];
  }

  /** Where the field ends up does not depend on the order of the pulses. */
  lemma {:induction false} OrderIsIrrelevant(ps: seq<Pulse>, qs: seq<Pulse>, scale: real)
    requires multiset(ps) == multiset(qs)
    ensures SumX(ps, scale) == SumX(qs, scale) && SumY(ps, scale) == SumY(qs, scale)
    decreases |ps|
  {
    if ps == [] {
      assert |multiset(qs)| == |multiset(ps)| == 0;
    } else {
      var n := |ps| - 1;
      assert ps == ps[..n] + [ps[n]];
      assert ps[n] in ps && multiset(ps)[ps[n]] > 0;
      assert ps[n] in multiset(qs) && ps[n] in qs;
      var i :| 0 <= i < |qs| && qs[i] == ps[n];
      var rest := qs[..i] + qs[i + 1..];
      assert qs == qs[..i] + [qs[i]] + qs[i + 1..];
      TakenOut(ps, n);
      TakenOut(qs, i);
      assert ps[..n] + ps[n + 1..] == ps[..n];
      OrderIsIrrelevant(ps[..n], rest, scale);
      SumsWithout(qs, i, scale);
    }
  }

  /** A pulse and the same pulse the other way cancel. */
  lemma OppositePulsesCancel(ps: seq<Pulse>, p: Pulse, scale: real)
    requires 0 <= p.direction <= 3
    ensures var back := Pulse(if p.direction % 2 == 0 then p.direction + 1 else p.direction - 1, p.durationMs);
            SumX(ps + [p, back], scale) == SumX(ps, scale) && SumY(ps + [p, back], scale) == SumY(ps, scale)
  {
    var back := Pulse(if p.direction % 2 == 0 then p.direction + 1 else p.direction - 1, p.durationMs);
    var one := ps + [p];
    assert ps + [p, back] == one + [back];
    assert one[..|ps|] == ps && (one + [back])[..|one|] == one;
    assert ShiftX(back, scale) == -ShiftX(p, scale) && ShiftY(back, scale) == -ShiftY(p, scale);
  }

  /** F is the type of a rendered frame; `render` draws the field turned by an angle and shifted. The
      frame depends on nothing else. */
  class Camera<F> {
    const render: (real, real, real) -> F
    const rotation: real   // ROTATE_DEG_PER_SEC
    const drift: real      // DEC_DRIFT_PX_PER_MIN
    const scale: real      // IMAGE_SCALE
    var pulseX: real
    var pulseY: real
    var frame: Option<F>   // _frame
    ghost var pulses: seq<Pulse>

    // What rendering now gives; t1 and t2 are the two readings of the clock since the start.
    function Fresh(t1: real, t2: real): F
      reads this
    {
      render(rotation * t1, pulseX, pulseY + drift * t2 / 60.0)
    }

    // The frame that belongs to these pulses at these times.
    function Shot(ps: seq<Pulse>, t1: real, t2: real): F {
      render(rotation * t1, SumX(ps, scale), SumY(ps, scale) + drift * t2 / 60.0)
    }

    ghost predicate Valid()
      reads this
    {
      && pulseX == SumX(pulses, scale) && pulseY == SumY(pulses, scale)
      && (frame.Some? ==> frame.value == render(0.0, 0.0, 0.0) && rotation == 0.0 && drift == 0.0)
    }

    constructor (render: (real, real, real) -> F, rotation: real, drift: real, scale: real)
      ensures Valid() && pulses == [] && frame == None
      ensures this.render == render && this.rotation == rotation && this.drift == drift && this.scale == scale
    {
      this.render, this.rotation, this.drift, this.scale := render, rotation, drift, scale;
      pulseX, pulseY, frame, pulses := 0.0, 0.0, None, [];
    }

    method ApplyPulse(direction: int, durationMs: real) returns (ok: bool)
      requires Valid()
      modifies this
      ensures Valid() && pulses == old(pulses) + [Pulse(direction, durationMs)] && frame == old(frame)
      ensures pulseX == SumX(pulses, scale) && pulseY == SumY(pulses, scale) && ok == (scale != 0.0)
      ensures scale != 0.0 ==> var px := ArcSeconds(durationMs) / scale;
                && pulseX == old(pulseX) + (if direction == 2 then px else if direction == 3 then -px else 0.0)
                && pulseY == old(pulseY) + (if direction == 1 then px else if direction == 0 then -px else 0.0)
      ensures scale == 0.0 ==> pulseX == old(pulseX) && pulseY == old(pulseY)
    {
      pulses := pulses + [Pulse(direction, durationMs)];
      assert pulses[..|pulses| - 1] == old(pulses);
      ok := scale != 0.0;
      if !ok { return; }
      var px := GUIDE_RATE_DEG_S * (durationMs / 1000.0) * 3600.0 / scale;
      PixelsAreArcSeconds(pulses[|pulses| - 1], scale);
      if direction == 0 {
        pulseY := pulseY - px;
      } else if direction == 1 {
        pulseY := pulseY + px;
      } else if direction == 2 {
        pulseX := pulseX + px;
      } else if direction == 3 {
        pulseX := pulseX - px;
      }
    }

    /** Cached or not, the frame is the one that rendering now would give. */
    method StarField(t1: real, t2: real) returns (f: F)
      requires Valid()
      modifies `frame
      ensures Valid() && f == Fresh(t1, t2) == Shot(pulses, t1, t2)
      ensures f == render(rotation * t1, pulseX, pulseY + drift * t2 / 60.0)
    {
      if rotation != 0.0 || drift != 0.0 || pulseX != 0.0 || pulseY != 0.0 {
        return render(rotation * t1, pulseX, pulseY + drift * t2 / 60.0);
      }
      if frame.None? {
        frame := Some(render(0.0, pulseX, pulseY + drift * t2 / 60.0));
      }
      return frame.value;
    }
  }

  // ---------- any sequence of pulses and image reads ----------

  datatype Request = Guide(p: Pulse) | Image(t1: real, t2: real)

  function PulsesOf(rs: seq<Request>): seq<Pulse> {
    if rs == [] then []
    else PulsesOf(rs[..|rs| - 1]) + if rs[|rs| - 1].Guide? then [rs[|rs| - 1].p] else []
  }

  /** Serving requests one after the other, as the lock makes the handlers do: image k is what rendering
      at that moment gives, with the sum of all pulses before it as the offset. */
  method Serve<F>(cam: Camera<F>, rs: seq<Request>) returns (images: seq<F>)
    requires cam.Valid() && cam.pulses == []
    modifies cam
    ensures cam.Valid() && cam.pulses == PulsesOf(rs) && images == Images(cam, rs)
  {
    images := [];
    var i := 0;
    while i < |rs|
      invariant i <= |rs| && cam.Valid() && cam.pulses == PulsesOf(rs[..i])
      invariant images == Images(cam, rs[..i])
    {
      ghost var next := rs[..i + 1];
      assert next[..|next| - 1] == rs[..i] && next[|next| - 1] == rs[i];
      match rs[i] {
        case Guide(p) => var _ := cam.ApplyPulse(p.direction, p.durationMs);
        case Image(t1, t2) =>
          var f := cam.StarField(t1, t2);
          images := images + [f];
      }
      i := i + 1;
    }
    assert rs[..i] == rs;
  }

  // The frames an uncached camera would send.
  function Images<F>(cam: Camera<F>, rs: seq<Request>): seq<F> {
    if rs == [] then []
    else
      var before, last := rs[..|rs| - 1], rs[|rs| - 1];
      Images(cam, before) + if last.Guide? then [] else [cam.Shot(PulsesOf(before), last.t1, last.t2)]
  }
}
