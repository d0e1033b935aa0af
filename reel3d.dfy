/** The reel demo (src/demos/reel3d/index.js): the hover-time buffers of
    `Wire.render`, the state `Boxes` keeps (anchor, picked id, shader time),
    the decoding of a picked pixel into an instance id, and `MathEx.clamp`
    and `mix`. Geometry, shaders, the mirror floor and the `force3` spring
    are not modelled. */
module Reel3d {

  /** `Boxes.instances`. */
  const Instances: int := 36
  /** The ceiling `Wire.render` clamps a hover time to. */
  const MaxHover: real := 0.3

  function Min(a: real, b: real): real
  {
    if a <= b then a else b
  }

  function Max(a: real, b: real): real
  {
    if a >= b then a else b
  }

  /** `MathEx.clamp(value, min, max) = Math.min(Math.max(value, min), max)`. */
  function Clamp(value: real, lo: real, hi: real): (r: real)
    ensures lo <= hi ==> lo <= r <= hi
    ensures lo <= value <= hi ==> r == value
    ensures value < lo && lo <= hi ==> r == lo
    ensures hi < value ==> r == hi
  {
    Min(Max(value, lo), hi)
  }

  /** `MathEx.mix(x1, x2, a) = x1 * (1 - a) + x2 * a`. */
  function Mix(x1: real, x2: real, a: real): real
  {
    x1 * (1.0 - a) + x2 * a
  }

  /** `mix` reaches its end points at 0 and 1 and stays between them on [0, 1],
      whichever of the two is the larger. */
  lemma MixEnds(x1: real, x2: real, a: real)
    ensures Mix(x1, x2, 0.0) == x1 && Mix(x1, x2, 1.0) == x2
    ensures 0.0 <= a <= 1.0 && x1 <= x2 ==> x1 <= Mix(x1, x2, a) <= x2
    ensures 0.0 <= a <= 1.0 && x2 <= x1 ==> x2 <= Mix(x1, x2, a) <= x1
  {
    if 0.0 <= a <= 1.0 && x1 <= x2 {
      var d := x2 - x1;
      assert Mix(x1, x2, a) == x1 + d * a;
      NonNegativeProduct(d, a);
      NonNegativeProduct(d, 1.0 - a);
      assert d * a + d * (1.0 - a) == d;
    }
    if 0.0 <= a <= 1.0 && x2 <= x1 {
      var d := x1 - x2;
      assert Mix(x1, x2, a) == x2 + d * (1.0 - a);
      NonNegativeProduct(d, a);
      NonNegativeProduct(d, 1.0 - a);
      assert d * a + d * (1.0 - a) == d;
    }
  }

  lemma NonNegativeProduct(p: real, q: real)
    requires p >= 0.0 && q >= 0.0
    ensures p * q >= 0.0
  {
  }

  /** One entry of a hover buffer after a frame of length `time`: the picked
      instance grows towards 0.3, every other one decays towards 0. */
  function NextHover(prev: real, time: real, picked: bool): (r: real)
    ensures picked ==> r <= MaxHover && r <= prev + time && (r == prev + time || r == MaxHover)
    ensures !picked ==> r >= 0.0 && r >= prev - time && (r == prev - time || r == 0.0)
  {
    if picked then Min(prev + time, MaxHover) else Max(prev - time, 0.0)
  }

  /** With a non-negative frame time, a hover time in [0, 0.3] stays there. */
  lemma HoverStaysInRange(prev: real, time: real, picked: bool)
    requires 0.0 <= prev <= MaxHover && time >= 0.0
    ensures 0.0 <= NextHover(prev, time, picked) <= MaxHover
  {
  }

  /** The picked instance reaches the ceiling after frames adding up to 0.3;
      an unpicked one returns to rest after frames adding up to its value. */
  lemma HoverSaturates(prev: real, time: real)
    requires 0.0 <= prev <= MaxHover && time >= 0.0
    ensures prev + time >= MaxHover ==> NextHover(prev, time, true) == MaxHover
    ensures prev - time <= 0.0 ==> NextHover(prev, time, false) == 0.0
  {
  }

  /** The uniforms one mesh shares with its shader. */
  class Uniforms {
    var time: real
    var rotate: real
    var pickedId: int

    /** Both `Core` and `Wire` start at time 0, rotation 0 and no pick (-1). */
    constructor ()
      ensures time == 0.0 && rotate == 0.0 && pickedId == -1
    {
      time := 0.0;
      rotate := 0.0;
      pickedId := -1;
    }
  }

  /** `Wire`: its uniforms and the `timeHover` attribute of the visible and
      of the picking mesh, one entry per instance. */
  class Wire {
    const uniforms: Uniforms
    const timeHover: array<real>
    const timeHoverPicked: array<real>

    /** Both buffers agree entry by entry and lie in [0, 0.3]. */
    ghost predicate Valid()
      reads this, timeHover, timeHoverPicked
    {
      timeHover != timeHoverPicked &&
      timeHover.Length == timeHoverPicked.Length &&
      (forall i :: 0 <= i < timeHover.Length ==> timeHover[i] == timeHoverPicked[i]) &&
      (forall i :: 0 <= i < timeHover.Length ==> 0.0 <= timeHover[i] <= MaxHover)
    }

    /** `new Wire(instances)`: both buffers hold `instances` zeros. */
    constructor (instances: nat)
      ensures Valid() && fresh(uniforms) && fresh(timeHover) && fresh(timeHoverPicked)
      ensures timeHover.Length == instances
      ensures forall i :: 0 <= i < instances ==> timeHover[i] == 0.0
      ensures uniforms.time == 0.0 && uniforms.rotate == 0.0 && uniforms.pickedId == -1
    {
      uniforms := new Uniforms();
      timeHover := new real[instances](_ => 0.0);
      timeHoverPicked := new real[instances](_ => 0.0);
    }

    /** `Wire.render(time)`: advance the shader time and step every hover entry. */
    method Render(time: real)
      requires Valid()
      modifies uniforms`time, timeHover, timeHoverPicked
      ensures uniforms.time == old(uniforms.time) + time
      ensures forall i :: 0 <= i < timeHover.Length ==>
        timeHover[i] == NextHover(old(timeHover[i]), time, uniforms.pickedId == i)
      ensures forall i :: 0 <= i < timeHover.Length ==> timeHoverPicked[i] == timeHover[i]
      ensures time >= 0.0 ==> Valid()
      ensures timeHover != timeHoverPicked && timeHover.Length == timeHoverPicked.Length
    {
      uniforms.time := uniforms.time + time;
      var i := 0;
      while i < timeHover.Length
        invariant 0 <= i <= timeHover.Length
        invariant uniforms.time == old(uniforms.time) + time
        invariant forall m :: 0 <= m < i ==>
          timeHover[m] == NextHover(old(timeHover[m]), time, uniforms.pickedId == m) &&
          timeHoverPicked[m] == timeHover[m]
        invariant forall m :: i <= m < timeHover.Length ==>
          timeHover[m] == old(timeHover[m]) && timeHoverPicked[m] == old(timeHoverPicked[m])
      {
        if uniforms.pickedId == i {
          timeHover[i] := Min(timeHover[i] + time, MaxHover);
          timeHoverPicked[i] := Min(timeHoverPicked[i] + time, MaxHover);
        } else {
          timeHover[i] := Max(timeHover[i] - time, 0.0);
          timeHoverPicked[i] := Max(timeHoverPicked[i] - time, 0.0);
        }
        i := i + 1;
      }
      if time >= 0.0 {
        forall m | 0 <= m < timeHover.Length
          ensures 0.0 <= timeHover[m] <= MaxHover
        {
          HoverStaysInRange(old(timeHover[m]), time, uniforms.pickedId == m);
        }
      }
    }
  }

  /** `Boxes`: the spring anchor of the rotation, the two meshes, and whether
      the page carries the `is-picked` class. */
  class Boxes {
    const anchor: array<real>
    const velocity: array<real>
    const acceleration: array<real>
    const core: Uniforms
    const wire: Wire
    var bodyIsPicked: bool

    ghost predicate Valid()
      reads this, wire, wire.timeHover, wire.timeHoverPicked
    {
      anchor.Length == 3 && wire.Valid() && wire.timeHover.Length == Instances &&
      core != wire.uniforms
    }

    /** `new Boxes()`: zero vectors and 36 instances. */
    constructor ()
      ensures Valid() && !bodyIsPicked
      ensures anchor[..] == [0.0, 0.0, 0.0]
      ensures velocity[..] == [0.0, 0.0, 0.0] && acceleration[..] == [0.0, 0.0, 0.0]
      ensures core.time == 0.0 && core.pickedId == -1 && wire.uniforms.pickedId == -1
    {
      anchor := new real[3](_ => 0.0);
      velocity := new real[3](_ => 0.0);
      acceleration := new real[3](_ => 0.0);
      core := new Uniforms();
      wire := new Wire(Instances as nat);
      bodyIsPicked := false;
      new;
      assert anchor[..] == [0.0, 0.0, 0.0];
      assert velocity[..] == [0.0, 0.0, 0.0];
      assert acceleration[..] == [0.0, 0.0, 0.0];
    }

    /** `rotate(delta)`: a zero delta is ignored; otherwise only the x part of
        the anchor moves, by `-0.05 * delta`. */
    method Rotate(delta: real)
      requires Valid()
      modifies anchor
      ensures delta == 0.0 ==> anchor[..] == old(anchor[..])
      ensures delta != 0.0 ==> anchor[..] == old(anchor[..])[0 := old(anchor[0]) - delta * 0.05]
    {
      if delta == 0.0 {
        return;
      }
      anchor[0] := anchor[0] - delta * 0.05;
    }

    /** `picked(id)`: both meshes learn the id; the page is marked picked iff
        the id names one of the instances. */
    method Picked(id: int)
      modifies core`pickedId, wire.uniforms`pickedId, this`bodyIsPicked
      ensures core.pickedId == id && wire.uniforms.pickedId == id
      ensures bodyIsPicked <==> -1 < id < Instances
    {
      core.pickedId := id;
      wire.uniforms.pickedId := id;
      bodyIsPicked := id < Instances && id > -1;
    }

    /** `render(time)`: both shader clocks advance by `time`; the hover
        buffers step as in `Wire.render`. */
    method Render(time: real)
      requires Valid() && time >= 0.0
      modifies core`time, wire.uniforms`time, wire.timeHover, wire.timeHoverPicked
      ensures Valid()
      ensures core.time == old(core.time) + time
      ensures wire.uniforms.time == old(wire.uniforms.time) + time
      ensures forall i :: 0 <= i < Instances ==>
        wire.timeHover[i] == NextHover(old(wire.timeHover[i]), time, wire.uniforms.pickedId == i)
    {
      core.time := core.time + time;
      wire.Render(time);
    }
  }

  /** One channel of the picking pixel (`Uint8Array`). */
  newtype Byte = x: int | 0 <= x < 256

  function Pow2(k: nat): (r: nat)
    ensures r >= 1
  {
    if k == 0 then 1 else 2 * Pow2(k - 1)
  }

  /** JavaScript `a << k` for a non-negative `a` whose result stays below 2^31. */
  function ShiftLeft(a: nat, k: nat): nat
  {
    a * Pow2(k)
  }

  /** JavaScript `a | b` on non-negative 32-bit integers, bit by bit from the lowest. */
  function BitOr(a: nat, b: nat): nat
  {
    if a == 0 then b
    else if b == 0 then a
    else 2 * BitOr(a / 2, b / 2) + (if a % 2 == 1 || b % 2 == 1 then 1 else 0)
  }

  /** Or-ing a number into the free low bits of a shifted one is addition. */
  lemma {:induction false} OrIntoLowBits(x: nat, k: nat, y: nat)
    requires y < Pow2(k)
    ensures BitOr(x * Pow2(k), y) == x * Pow2(k) + y
  {
    if k > 0 {
      var p := Pow2(k - 1);
      var h := x * p;
      assert x * Pow2(k) == 2 * h by {
        assert Pow2(k) == 2 * p;
        MulAssoc(x, 2, p);
      }
      var a := 2 * h;
      assert a / 2 == h && a % 2 == 0;
      assert y / 2 < p;
      OrIntoLowBits(x, k - 1, y / 2);
      assert y == 2 * (y / 2) + y % 2;
    }
  }

  lemma MulAssoc(x: int, y: int, z: int)
    ensures x * (y * z) == y * (x * z)
  {
  }

  /** `(pixelBuffer[0] << 16) | (pixelBuffer[1] << 8) | pixelBuffer[2]`. */
  function DecodePick(b0: Byte, b1: Byte, b2: Byte): int
  {
    BitOr(BitOr(ShiftLeft(b0 as nat, 16), ShiftLeft(b1 as nat, 8)), b2 as nat)
  }

  /** The bit operations add up the three channels with weights 2^16, 2^8, 1,
      so a pixel decodes to a number in [0, 2^24). */
  lemma DecodeIsPositional(b0: Byte, b1: Byte, b2: Byte)
    ensures DecodePick(b0, b1, b2) == b0 as int * 65536 + b1 as int * 256 + b2 as int
    ensures 0 <= DecodePick(b0, b1, b2) < 0x100_0000
  {
    assert Pow2(8) == 256 && Pow2(16) == 65536;
    var x0, x1, x2 := b0 as nat, b1 as nat, b2 as nat;
    OrIntoLowBits(x0, 16, x1 * 256);
    assert (x0 * 256 + x1) * Pow2(8) == x0 * 65536 + x1 * 256;
    OrIntoLowBits(x0 * 256 + x1, 8, x2);
  }

  /** The picking colour of instance `id`, channels most significant first. */
  function EncodePick(id: int): (Byte, Byte, Byte)
    requires 0 <= id < 0x100_0000
  {
    ((id / 65536) as Byte, ((id / 256) % 256) as Byte, (id % 256) as Byte)
  }

  /** Decoding the colour of an id gives the id back, so ids up to 2^24 - 1
      survive the picking pass. */
  lemma DecodeEncode(id: int)
    requires 0 <= id < 0x100_0000
    ensures var (b0, b1, b2) := EncodePick(id); DecodePick(b0, b1, b2) == id
  {
    var (b0, b1, b2) := EncodePick(id);
    DecodeIsPositional(b0, b1, b2);
  }

  /** The picking pass clears to white, which decodes to 16777215: no instance. */
  lemma BackgroundPicksNothing()
    ensures DecodePick(255, 255, 255) == 0xff_ffff
    ensures !(-1 < DecodePick(255, 255, 255) < Instances)
  {
    DecodeIsPositional(255, 255, 255);
  }
}
