/** One snowflake (`getRandom`, `interpolation` and `Flake`, js/main.js:38-163).

    Every `Math.random()` the source calls is an argument here: a real in
    [0, 1). A flake's element and its inner element are represented by
    their inline styles and the inner element's class list. */
module Flakes {
  import opened Prelude
  import opened Style
  import opened Config

  const MinSize := 8
  const MaxSize := 18
  const MinOpacity := 0.6
  const MaxOpacity := 1.0
  /** Number of picture variants, `snowflake__inner_num_0` to `_8`. */
  const VariantCount := 9

  /** `getRandom(from, max)` with `Math.random()` returning `r`. */
  function GetRandom(from: int, max: int, r: real): int
    requires 0.0 <= r < 1.0
  {
    from + (r * (max - from) as real).Floor
  }

  /** For a non-empty range the draw falls in [from, max). */
  lemma GetRandomInRange(from: int, max: int, r: real)
    requires 0.0 <= r < 1.0 && from < max
    ensures from <= GetRandom(from, max, r) < max
  {
    var d := (max - from) as real;
    assert 0.0 <= r * d by {
      assert 0.0 <= d;
    }
    assert r * d < d by {
      assert (1.0 - r) * d > 0.0;
    }
    var x := r * d;
    assert x.Floor as real <= x;
    assert 0 <= x.Floor < max - from;
  }

  /** Every integer of [from, max) is drawn for some `Math.random()` value. */
  lemma GetRandomReaches(from: int, max: int, k: int)
    requires from < max && 0 <= k < max - from
    ensures var r := k as real / (max - from) as real;
      0.0 <= r < 1.0 && GetRandom(from, max, r) == from + k
  {
    var d := (max - from) as real;
    var r := k as real / d;
    assert r * d == k as real;
    assert r < 1.0 by {
      assert k as real < d;
    }
  }

  /** `interpolation(x, x1, x2, y1, y2)`: the value at `x` of the line through
      (x1, y1) and (x2, y2). */
  function Interpolation(x: real, x1: real, x2: real, y1: real, y2: real): real
    requires x1 != x2
  {
    y1 + (y2 - y1) * (x - x1) / (x2 - x1)
  }

  lemma InterpolationEnds(x1: real, x2: real, y1: real, y2: real)
    requires x1 != x2
    ensures Interpolation(x1, x1, x2, y1, y2) == y1
    ensures Interpolation(x2, x1, x2, y1, y2) == y2
  {
    assert (y2 - y1) * (x2 - x1) / (x2 - x1) == y2 - y1;
  }

  /** On a rising line a larger argument never gives a smaller value, and on a
      falling line never a larger one. */
  lemma InterpolationMonotone(a: real, b: real, x1: real, x2: real, y1: real, y2: real)
    requires x1 < x2 && a <= b
    ensures y1 <= y2 ==> Interpolation(a, x1, x2, y1, y2) <= Interpolation(b, x1, x2, y1, y2)
    ensures y2 <= y1 ==> Interpolation(b, x1, x2, y1, y2) <= Interpolation(a, x1, x2, y1, y2)
  {
    var w := x2 - x1;
    var ta, tb := (a - x1) / w, (b - x1) / w;
    assert ta <= tb;
    assert Interpolation(a, x1, x2, y1, y2) == y1 + (y2 - y1) * ta;
    assert Interpolation(b, x1, x2, y1, y2) == y1 + (y2 - y1) * tb;
    if y1 <= y2 {
      assert (y2 - y1) * ta <= (y2 - y1) * tb;
    } else {
      assert (y1 - y2) * ta <= (y1 - y2) * tb;
    }
  }

  /** Between the two ends the value lies between the two end values. */
  lemma InterpolationBetween(x: real, x1: real, x2: real, y1: real, y2: real)
    requires x1 < x2 && x1 <= x <= x2
    ensures y1 <= y2 ==> y1 <= Interpolation(x, x1, x2, y1, y2) <= y2
    ensures y2 <= y1 ==> y2 <= Interpolation(x, x1, x2, y1, y2) <= y1
  {
    InterpolationEnds(x1, x2, y1, y2);
    InterpolationMonotone(x1, x, x1, x2, y1, y2);
    InterpolationMonotone(x, x2, x1, x2, y1, y2);
  }

  /** The random numbers one flake's construction consumes. */
  datatype FlakeDraws = FlakeDraws(
    size: real,        // getRandom for the size, used only with useScale
    delay: real,       // animation delay of the outer element
    left: real,        // horizontal start position
    variant: real,     // getRandom for the picture variant
    rotate: real,      // rotation direction, used only with useRotate
    innerDelay: real)  // animation delay of the inner element

  predicate Unit(r: real) { 0.0 <= r < 1.0 }

  predicate ValidDraws(d: FlakeDraws)
  {
    Unit(d.size) && Unit(d.delay) && Unit(d.left) && Unit(d.variant) &&
    Unit(d.rotate) && Unit(d.innerDelay)
  }

  /** js/main.js:76. A scaled flake takes a random size in [MinSize, MaxSize);
      an unscaled one has the largest size. */
  function FlakeSize(useScale: bool, r: real): (size: int)
    requires Unit(r)
    ensures MinSize <= size <= MaxSize
    ensures useScale ==> size < MaxSize
    ensures !useScale ==> size == MaxSize
  {
    if useScale then
      GetRandomInRange(MinSize, MaxSize, r);
      GetRandom(MinSize, MaxSize, r)
    else
      MaxSize
  }

  /** js/main.js:98. The picture variant, one of the `snowflake__inner_num_*` classes. */
  function Variant(r: real): (v: int)
    requires Unit(r)
    ensures 0 <= v < VariantCount
  {
    GetRandomInRange(0, VariantCount, r);
    GetRandom(0, VariantCount, r)
  }

  /** js/main.js:90, the stacking order of a scaled flake. */
  function FlakeZIndex(base: int, size: int): int
  {
    base + size * 10
  }

  /** js/main.js:91, the opacity of a scaled flake. */
  function Opacity(size: int): real
  {
    Interpolation(size as real, MinSize as real, MaxSize as real, MinOpacity, MaxOpacity)
  }

  /** js/main.js:125: the longest fall time, for the smallest flakes. */
  function SpeedMax(containerHeight: int, speed: real): real
    requires speed != 0.0
  {
    containerHeight as real / 50.0 / speed
  }

  /** js/main.js:130: fall time, from `speedMax` down to a third of it. */
  function Duration(size: int, containerHeight: int, speed: real): real
    requires speed != 0.0
  {
    var speedMax := SpeedMax(containerHeight, speed);
    Interpolation(size as real, MinSize as real, MaxSize as real, speedMax, speedMax / 3.0)
  }

  /** The two timing values `getAnimationProps` computes. */
  datatype Timing = Timing(delay: real, duration: real)

  /** `getAnimationProps(containerHeight, speed)` (js/main.js:124-132) of a
      flake of the given size, with `Math.random()` returning `r`: a delay
      drawn in [0, speedMax) and the size's fall time. */
  function FlakeTiming(size: int, containerHeight: int, speed: real, r: real): Timing
    requires speed != 0.0
  {
    Timing(r * SpeedMax(containerHeight, speed), Duration(size, containerHeight, speed))
  }

  /** The object literal `getAnimationProps` returns. */
  function TimingProps(t: Timing): Props
  {
    [ ("animationDelay", Seconds(t.delay)), ("animationDuration", Seconds(t.duration)) ]
  }

  /** The outer element's style properties (js/main.js:81-92), `t` being the
      flake's timing. */
  function FlakeStyleProps(size: int, t: Timing, params: Params, d: FlakeDraws): Props
  {
    TimingProps(t) +
    [ ("left", Percent(d.left * 100.0)), ("width", Px(size)), ("height", Px(size)) ] +
    (if params.useScale then
       [ ("zIndex", Integer(FlakeZIndex(params.zIndex, size))), ("opacity", Number(Opacity(size))) ]
     else [])
  }

  /** The animation rule for horizontal drift of flakes of size `i`. */
  function DriftRuleName(i: int): string
  {
    "snowflake_x_" + IntToString(i)
  }

  /** The inner element's style properties (js/main.js:103-106). */
  function InnerProps(size: int, d: FlakeDraws): Props
  {
    [ ("animationName", Keyword(DriftRuleName(size))), ("animationDelay", Seconds(d.innerDelay)) ]
  }

  /** The inner element's classes (js/main.js:97-101). */
  function InnerClasses(useRotate: bool, d: FlakeDraws): set<string>
    requires ValidDraws(d)
  {
    {"snowflake__inner", "snowflake__inner_num_" + IntToString(Variant(d.variant))} +
    (if !useRotate then {}
     else if d.rotate > 0.5 then {"snowflake__inner_use-rotate"}
     else {"snowflake__inner_use-rotate-reverse"})
  }

  /** Everything a flake holds, as one value. */
  datatype Look = Look(
    size: int,
    style: map<string, Value>,          // inline style of the element `_elem`
    innerClasses: set<string>,          // class list of the element inside it
    innerStyle: map<string, Value>,     // inline style of the element inside it
    hasElem: bool)                      // `_elem` still held (cleared by `destroy`)

  /** What `new Flake(container, containerHeight, params)` builds from the
      draws `d` (js/main.js:73-112). */
  function InitialLook(prefix: string, containerHeight: int, params: Params, d: FlakeDraws): (l: Look)
    requires params.speed != 0.0 && ValidDraws(d)
    ensures MinSize <= l.size <= MaxSize && l.hasElem
  {
    var size := FlakeSize(params.useScale, d.size);
    Look(size,
         Restyled(prefix, map[], FlakeStyleProps(size, FlakeTiming(size, containerHeight, params.speed, d.delay), params, d)),
         InnerClasses(params.useRotate, d),
         Restyled(prefix, map[], InnerProps(size, d)),
         true)
  }

  /** `resize(containerHeight, speed)` (js/main.js:142-145): a new timing,
      its delay drawn from `r`, written over the element's style. */
  function Retime(l: Look, prefix: string, containerHeight: int, speed: real, r: real): Look
    requires speed != 0.0
  {
    l.(style := Restyled(prefix, l.style, TimingProps(FlakeTiming(l.size, containerHeight, speed, r))))
  }

  class Flake {
    const size: int
    var style: map<string, Value>
    var innerClasses: set<string>
    var innerStyle: map<string, Value>
    var hasElem: bool

    function Current(): Look
      reads this
    {
      Look(size, style, innerClasses, innerStyle, hasElem)
    }

    constructor (prefix: string, containerHeight: int, params: Params, d: FlakeDraws)
      requires params.speed != 0.0 && ValidDraws(d)
      ensures Current() == InitialLook(prefix, containerHeight, params, d)
      ensures MinSize <= size <= MaxSize
    {
      var sz := FlakeSize(params.useScale, d.size);
      size := sz;
      var timing := FlakeTiming(sz, containerHeight, params.speed, d.delay);
      var outer := SetStyle(prefix, map[], FlakeStyleProps(sz, timing, params, d));
      var inner := SetStyle(prefix, map[], InnerProps(sz, d));
      style := outer;
      innerClasses := InnerClasses(params.useRotate, d);
      innerStyle := inner;
      hasElem := true;
    }

    /** `resize(containerHeight, speed)`; `r` is the `Math.random()` of the new delay. */
    method Resize(prefix: string, containerHeight: int, speed: real, r: real)
      requires speed != 0.0
      modifies this`style
      ensures Current() == Retime(old(Current()), prefix, containerHeight, speed, r)
    {
      style := SetStyle(prefix, style, TimingProps(FlakeTiming(size, containerHeight, speed, r)));
    }

    /** `destroy()`: drops the element reference. */
    method Destroy()
      modifies this`hasElem
      ensures Current() == old(Current()).(hasElem := false)
    {
      hasElem := false;
    }
  }

  // ----- properties of the attribute rules -----

  /** Larger scaled flakes are drawn above smaller ones and are at least as opaque;
      every opacity lies in [MinOpacity, MaxOpacity]. */
  lemma LargerFlakesInFront(base: int, s1: int, s2: int)
    requires MinSize <= s1 < s2 <= MaxSize
    ensures FlakeZIndex(base, s1) < FlakeZIndex(base, s2)
    ensures Opacity(s1) <= Opacity(s2)
    ensures MinOpacity <= Opacity(s1) && Opacity(s2) <= MaxOpacity
  {
    InterpolationMonotone(s1 as real, s2 as real, MinSize as real, MaxSize as real, MinOpacity, MaxOpacity);
    InterpolationBetween(s1 as real, MinSize as real, MaxSize as real, MinOpacity, MaxOpacity);
    InterpolationBetween(s2 as real, MinSize as real, MaxSize as real, MinOpacity, MaxOpacity);
  }

  /** The fall time is `speedMax` for the smallest flakes and a third of it for
      the largest, and with a positive `speedMax` larger flakes never fall slower. */
  lemma DurationProfile(containerHeight: int, speed: real, s1: int, s2: int)
    requires speed != 0.0 && s1 <= s2
    ensures Duration(MinSize, containerHeight, speed) == SpeedMax(containerHeight, speed)
    ensures Duration(MaxSize, containerHeight, speed) == SpeedMax(containerHeight, speed) / 3.0
    ensures SpeedMax(containerHeight, speed) > 0.0 ==>
              Duration(s2, containerHeight, speed) <= Duration(s1, containerHeight, speed)
  {
    var m := SpeedMax(containerHeight, speed);
    InterpolationEnds(MinSize as real, MaxSize as real, m, m / 3.0);
    InterpolationMonotone(s1 as real, s2 as real, MinSize as real, MaxSize as real, m, m / 3.0);
  }

  /** `r * m` with `r` in [0, 1) lies between 0 and `m`, reaching 0 but never `m`. */
  lemma ScaledDraw(r: real, m: real)
    requires Unit(r)
    ensures m > 0.0 ==> 0.0 <= r * m < m
    ensures m < 0.0 ==> m < r * m <= 0.0
    ensures m == 0.0 ==> r * m == 0.0
  {
    if m > 0.0 {
      assert (1.0 - r) * m > 0.0;
    } else if m < 0.0 {
      assert (1.0 - r) * -m > 0.0;
    }
  }

  /** The delay `getAnimationProps` draws lies in [0, speedMax) whenever
      `speedMax` is positive (a field of positive height, a positive speed). */
  lemma DelayRange(size: int, containerHeight: int, speed: real, r: real)
    requires speed != 0.0 && Unit(r)
    ensures var m := SpeedMax(containerHeight, speed);
      m > 0.0 ==> 0.0 <= FlakeTiming(size, containerHeight, speed, r).delay < m
  {
    var m := SpeedMax(containerHeight, speed);
    var t := FlakeTiming(size, containerHeight, speed, r);
    assert t.delay == r * m;
    ScaledDraw(r, m);
  }

  lemma AnimationKeysDiffer(prefix: string)
    ensures StyleKey(prefix, "animationDelay") != StyleKey(prefix, "animationDuration")
    ensures StyleKey(prefix, "animationName") != StyleKey(prefix, "animationDelay")
    ensures StyleKey(prefix, "animationName") != StyleKey(prefix, "animationDuration")
    ensures |StyleKey(prefix, "animationDelay")| >= 14
    ensures |StyleKey(prefix, "animationDuration")| >= 17
    ensures StyleKey(prefix, "left") == "left" && StyleKey(prefix, "width") == "width"
    ensures StyleKey(prefix, "height") == "height" && StyleKey(prefix, "zIndex") == "zIndex"
    ensures StyleKey(prefix, "opacity") == "opacity"
    ensures var kd := StyleKey(prefix, "animationDelay");
      kd != "left" && kd != "width" && kd != "height" && kd != "zIndex" && kd != "opacity"
    ensures var kr := StyleKey(prefix, "animationDuration");
      kr != "left" && kr != "width" && kr != "height" && kr != "zIndex" && kr != "opacity"
    ensures var kn := StyleKey(prefix, "animationName");
      kn != "left" && kn != "width" && kn != "height" && kn != "zIndex" && kn != "opacity"
  {
    assert OccursAt("animationDelay", AnimationWord, 0);
    assert OccursAt("animationDuration", AnimationWord, 0);
    assert OccursAt("animationName", AnimationWord, 0);
  }

  /** What writing a timing leaves in a style: the old style with the delay
      and the duration overwritten, under their possibly prefixed names. */
  lemma TimingStyle(prefix: string, style: map<string, Value>, t: Timing)
    ensures Restyled(prefix, style, TimingProps(t)) ==
            style[StyleKey(prefix, "animationDelay") := Seconds(t.delay)]
                 [StyleKey(prefix, "animationDuration") := Seconds(t.duration)]
  {
    RestyledPair(prefix, style, ("animationDelay", Seconds(t.delay)), ("animationDuration", Seconds(t.duration)));
  }

  /** Position and size: three properties whose names are never prefixed. */
  lemma PlacementStyle(prefix: string, style: map<string, Value>, vl: Value, vw: Value, vh: Value)
    ensures Restyled(prefix, style, [("left", vl), ("width", vw), ("height", vh)]) ==
            style["left" := vl]["width" := vw]["height" := vh]
  {
    AnimationKeysDiffer(prefix);
    RestyledPair(prefix, style, ("left", vl), ("width", vw));
    RestyledSnoc(prefix, style, [("left", vl), ("width", vw)], ("height", vh));
    assert [("left", vl), ("width", vw)] + [("height", vh)] == [("left", vl), ("width", vw), ("height", vh)];
  }

  /** What the flake's element style holds after construction: both timing
      values under their (possibly prefixed) names, position and size, and a
      stacking order and opacity exactly when the flake is scaled. */
  lemma FlakeStyleMap(prefix: string, size: int, t: Timing, params: Params, d: FlakeDraws)
    ensures var m := map[][StyleKey(prefix, "animationDelay") := Seconds(t.delay)]
                  [StyleKey(prefix, "animationDuration") := Seconds(t.duration)]
                  ["left" := Percent(d.left * 100.0)]["width" := Px(size)]["height" := Px(size)];
      Restyled(prefix, map[], FlakeStyleProps(size, t, params, d)) ==
      if params.useScale
      then m["zIndex" := Integer(FlakeZIndex(params.zIndex, size))]["opacity" := Number(Opacity(size))]
      else m
  {
    var placement := [("left", Percent(d.left * 100.0)), ("width", Px(size)), ("height", Px(size))];
    var scaled := if params.useScale then
        [ ("zIndex", Integer(FlakeZIndex(params.zIndex, size))), ("opacity", Number(Opacity(size))) ]
      else [];
    var props := FlakeStyleProps(size, t, params, d);
    assert props == TimingProps(t) + placement + scaled;
    TimingStyle(prefix, map[], t);
    var timed := Restyled(prefix, map[], TimingProps(t));
    PlacementStyle(prefix, timed, Percent(d.left * 100.0), Px(size), Px(size));
    RestyledAppend(prefix, map[], TimingProps(t), placement);
    var placed := Restyled(prefix, map[], TimingProps(t) + placement);
    assert placed == timed["left" := Percent(d.left * 100.0)]["width" := Px(size)]["height" := Px(size)];
    RestyledAppend(prefix, map[], TimingProps(t) + placement, scaled);
    assert Restyled(prefix, map[], props) == Restyled(prefix, placed, scaled);
    if params.useScale {
      AnimationKeysDiffer(prefix);
      RestyledPair(prefix, placed, scaled[0], scaled[1]);
    } else {
      assert scaled == [];
    }
  }

  /** `resize` rewrites the delay and the duration and nothing else: every
      other property keeps its value, and no property appears or disappears
      apart from the two timing names. */
  lemma ResizeTouchesOnlyTiming(prefix: string, style: map<string, Value>, t: Timing, key: string)
    requires key != StyleKey(prefix, "animationDelay") && key != StyleKey(prefix, "animationDuration")
    ensures var st := Restyled(prefix, style, TimingProps(t));
      && st.Keys == style.Keys + {StyleKey(prefix, "animationDelay"), StyleKey(prefix, "animationDuration")}
      && (key in st <==> key in style)
      && (key in style ==> st[key] == style[key])
  {
    TimingStyle(prefix, style, t);
    var kd, kr := StyleKey(prefix, "animationDelay"), StyleKey(prefix, "animationDuration");
    var st := style[kd := Seconds(t.delay)][kr := Seconds(t.duration)];
    assert st.Keys == style.Keys + {kd, kr};
  }

  /** The inner element animates with the drift rule of the flake's own size. */
  lemma InnerStyleContents(prefix: string, size: int, d: FlakeDraws)
    ensures var st := Restyled(prefix, map[], InnerProps(size, d));
      && StyleKey(prefix, "animationName") in st
      && st[StyleKey(prefix, "animationName")] == Keyword(DriftRuleName(size))
      && StyleKey(prefix, "animationDelay") in st
      && st[StyleKey(prefix, "animationDelay")] == Seconds(d.innerDelay)
  {
    var kn, kd := StyleKey(prefix, "animationName"), StyleKey(prefix, "animationDelay");
    AnimationKeysDiffer(prefix);
    assert kn != kd;
    RestyledPair(prefix, map[], ("animationName", Keyword(DriftRuleName(size))), ("animationDelay", Seconds(d.innerDelay)));
  }
  /** The entries of the outer element's style map, for any two timing names
      that differ from each other and from the unprefixed names. */
  lemma StyleMapEntries(kd: string, kr: string, vd: Value, vr: Value, vl: Value, vw: Value, vh: Value,
                        scaled: bool, vz: Value, vo: Value)
    requires kd != kr
    requires kd != "left" && kd != "width" && kd != "height" && kd != "zIndex" && kd != "opacity"
    requires kr != "left" && kr != "width" && kr != "height" && kr != "zIndex" && kr != "opacity"
    ensures var m := map[][kd := vd][kr := vr]["left" := vl]["width" := vw]["height" := vh];
      var st := if scaled then m["zIndex" := vz]["opacity" := vo] else m;
      && ("zIndex" in st <==> scaled) && ("opacity" in st <==> scaled)
      && (scaled ==> st["zIndex"] == vz && st["opacity"] == vo)
      && kd in st && st[kd] == vd && kr in st && st[kr] == vr
      && "left" in st && st["left"] == vl
  {
    var m0 := map[][kd := vd][kr := vr];
    assert m0[kd] == vd && m0[kr] == vr;
    var m := m0["left" := vl]["width" := vw]["height" := vh];
    assert m.Keys == {kd, kr, "left", "width", "height"};
    assert m[kd] == vd && m[kr] == vr;
  }

  /** The outer element's style, property by property: a stacking order and
      an opacity exactly when the flake is scaled, and both timing values. */
  lemma FlakeStyleEntries(prefix: string, size: int, t: Timing, p: Params, d: FlakeDraws)
    ensures var st := Restyled(prefix, map[], FlakeStyleProps(size, t, p, d));
      && "left" in st && st["left"] == Percent(d.left * 100.0)
      && ("zIndex" in st <==> p.useScale) && ("opacity" in st <==> p.useScale)
      && (p.useScale ==> st["zIndex"] == Integer(FlakeZIndex(p.zIndex, size)))
      && (p.useScale ==> st["opacity"] == Number(Opacity(size)))
      && StyleKey(prefix, "animationDelay") in st && st[StyleKey(prefix, "animationDelay")] == Seconds(t.delay)
      && StyleKey(prefix, "animationDuration") in st && st[StyleKey(prefix, "animationDuration")] == Seconds(t.duration)
  {
    FlakeStyleMap(prefix, size, t, p, d);
    AnimationKeysDiffer(prefix);
    StyleMapEntries(StyleKey(prefix, "animationDelay"), StyleKey(prefix, "animationDuration"),
                    Seconds(t.delay), Seconds(t.duration), Percent(d.left * 100.0), Px(size), Px(size),
                    p.useScale, Integer(FlakeZIndex(p.zIndex, size)), Number(Opacity(size)));
  }

  /** The outer element of a new flake: a start position in [0%, 100%), a
      stacking order and an opacity exactly when the flake is scaled, the
      delay drawn from `d.delay`, and the fall time of its size. */
  lemma InitialStyleContents(prefix: string, h: int, p: Params, d: FlakeDraws)
    requires p.speed != 0.0 && ValidDraws(d)
    ensures var l := InitialLook(prefix, h, p, d);
      && "left" in l.style && l.style["left"].Percent?
      && 0.0 <= l.style["left"].pct < 100.0
      && ("zIndex" in l.style <==> p.useScale) && ("opacity" in l.style <==> p.useScale)
      && (p.useScale ==> l.style["zIndex"] == Integer(FlakeZIndex(p.zIndex, l.size)))
      && (p.useScale ==> l.style["opacity"] == Number(Opacity(l.size)))
      && StyleKey(prefix, "animationDelay") in l.style
      && l.style[StyleKey(prefix, "animationDelay")] == Seconds(FlakeTiming(l.size, h, p.speed, d.delay).delay)
      && StyleKey(prefix, "animationDuration") in l.style
      && l.style[StyleKey(prefix, "animationDuration")] == Seconds(Duration(l.size, h, p.speed))
  {
    var size := FlakeSize(p.useScale, d.size);
    FlakeStyleEntries(prefix, size, FlakeTiming(size, h, p.speed, d.delay), p, d);
    ScaledDraw(d.left, 100.0);
  }

  /** The inner element's classes: the base class, the class of the picture
      variant, and a rotation class exactly when rotation is on, clockwise
      for a draw above one half and reversed otherwise. */
  lemma InnerClassesContents(useRotate: bool, d: FlakeDraws)
    requires ValidDraws(d)
    ensures var cs := InnerClasses(useRotate, d);
      && "snowflake__inner" in cs
      && "snowflake__inner_num_" + IntToString(Variant(d.variant)) in cs
      && (useRotate <==> "snowflake__inner_use-rotate" in cs || "snowflake__inner_use-rotate-reverse" in cs)
      && ("snowflake__inner_use-rotate" in cs <==> useRotate && d.rotate > 0.5)
      && ("snowflake__inner_use-rotate-reverse" in cs <==> useRotate && d.rotate <= 0.5)
  {
    var v := Variant(d.variant);
    assert |"snowflake__inner_num_" + IntToString(v)| == 22;
  }

  /** With rotation on, both directions are drawn: a draw above one half
      turns the flake clockwise, any other draw turns it the other way. */
  lemma RotationDirectionsReached(d: FlakeDraws)
    requires ValidDraws(d)
    ensures "snowflake__inner_use-rotate" in InnerClasses(true, d.(rotate := 0.75))
    ensures "snowflake__inner_use-rotate-reverse" !in InnerClasses(true, d.(rotate := 0.75))
    ensures "snowflake__inner_use-rotate-reverse" in InnerClasses(true, d.(rotate := 0.25))
    ensures "snowflake__inner_use-rotate" !in InnerClasses(true, d.(rotate := 0.25))
  {
    InnerClassesContents(true, d.(rotate := 0.75));
    InnerClassesContents(true, d.(rotate := 0.25));
  }

  /** The inner element of a new flake: the base class, the class of one of
      the picture variants, a rotation class exactly when rotation is on, and
      the drift rule of the flake's own size. */
  lemma InitialInnerContents(prefix: string, h: int, p: Params, d: FlakeDraws)
    requires p.speed != 0.0 && ValidDraws(d)
    ensures var l := InitialLook(prefix, h, p, d);
      && "snowflake__inner" in l.innerClasses
      && "snowflake__inner_num_" + IntToString(Variant(d.variant)) in l.innerClasses
      && (p.useRotate <==> "snowflake__inner_use-rotate" in l.innerClasses ||
                           "snowflake__inner_use-rotate-reverse" in l.innerClasses)
      && StyleKey(prefix, "animationName") in l.innerStyle
      && l.innerStyle[StyleKey(prefix, "animationName")] == Keyword(DriftRuleName(l.size))
  {
    InnerStyleContents(prefix, FlakeSize(p.useScale, d.size), d);
    InnerClassesContents(p.useRotate, d);
  }

  /** `resize` keeps the size, the inner element and the element reference;
      it writes the new delay and the new fall time and leaves every other
      property of the element as it was. */
  lemma RetimeContents(l: Look, prefix: string, h: int, speed: real, r: real, key: string)
    requires speed != 0.0
    requires key != StyleKey(prefix, "animationDelay") && key != StyleKey(prefix, "animationDuration")
    ensures var l' := Retime(l, prefix, h, speed, r);
      && l'.size == l.size && l'.innerClasses == l.innerClasses && l'.innerStyle == l.innerStyle
      && l'.hasElem == l.hasElem
      && StyleKey(prefix, "animationDelay") in l'.style
      && l'.style[StyleKey(prefix, "animationDelay")] == Seconds(r * SpeedMax(h, speed))
      && StyleKey(prefix, "animationDuration") in l'.style
      && l'.style[StyleKey(prefix, "animationDuration")] == Seconds(Duration(l.size, h, speed))
      && (key in l'.style <==> key in l.style)
      && (key in l.style ==> l'.style[key] == l.style[key])
  {
    var t := FlakeTiming(l.size, h, speed, r);
    ResizeTouchesOnlyTiming(prefix, l.style, t, key);
    TimingStyle(prefix, l.style, t);
    AnimationKeysDiffer(prefix);
  }
}
