/** The field controller's configuration (`_setParams`, js/main.js:265-278).

    JavaScript's `a || b` keeps `a` unless it is falsy; for the numeric
    options this means an absent option or a zero is replaced by the
    default. The two flags are tested with `in` instead, so an explicit
    `false` survives. */
module Config {
  import opened Prelude

  /** Where the field is attached: the page body, or some other element
      (identified only by an abstract number). */
  datatype Target = DocumentBody | Element(id: nat)

  /** What a caller may pass; `None` is an option left out. */
  datatype Options = Options(
    container: Option<Target>,
    count: Option<int>,
    speed: Option<real>,
    zIndex: Option<int>,
    useRotate: Option<bool>,
    useScale: Option<bool>,
    width: Option<int>,
    height: Option<int>)

  /** The configuration after defaulting. */
  datatype Params = Params(
    container: Target,
    count: int,
    speed: real,
    zIndex: int,
    useRotate: bool,
    useScale: bool,
    width: Option<int>,
    height: Option<int>)

  const DefaultCount := 50
  const DefaultSpeed := 1.0
  const DefaultZIndex := 9999

  const NoOptions := Options(None, None, None, None, None, None, None, None)

  /** `n || fallback` for a number that may be absent. */
  function OrInt(n: Option<int>, fallback: int): int
  {
    if n.Some? && n.value != 0 then n.value else fallback
  }

  function OrReal(x: Option<real>, fallback: real): real
  {
    if x.Some? && x.value != 0.0 then x.value else fallback
  }

  /** `'key' in params ? params.key : true` */
  function OrTrue(b: Option<bool>): bool
  {
    if b.Some? then b.value else true
  }

  /** `_setParams(params)`; `None` stands for a missing `params` argument,
      which the source treats as `{}`. */
  function SetParams(params: Option<Options>): (p: Params)
    ensures p.count != 0 && p.speed != 0.0 && p.zIndex != 0
  {
    var o := if params.Some? then params.value else NoOptions;
    Params(
      if o.container.Some? then o.container.value else DocumentBody,
      OrInt(o.count, DefaultCount),
      OrReal(o.speed, DefaultSpeed),
      OrInt(o.zIndex, DefaultZIndex),
      OrTrue(o.useRotate),
      OrTrue(o.useScale),
      o.width,
      o.height)
  }

  /** Every option spelled out explicitly. */
  function AsOptions(p: Params): Options
  {
    Options(Some(p.container), Some(p.count), Some(p.speed), Some(p.zIndex),
            Some(p.useRotate), Some(p.useScale), p.width, p.height)
  }

  /** The defaulting rules, one option at a time. */
  lemma SetParamsDefaults(o: Options)
    ensures var p := SetParams(Some(o));
      && (o.count == None || o.count == Some(0) ==> p.count == 50)
      && (o.speed == None || o.speed == Some(0.0) ==> p.speed == 1.0)
      && (o.zIndex == None || o.zIndex == Some(0) ==> p.zIndex == 9999)
      && (o.count.Some? && o.count.value != 0 ==> p.count == o.count.value)
      && (o.speed.Some? && o.speed.value != 0.0 ==> p.speed == o.speed.value)
      && (o.zIndex.Some? && o.zIndex.value != 0 ==> p.zIndex == o.zIndex.value)
      && (o.useRotate == None ==> p.useRotate) && (o.useScale == None ==> p.useScale)
      && (o.useRotate.Some? ==> p.useRotate == o.useRotate.value)
      && (o.useScale.Some? ==> p.useScale == o.useScale.value)
      && (o.container == None ==> p.container == DocumentBody)
      && (o.container.Some? ==> p.container == o.container.value)
      && p.width == o.width && p.height == o.height
      && SetParams(None) == SetParams(Some(NoOptions))
  {
  }

  /** A configuration with no falsy number is reproduced exactly from its
      explicit spelling: defaulting never overrides a value it could have produced. */
  lemma SetParamsRoundTrip(p: Params)
    requires p.count != 0 && p.speed != 0.0 && p.zIndex != 0
    ensures SetParams(Some(AsOptions(p))) == p
  {
  }

  /** Defaulting twice is defaulting once. */
  lemma SetParamsIdempotent(o: Option<Options>)
    ensures SetParams(Some(AsOptions(SetParams(o)))) == SetParams(o)
  {
    SetParamsRoundTrip(SetParams(o));
  }
}
