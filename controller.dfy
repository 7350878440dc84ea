/** The field controller (`Snowflakes`, js/main.js:169-357).

    A field is a container element holding the flakes, its own animation
    style sheet, and a share in the main style sheet. The page's window
    height and the container's `offsetHeight` are inputs, as are the
    `Math.random()` values each flake consumes. */
module Controller {
  import opened Prelude
  import opened Style
  import opened Config
  import opened Flakes
  import opened Keyframes
  import opened SharedStyle

  const PausedClass := "snowflakes_paused"

  /** `_height()` (js/main.js:335-337): the explicit height when one is set
      (and not 0), else the window height for a field on the page body, else
      the container's height plus the largest flake size. */
  function Height(p: Params, isBody: bool, winHeight: int, offsetHeight: int): (h: int)
    ensures p.height.Some? && p.height.value != 0 ==> h == p.height.value
    ensures !(p.height.Some? && p.height.value != 0) ==>
              h == if isBody then winHeight else offsetHeight + MaxSize
  {
    if p.height.Some? && p.height.value != 0 then p.height.value
    else if isBody then winHeight
    else offsetHeight + MaxSize
  }

  /** Only a field on the page body without an explicit height follows the
      window: for every other field a new window height changes nothing. */
  lemma HeightFollowsWindow(p: Params, isBody: bool, w1: int, w2: int, offsetHeight: int)
    requires w1 != w2
    ensures Height(p, isBody, w1, offsetHeight) != Height(p, isBody, w2, offsetHeight) <==>
            isBody && !(p.height.Some? && p.height.value != 0)
  {
  }

  /** How many flakes the constructor's loop creates: `count` of them, and
      none when `count` is negative. */
  function FlakeCount(p: Params): nat
  {
    if p.count > 0 then p.count else 0
  }

  /** The container's classes after construction (js/main.js:195-196). */
  function ContainerClasses(isBody: bool): set<string>
  {
    {"snowflakes"} + (if isBody then {"snowflakes_body"} else {})
  }

  /** `start()` and `stop()` on the container's class list. */
  function Started(classes: set<string>): set<string>
  {
    classes - {PausedClass}
  }

  function Stopped(classes: set<string>): set<string>
  {
    classes + {PausedClass}
  }

  /** Starting and stopping only toggle the paused class, each undoes the
      other, and doing either twice is doing it once. */
  lemma StartStopToggle(classes: set<string>, c: string)
    requires c != PausedClass
    ensures PausedClass !in Started(classes) && PausedClass in Stopped(classes)
    ensures (c in Started(classes) <==> c in classes) && (c in Stopped(classes) <==> c in classes)
    ensures Started(Stopped(classes)) == Started(classes) && Stopped(Started(classes)) == Stopped(classes)
    ensures Started(Started(classes)) == Started(classes) && Stopped(Stopped(classes)) == Stopped(classes)
    ensures PausedClass !in classes ==> Started(Stopped(classes)) == classes
  {
  }

  /** What `_onResize` leaves in the container's style: it is hidden and
      shown again, so only `display` changes, to "block". */
  lemma ResizeDisplay(prefix: string, style: map<string, Value>)
    ensures Restyled(prefix, Restyled(prefix, style, [("display", Keyword("none"))]), [("display", Keyword("block"))]) ==
            style["display" := Keyword("block")]
  {
    assert StyleKey(prefix, "display") == "display";
    RestyledSnoc(prefix, style, [], ("display", Keyword("none")));
    var hidden := Restyled(prefix, style, [("display", Keyword("none"))]);
    RestyledSnoc(prefix, hidden, [], ("display", Keyword("block")));
  }

  /** The container style after construction holds the field's stacking order. */
  lemma ContainerStyle(prefix: string, zIndex: int)
    ensures Restyled(prefix, map[], [("zIndex", Integer(zIndex))]) == map["zIndex" := Integer(zIndex)]
  {
    assert StyleKey(prefix, "zIndex") == "zIndex";
    RestyledSnoc(prefix, map[], [], ("zIndex", Integer(zIndex)));
  }

  predicate Distinct(flakes: seq<Flake>)
  {
    forall i, j :: 0 <= i < j < |flakes| ==> flakes[i] != flakes[j]
  }

  /** One more flake with the look made from the next draws. */
  lemma ExtendLooks(fl: seq<Flake>, f: Flake, prefix: string, h: int, p: Params, draws: seq<FlakeDraws>)
    requires p.speed != 0.0 && |fl| < |draws|
    requires forall k :: 0 <= k < |draws| ==> ValidDraws(draws[k])
    requires forall k :: 0 <= k < |fl| ==> fl[k].Current() == InitialLook(prefix, h, p, draws[k])
    requires f.Current() == InitialLook(prefix, h, p, draws[|fl|])
    ensures forall k :: 0 <= k <= |fl| ==> (fl + [f])[k].Current() == InitialLook(prefix, h, p, draws[k])
  {
  }

  /** The constructor's loop (js/main.js:221-223): `count` new flakes, the
      `k`-th made from `draws[k]`. */
  method MakeFlakes(prefix: string, h: int, p: Params, draws: seq<FlakeDraws>) returns (fl: seq<Flake>)
    requires p.speed != 0.0 && |draws| >= FlakeCount(p)
    requires forall k :: 0 <= k < |draws| ==> ValidDraws(draws[k])
    ensures |fl| == FlakeCount(p) && Distinct(fl)
    ensures forall k :: 0 <= k < |fl| ==> fresh(fl[k]) && fl[k].Current() == InitialLook(prefix, h, p, draws[k])
  {
    fl := [];
    var i := 0;
    while i < p.count
      invariant 0 <= i <= FlakeCount(p) && |fl| == i
      invariant forall k :: 0 <= k < i ==> fresh(fl[k])
      invariant forall k :: 0 <= k < i ==> fl[k].Current() == InitialLook(prefix, h, p, draws[k])
      invariant Distinct(fl)
    {
      var f := new Flake(prefix, h, p, draws[i]);
      ExtendLooks(fl, f, prefix, h, p, draws);
      fl := fl + [f];
      i := i + 1;
    }
  }

  /** The resize loop of `_onResize` (js/main.js:212-214): every flake gets
      a new timing, the `k`-th with its delay drawn from `delays[k]`. */
  method ResizeFlakes(flakes: seq<Flake>, prefix: string, h: int, speed: real, delays: seq<real>)
    requires speed != 0.0 && |delays| >= |flakes| && Distinct(flakes)
    modifies flakes
    ensures forall k :: 0 <= k < |flakes| ==>
              flakes[k].Current() == Retime(old(flakes[k].Current()), prefix, h, speed, delays[k])
  {
    for i := 0 to |flakes|
      invariant forall k :: 0 <= k < i ==>
                  flakes[k].Current() == Retime(old(flakes[k].Current()), prefix, h, speed, delays[k])
      invariant forall k :: i <= k < |flakes| ==> flakes[k].Current() == old(flakes[k].Current())
    {
      flakes[i].Resize(prefix, h, speed, delays[i]);
    }
  }

  /** The release loop of `destroy` (js/main.js:239-241): every flake drops
      its element and keeps everything else. */
  method DestroyFlakes(flakes: seq<Flake>)
    requires Distinct(flakes)
    modifies flakes
    ensures forall k :: 0 <= k < |flakes| ==> flakes[k].Current() == old(flakes[k].Current()).(hasElem := false)
  {
    for i := 0 to |flakes|
      invariant forall k :: 0 <= k < i ==> flakes[k].Current() == old(flakes[k].Current()).(hasElem := false)
      invariant forall k :: i <= k < |flakes| ==> flakes[k].Current() == old(flakes[k].Current())
    {
      flakes[i].Destroy();
    }
  }

  class Snowflakes {
    const shared: Shared
    var params: Params
    var isBody: bool
    /** False once `destroy` has run, when `_container`, `_flakes`,
        `params` and `_animationStyleNode` are deleted. */
    var alive: bool
    /** The container element `_container`. */
    var containerClasses: set<string>
    var containerStyle: map<string, Value>
    var containerAttached: bool
    var winHeight: int
    var animationStyleNode: StyleNode?
    var flakes: seq<Flake>

    ghost predicate Valid()
      reads this, shared, animationStyleNode
    {
      && params.speed != 0.0
      && (alive <==> animationStyleNode != null)
      && (alive ==> animationStyleNode != shared.mainStyleNode && animationStyleNode.attached)
      && Distinct(flakes)
    }

    /** `_height()` for the current window and container heights. */
    function CurrentHeight(offsetHeight: int): int
      reads this
    {
      Height(params, isBody, winHeight, offsetHeight)
    }

    /** `new Snowflakes(options)`; `draws[k]` are the random values the
        `k`-th flake consumes. */
    constructor (shared: Shared, options: Option<Options>, winHeight: int, offsetHeight: int, draws: seq<FlakeDraws>)
      requires shared.Valid()
      requires |draws| >= FlakeCount(SetParams(options))
      requires forall k :: 0 <= k < |draws| ==> ValidDraws(draws[k])
      modifies shared
      ensures this.shared == shared && params == SetParams(options) && alive
      ensures isBody == (params.container == DocumentBody)
      ensures containerClasses == ContainerClasses(isBody) && containerAttached
      ensures containerStyle == Restyled(shared.prefix, map[], [("zIndex", Integer(params.zIndex))])
      ensures shared.State() == AfterCreate(old(shared.State())) && shared.Valid()
      ensures old(shared.mainStyleNode) != null ==> shared.mainStyleNode == old(shared.mainStyleNode)
      ensures old(shared.mainStyleNode) == null ==> fresh(shared.mainStyleNode) && shared.mainStyleNode.css == MainStyle
      ensures this.winHeight == winHeight
      ensures fresh(animationStyleNode) && animationStyleNode.attached
      ensures animationStyleNode.css == Render(AnimationRules(Height(params, isBody, winHeight, offsetHeight)))
      ensures |flakes| == FlakeCount(params)
      ensures forall k :: 0 <= k < |flakes| ==>
                fresh(flakes[k]) && flakes[k].Current() == InitialLook(shared.prefix, Height(params, isBody, winHeight, offsetHeight), params, draws[k])
      ensures Valid()
    {
      var p := SetParams(options);
      var body := p.container == DocumentBody;
      var style := SetStyle(shared.prefix, map[], [("zIndex", Integer(p.zIndex))]);
      shared.AddMainStyle();
      this.shared := shared;
      params := p;
      isBody := body;
      alive := true;
      containerClasses := ContainerClasses(body);
      containerStyle := style;
      containerAttached := true;
      this.winHeight := winHeight;
      animationStyleNode := null;
      flakes := [];
      new;
      AddAnimationStyle(offsetHeight);
      flakes := MakeFlakes(shared.prefix, Height(p, body, winHeight, offsetHeight), p, draws);
    }

    /** `_addAnimationStyle()` (js/main.js:295-297): a new sheet for the
        current height. */
    method AddAnimationStyle(offsetHeight: int)
      modifies this`animationStyleNode
      ensures fresh(animationStyleNode) && animationStyleNode.attached
      ensures animationStyleNode.css == Render(AnimationRules(Height(params, isBody, winHeight, offsetHeight)))
    {
      var css := AnimationStyle(CurrentHeight(offsetHeight));
      animationStyleNode := InjectStyle(css, null);
    }

    /** `_updateAnimationStyle()` (js/main.js:299-301): the sheet for the
        current height, written into the field's existing style element. */
    method UpdateAnimationStyle(offsetHeight: int)
      requires animationStyleNode != null
      modifies animationStyleNode
      ensures animationStyleNode.css == Render(AnimationRules(CurrentHeight(offsetHeight)))
      ensures animationStyleNode.attached == old(animationStyleNode.attached)
    {
      var css := AnimationStyle(CurrentHeight(offsetHeight));
      var node := InjectStyle(css, animationStyleNode);
    }

    /** `_onResize`: takes the new window height, hides the container,
        gives every flake a new timing for the new height, rewrites the
        animation sheet in place and shows the container again. `delays[k]`
        is the random value the `k`-th flake's new delay is drawn from. */
    method OnResize(newWinHeight: int, offsetHeight: int, delays: seq<real>)
      requires Valid() && alive
      requires |delays| >= |flakes|
      modifies this, flakes, animationStyleNode
      ensures winHeight == newWinHeight
      ensures containerStyle == Restyled(shared.prefix, Restyled(shared.prefix, old(containerStyle),
                [("display", Keyword("none"))]), [("display", Keyword("block"))])
      ensures flakes == old(flakes) && params == old(params) && isBody == old(isBody) && alive
      ensures containerClasses == old(containerClasses) && containerAttached == old(containerAttached)
      ensures animationStyleNode == old(animationStyleNode)
      ensures animationStyleNode.css == Render(AnimationRules(CurrentHeight(offsetHeight)))
      ensures animationStyleNode.attached == old(animationStyleNode.attached)
      ensures forall k :: 0 <= k < |flakes| ==>
                flakes[k].Current() == Retime(old(flakes[k].Current()), shared.prefix, CurrentHeight(offsetHeight), params.speed, delays[k])
      ensures Valid()
    {
      winHeight := newWinHeight;
      var h := CurrentHeight(offsetHeight);
      containerStyle := SetStyle(shared.prefix, containerStyle, [("display", Keyword("none"))]);
      ResizeFlakes(flakes, shared.prefix, h, params.speed, delays);
      UpdateAnimationStyle(offsetHeight);
      containerStyle := SetStyle(shared.prefix, containerStyle, [("display", Keyword("block"))]);
    }

    /** `start()`; after `destroy` the container is gone and the call throws,
        which `ok == false` stands for. */
    method Start() returns (ok: bool)
      modifies this`containerClasses
      ensures ok == alive
      ensures containerClasses == if ok then Started(old(containerClasses)) else old(containerClasses)
    {
      ok := alive;
      if ok {
        containerClasses := containerClasses - {PausedClass};
      }
    }

    /** `stop()`, with the same failure after `destroy`. */
    method Stop() returns (ok: bool)
      modifies this`containerClasses
      ensures ok == alive
      ensures containerClasses == if ok then Stopped(old(containerClasses)) else old(containerClasses)
    {
      ok := alive;
      if ok {
        containerClasses := containerClasses + {PausedClass};
      }
    }

    /** `_removeStyle()`: the shared bookkeeping step, then the field's own
        animation sheet is taken out. On a field already destroyed the sheet
        reference is gone and the call throws after the bookkeeping step,
        which `ok == false` stands for. */
    method RemoveStyle() returns (ok: bool)
      requires Valid() && shared.Valid()
      modifies shared, shared.mainStyleNode, this`animationStyleNode, animationStyleNode
      ensures shared.State() == AfterRemove(old(shared.State())) && shared.Valid()
      ensures old(shared.count) <= 1 && old(shared.mainStyleNode) != null ==> !old(shared.mainStyleNode).attached
      ensures ok == (old(animationStyleNode) != null) && animationStyleNode == null
      ensures ok ==> !old(animationStyleNode).attached
    {
      shared.RemoveMainStyle();
      if animationStyleNode == null {
        return false;
      }
      animationStyleNode.attached := false;
      animationStyleNode := null;
      ok := true;
    }

    /** `destroy()`: removes the styles, detaches the container, releases
        every flake and forgets them. A second `destroy` still performs the
        bookkeeping step before it throws. */
    method Destroy() returns (ok: bool)
      requires Valid() && shared.Valid()
      modifies this, shared, shared.mainStyleNode, animationStyleNode, flakes
      ensures shared.State() == AfterRemove(old(shared.State())) && shared.Valid()
      ensures old(shared.count) <= 1 && old(shared.mainStyleNode) != null ==> !old(shared.mainStyleNode).attached
      ensures ok == old(alive) && !alive && animationStyleNode == null
      ensures ok ==> !old(animationStyleNode).attached && !containerAttached && flakes == []
      ensures ok ==> forall k :: 0 <= k < |old(flakes)| ==>
                       old(flakes)[k].Current() == old(flakes[k].Current()).(hasElem := false)
      ensures !ok ==> flakes == old(flakes) && containerAttached == old(containerAttached)
      ensures Valid()
    {
      ok := RemoveStyle();
      if !ok {
        return;
      }
      containerAttached := false;
      DestroyFlakes(flakes);
      flakes := [];
      alive := false;
    }
  }

  /** Two fields on one page, then `destroy` on the first: the second field
      is still running, but the main style sheet has left the document. */
  method FirstDestroyDropsSharedSheet(prefix: string, options: Option<Options>, winHeight: int,
                                      offsetHeight: int, draws: seq<FlakeDraws>)
    returns (secondAlive: bool, mainAttached: bool)
    requires |draws| >= FlakeCount(SetParams(options))
    requires forall k :: 0 <= k < |draws| ==> ValidDraws(draws[k])
    ensures secondAlive && !mainAttached
  {
    var shared := new Shared(prefix);
    var first := new Snowflakes(shared, options, winHeight, offsetHeight, draws);
    var main := shared.mainStyleNode;
    var second := new Snowflakes(shared, options, winHeight, offsetHeight, draws);
    assert shared.mainStyleNode == main && shared.count == 1;
    var ok := first.Destroy();
    secondAlive := second.alive;
    mainAttached := main.attached;
  }
}
