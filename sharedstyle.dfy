/** Style elements, and the main style sheet that all fields share
    (`_injectStyle`, the static `_count` and `_mainStyleNode`, and the shared
    half of `_removeStyle`; js/main.js:202-205, 303-333).

    The first field created injects the main style sheet and sets the shared
    counter to 1. A field created while the sheet is present neither injects
    it again nor increments the counter. Every `destroy` decrements the
    counter, and once it is at most zero the counter is reset to zero and the
    sheet is taken out. So the counter only ever holds 0 or 1, and the first
    field destroyed removes the sheet for every field still running. */
module SharedStyle {

  /** A `<style>` element: its text and whether it is in the document. */
  class StyleNode {
    var css: string
    var attached: bool

    /** `document.createElement('style')` followed by `document.body.appendChild`. */
    constructor (css: string)
      ensures this.css == css && attached
    {
      this.css := css;
      attached := true;
    }
  }

  /** `_injectStyle(style, styleNode)`: reuses `styleNode` when one is given,
      otherwise creates and attaches a new element; either way the element's
      text becomes `css`. */
  method InjectStyle(css: string, node: StyleNode?) returns (n: StyleNode)
    modifies node
    ensures node != null ==> n == node && n.attached == old(node.attached)
    ensures node == null ==> fresh(n) && n.attached
    ensures n.css == css
  {
    if node == null {
      n := new StyleNode(css);
    } else {
      n := node;
      n.css := css;
    }
  }

  /** The start of the main style sheet: the rule that pauses every animation
      of a field with the `snowflakes_paused` class. */
  const MainStyle := ".snowflakes_paused .snowflake,.snowflakes_paused .snowflake__inner,.snowflakes_paused .snowflake__inner:before{-webkit-animation-play-state:paused;animation-play-state:paused}"

  /** The shared bookkeeping: the counter, and whether the main sheet is present. */
  datatype Registry = Registry(count: int, mainStyle: bool)

  const Initial := Registry(0, false)

  /** The shared part of the constructor (js/main.js:202-205). */
  function AfterCreate(b: Registry): (r: Registry)
    ensures r.mainStyle
    ensures b.mainStyle ==> r == b
    ensures !b.mainStyle ==> r.count == b.count + 1
  {
    if !b.mainStyle then Registry(b.count + 1, true) else b
  }

  /** The shared part of `_removeStyle` (js/main.js:322-329). */
  function AfterRemove(b: Registry): (r: Registry)
    ensures r.count >= 0
    ensures r.count == 0 <==> b.count <= 1
    ensures b.count <= 1 ==> !r.mainStyle
    ensures b.count > 1 ==> r == Registry(b.count - 1, b.mainStyle)
  {
    var c := b.count - 1;
    if c <= 0 then Registry(0, false) else Registry(c, b.mainStyle)
  }

  /** The only two states the bookkeeping can reach. */
  predicate Consistent(b: Registry)
  {
    b == Registry(0, false) || b == Registry(1, true)
  }

  datatype Event = Create | Remove

  /** The bookkeeping after a run of constructions and removals, in order. */
  function Replay(b: Registry, events: seq<Event>): Registry
  {
    if events == [] then b
    else
      var b' := Replay(b, events[..|events| - 1]);
      if events[|events| - 1] == Create then AfterCreate(b') else AfterRemove(b')
  }

  /** Both steps keep the bookkeeping consistent, and in a consistent state
      the sheet is present exactly when the counter is 1. */
  lemma StepsKeepConsistent(b: Registry)
    requires Consistent(b)
    ensures Consistent(AfterCreate(b)) && Consistent(AfterRemove(b))
    ensures b.mainStyle <==> b.count == 1
  {
  }

  /** From the initial state, any run of fields created and destroyed leaves
      the counter at 0 or 1, never counting the fields alive. */
  lemma {:induction false} ReplayConsistent(events: seq<Event>)
    ensures Consistent(Replay(Initial, events))
  {
    if events != [] {
      ReplayConsistent(events[..|events| - 1]);
      StepsKeepConsistent(Replay(Initial, events[..|events| - 1]));
    }
  }

  /** In a consistent state, any single removal takes the main sheet out,
      however many fields were created. */
  lemma AnyRemoveDropsMainStyle(b: Registry)
    requires Consistent(b)
    ensures AfterRemove(b) == Initial
  {
  }

  /** Two fields are created and one is destroyed: the other field is left
      running without the main sheet. */
  lemma SecondFieldLosesMainStyle()
    ensures Replay(Initial, [Create, Create]) == Registry(1, true)
    ensures Replay(Initial, [Create, Create, Remove]) == Initial
  {
    assert [Create, Create][..1] == [Create];
    assert [Create, Create, Remove][..2] == [Create, Create];
  }

  /** The static state of the `Snowflakes` class, with the vendor prefix of
      the page (`animationPrefix`, computed once when the script loads). */
  class Shared {
    const prefix: string
    var count: int
    var mainStyleNode: StyleNode?

    function State(): Registry
      reads this
    {
      Registry(count, mainStyleNode != null)
    }

    ghost predicate Valid()
      reads this, mainStyleNode
    {
      Consistent(State()) && (mainStyleNode != null ==> mainStyleNode.attached)
    }

    /** The state when the script has loaded: no field yet. */
    constructor (prefix: string)
      ensures this.prefix == prefix && State() == Initial && Valid()
    {
      this.prefix := prefix;
      count := 0;
      mainStyleNode := null;
    }

    /** js/main.js:202-205: injects the main sheet unless it is present. */
    method AddMainStyle()
      requires Valid()
      modifies this
      ensures State() == AfterCreate(old(State()))
      ensures old(mainStyleNode) != null ==> mainStyleNode == old(mainStyleNode)
      ensures old(mainStyleNode) == null ==> fresh(mainStyleNode) && mainStyleNode.css == MainStyle
      ensures Valid()
    {
      if mainStyleNode == null {
        var node := InjectStyle(MainStyle, null);
        mainStyleNode := node;
        count := count + 1;
      }
    }

    /** js/main.js:322-329: decrements the counter and, once it is at most
        zero, resets it and takes the main sheet out of the document. */
    method RemoveMainStyle()
      requires Valid()
      modifies this, mainStyleNode
      ensures State() == AfterRemove(old(State()))
      ensures old(count) <= 1 && old(mainStyleNode) != null ==> !old(mainStyleNode).attached
      ensures old(count) > 1 ==> mainStyleNode == old(mainStyleNode)
      ensures Valid()
    {
      count := count - 1;
      if count <= 0 {
        count := 0;
        if mainStyleNode != null {
          mainStyleNode.attached := false;
          mainStyleNode := null;
        }
      }
    }
  }
}
