/** Inline styles (`setStyle`, js/main.js:19-28).

    An element's inline style is a map from property name to value. The
    widget writes a list of properties in order; a property whose name
    contains "animation" is written under a vendor-prefixed name when the
    browser needs a prefix (`Webkit`), and every value is written as given. */
module Style {
  import opened Prelude

  /** What the widget stores in a style property. Units are kept as tags:
      how JavaScript turns a number into text is not modelled. */
  datatype Value =
    | Px(px: int)            // "<n>px"
    | Percent(pct: real)     // "<x>%"
    | Seconds(sec: real)     // "<x>s"
    | Number(num: real)      // a bare number, as for opacity
    | Integer(n: int)        // a bare integer, as for z-index
    | Keyword(word: string)  // a name, as for display or animation-name

  /** An object literal of style properties, in `Object.keys` order. */
  type Props = seq<(string, Value)>

  const AnimationWord := "animation"

  /** `key.search('animation') > -1`: the key mentions "animation" somewhere. */
  predicate MentionsAnimation(key: string)
  {
    exists i :: 0 <= i <= |key| - |AnimationWord| && OccursAt(key, AnimationWord, i)
  }

  /** The name under which property `key` is written when the browser's
      animation prefix is `prefix` ("" when no prefix is needed). */
  function StyleKey(prefix: string, key: string): (k: string)
    ensures prefix == "" ==> k == key
    ensures !MentionsAnimation(key) ==> k == key
    ensures |k| == if prefix != "" && MentionsAnimation(key) then |prefix| + |key| else |key|
  {
    if prefix != "" && MentionsAnimation(key) then
      prefix + [Upper(key[0])] + key[1..]
    else
      key
  }

  /** With a prefix, a key that mentions "animation" becomes the prefix
      followed by the key with its first character upper-cased. */
  lemma PrefixedKeyShape(prefix: string, key: string)
    requires prefix != "" && MentionsAnimation(key)
    ensures |key| > 0
    ensures var k := StyleKey(prefix, key);
      k[..|prefix|] == prefix && k[|prefix|] == Upper(key[0]) && k[|prefix| + 1..] == key[1..]
  {
    var k := StyleKey(prefix, key);
    assert k == prefix + [Upper(key[0])] + key[1..];
    assert k[|prefix| + 1..] == key[1..];
  }

  /** The style after writing `props` in order, from left to right, on top of `style`. */
  function Restyled(prefix: string, style: map<string, Value>, props: Props): map<string, Value>
  {
    if props == [] then style
    else
      var last := props[|props| - 1];
      Restyled(prefix, style, props[..|props| - 1])[StyleKey(prefix, last.0) := last.1]
  }

  /** Writing one more property is one more map update. */
  lemma RestyledSnoc(prefix: string, style: map<string, Value>, props: Props, kv: (string, Value))
    ensures Restyled(prefix, style, props + [kv]) == Restyled(prefix, style, props)[StyleKey(prefix, kv.0) := kv.1]
  {
    assert (props + [kv])[..|props|] == props;
  }

  /** Writing `p` and then `q` is writing `p + q`. */
  lemma {:induction false} RestyledAppend(prefix: string, style: map<string, Value>, p: Props, q: Props)
    ensures Restyled(prefix, style, p + q) == Restyled(prefix, Restyled(prefix, style, p), q)
    decreases |q|
  {
    if q == [] {
      assert p + q == p;
    } else {
      var init := q[..|q| - 1];
      assert (p + q)[..|p + q| - 1] == p + init;
      RestyledAppend(prefix, style, p, init);
    }
  }

  /** Writing two properties is two map updates, in order. */
  lemma RestyledPair(prefix: string, style: map<string, Value>, a: (string, Value), b: (string, Value))
    ensures Restyled(prefix, style, [a, b]) == style[StyleKey(prefix, a.0) := a.1][StyleKey(prefix, b.0) := b.1]
  {
    RestyledSnoc(prefix, style, [a], b);
    assert [a] + [b] == [a, b];
    RestyledSnoc(prefix, style, [], a);
  }

  /** `setStyle(dom, props)`: the `forEach` loop over the properties. */
  method SetStyle(prefix: string, style: map<string, Value>, props: Props)
    returns (r: map<string, Value>)
    ensures r == Restyled(prefix, style, props)
  {
    r := style;
    for i := 0 to |props|
      invariant r == Restyled(prefix, style, props[..i])
    {
      assert props[..i + 1][..i] == props[..i];
      var (key, value) := props[i];
      r := r[StyleKey(prefix, key) := value];
    }
    assert props[..|props|] == props;
  }

  /** The value of a property is stored as given, under its rewritten name,
      unless a later property is written under the same name. */
  lemma {:induction false} RestyledWritten(prefix: string, style: map<string, Value>, props: Props, i: nat)
    requires i < |props|
    requires forall j :: i < j < |props| ==> StyleKey(prefix, props[j].0) != StyleKey(prefix, props[i].0)
    ensures StyleKey(prefix, props[i].0) in Restyled(prefix, style, props)
    ensures Restyled(prefix, style, props)[StyleKey(prefix, props[i].0)] == props[i].1
  {
    if i < |props| - 1 {
      var init := props[..|props| - 1];
      assert init[i] == props[i];
      forall j | i < j < |init| ensures StyleKey(prefix, init[j].0) != StyleKey(prefix, init[i].0) {
        assert init[j] == props[j];
      }
      RestyledWritten(prefix, style, init, i);
    }
  }

  /** A name that none of the properties is written under keeps its value,
      and stays absent if it was absent. */
  lemma {:induction false} RestyledUntouched(prefix: string, style: map<string, Value>, props: Props, key: string)
    requires forall j :: 0 <= j < |props| ==> StyleKey(prefix, props[j].0) != key
    ensures key in Restyled(prefix, style, props) <==> key in style
    ensures key in style ==> Restyled(prefix, style, props)[key] == style[key]
  {
    if props != [] {
      var init := props[..|props| - 1];
      forall j | 0 <= j < |init| ensures StyleKey(prefix, init[j].0) != key {
        assert init[j] == props[j];
      }
      RestyledUntouched(prefix, style, init, key);
    }
  }
}
