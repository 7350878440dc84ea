# Snowflakes: a verified model of the widget core

This project models the core of the snowflakes widget, `js/main.js`. The
widget fills a container element with falling, drifting snowflakes animated
purely by CSS. The model covers four things:

- the style writer `setStyle`, with its vendor prefixing of animation
  properties;
- the random helpers `getRandom` and `interpolation`;
- the `Flake` class, which builds a flake and later resizes and destroys it;
- the `Snowflakes` field controller: defaulting its configuration, building
  the per-field keyframes sheet, the main sheet every field shares with its
  counter, resizing, starting, stopping and destroying.

The browser is reduced to what the code reads and writes:

- an element's inline style is a map from property name to a tagged value
  (`Px`, `Percent`, `Seconds`, `Number`, `Integer`, `Keyword`);
- a class list is a set of strings;
- a `<style>` element is a `StyleNode` object, holding its text and whether
  it is attached to the document.

Several inputs come from outside the code and are parameters of the model:

- every `Math.random()` value (a real in [0, 1));
- the window height;
- the `offsetHeight` of the target container;
- the browser's animation prefix.

Modules follow the source's structure:

- `Prelude`: options, substring containment, string concatenation of
  pieces, and decimal rendering of integers.
- `Style`: `setStyle`.
- `Config`: `_setParams`.
- `Flakes`: `getRandom`, `interpolation` and the `Flake` class.
- `Keyframes`: `_getAnimationStyle`, as a list of rules and their text.
- `SharedStyle`: covers three pieces of the source:
  - `_injectStyle`;
  - the static `_count` and `_mainStyleNode`, as a `Shared` object;
  - the bookkeeping of the shared sheet, as a pure `Registry` value.
- `Controller`: the `Snowflakes` class.

Three behaviours of the code are easy to misread, and the model keeps them
as written:

- **The counter is not a reference count.** `Snowflakes._count` grows only
  when the main sheet is injected (js/main.js:202-205), so it is never more
  than 1. The first `destroy` therefore takes the main sheet out of the
  document even while other fields are still running (js/main.js:322-328).
  `SharedStyle.ReplayConsistent`, `SharedStyle.SecondFieldLosesMainStyle`
  and `Controller.FirstDestroyDropsSharedSheet` state this.
- **Rotation.** Whether a flake rotates is the `useRotate` option. Only the
  direction is random (js/main.js:99-101).
- **Calls after `destroy`.** A second `destroy` still decrements the counter
  before it throws at line 331. `start` and `stop` throw, because the
  container reference is gone. The model shows each throw as an
  `ok == false` result.

## Model

| member | source | states |
|---|---|---|
| Style.StyleKey | js/main.js:21-24 | with no prefix, or for a key not mentioning "animation", the key is written as is; otherwise the written name is as long as prefix and key together |
| Style.PrefixedKeyShape | js/main.js:22-23 | a prefixed name is the prefix, then the key's first character upper-cased, then the rest of the key |
| Style.Restyled | js/main.js:19-28 | the style after writing a list of properties in order, each under its written name; its properties are `RestyledSnoc`, `RestyledAppend`, `RestyledWritten` and `RestyledUntouched`, and `SetStyle` computes it |
| Style.SetStyle | js/main.js:19-28 | the loop leaves the style that writing the properties one by one, in key order, leaves |
| Style.RestyledWritten | js/main.js:20-27 | each property's value is stored unchanged under its written name unless a later property is written under the same name |
| Style.RestyledUntouched | js/main.js:20-27 | a name none of the properties is written under keeps its value, or stays absent |
| Style.RestyledAppend | js/main.js:19-28 | writing one list of properties and then another is writing the two lists joined |
| Config.SetParams | js/main.js:265-278 | after defaulting, count, speed and zIndex are never 0 |
| Config.SetParamsDefaults | js/main.js:266-277 | an absent or zero count, speed or zIndex becomes 50, 1 or 9999, and any other value is kept; the flags default to true but keep an explicit false; an explicit container is kept and a missing one becomes the page body; width and height are passed through; no argument at all behaves as `{}` |
| Config.SetParamsRoundTrip | js/main.js:268-277 | a configuration with no zero number is reproduced exactly from its explicit spelling |
| Config.SetParamsIdempotent | js/main.js:265-278 | defaulting an already defaulted configuration changes nothing |
| Flakes.GetRandom | js/main.js:38-40 | `from` plus the floor of the random value times the width of the range; `GetRandomInRange` and `GetRandomReaches` give its range in both directions |
| Flakes.GetRandomInRange | js/main.js:38-40 | for from < max the draw lies in [from, max) |
| Flakes.GetRandomReaches | js/main.js:38-40 | every integer of [from, max) is drawn for some random value |
| Flakes.Interpolation | js/main.js:53-55 | the value at x of the line through (x1, y1) and (x2, y2); `InterpolationEnds`, `InterpolationMonotone` and `InterpolationBetween` state what it promises |
| Flakes.InterpolationEnds | js/main.js:53-55 | the line passes through both given points |
| Flakes.InterpolationMonotone | js/main.js:53-55 | on a rising line the value never decreases, on a falling line it never increases |
| Flakes.InterpolationBetween | js/main.js:53-55 | between the two ends the value lies between the two end values |
| Flakes.FlakeSize | js/main.js:76 | a scaled flake's size lies in [8, 18); an unscaled flake has size 18 |
| Flakes.Variant | js/main.js:98 | the picture variant is one of 0 to 8 |
| Flakes.LargerFlakesInFront | js/main.js:89-92 | a larger scaled flake has a strictly larger z-index and at least the opacity of a smaller one; every opacity lies in [0.6, 1] |
| Flakes.DurationProfile | js/main.js:124-131 | the fall time is speedMax at size 8 and a third of it at size 18, and with a positive speedMax it never grows with the size |
| Flakes.FlakeTiming | js/main.js:124-132 | `getAnimationProps`: a delay drawn in speedMax = height / 50 / speed and the fall time of the size; `DurationProfile` and `DelayRange` state its shape and range |
| Flakes.DelayRange | js/main.js:125-129 | with a positive speedMax the drawn delay lies in [0, speedMax) |
| Flakes.InitialLook | js/main.js:73-112 | a new flake's size lies in [8, 18] and it holds its element |
| Flakes.FlakeStyleMap | js/main.js:80-94 | the outer element's style is exactly the delay and the duration under their written names, plus left, width and height, plus zIndex and opacity when scaled |
| Flakes.FlakeStyleEntries | js/main.js:81-94 | the outer element's style has zIndex and opacity exactly when scaled, with the values of lines 90-91, and both timing values |
| Flakes.InitialStyleContents | js/main.js:76-94 | a new flake's element starts at a left position in [0%, 100%); it has a z-index and an opacity exactly when scaled, computed from its size; its delay is drawn from speedMax and its duration is the fall time of its size |
| Flakes.InnerClassesContents | js/main.js:97-101 | the inner element has the base class and the class of its variant, and a rotation class exactly when rotation is on: the clockwise class exactly for a draw above 0.5, the reverse class exactly for any other draw |
| Flakes.RotationDirectionsReached | js/main.js:99-101 | both rotation directions occur: a draw of 0.75 gives only the clockwise class and a draw of 0.25 only the reverse class |
| Flakes.InnerStyleContents | js/main.js:103-106 | the inner element animates with the drift rule `snowflake_x_<size>` and has its own random delay |
| Flakes.InitialInnerContents | js/main.js:97-106 | a new flake's inner element has the base class, a variant class, a rotation class exactly when rotation is on, and the drift rule of its own size |
| Flakes.AnimationKeysDiffer | js/main.js:22-23 | the written names of the delay, duration and name properties differ from one another, and from the unprefixed names left, width, height, zIndex and opacity |
| Flakes.PlacementStyle | js/main.js:84-86 | position and size are written under their own names |
| Flakes.TimingStyle | js/main.js:128-131 | writing a timing overwrites exactly the delay and the duration |
| Flakes.Retime | js/main.js:142-145 | a flake after `resize`: the old look with a new timing written over its element's style; `ResizeTouchesOnlyTiming` and `RetimeContents` state what changes and what stays |
| Flakes.ResizeTouchesOnlyTiming | js/main.js:142-145 | resizing adds or overwrites only the two timing names; every other property keeps its presence and value |
| Flakes.RetimeContents | js/main.js:142-145 | a resized flake keeps its size, inner element and element; it gets the new delay and the fall time for the new height, and every other property is unchanged |
| Flakes.Flake.constructor | js/main.js:73-112 | the new flake is what `InitialLook` describes for its draws |
| Flakes.Flake.Resize | js/main.js:142-145 | the flake's new state is its old state with a new timing written over its element's style |
| Flakes.Flake.Destroy | js/main.js:152-154 | only the element reference is dropped |
| Prelude.NatToStringRoundTrip | js/main.js:289 | the decimal text of a number reads back as that number |
| Prelude.NatToStringInjective | js/main.js:289 | distinct numbers have distinct decimal texts |
| Keyframes.AnimationRules | js/main.js:280-293 | the rules of a field's sheet: the fall by the height plus 18, then one drift per size from 8 to 18; `AnimationRuleAt` states where each sits |
| Keyframes.Render | js/main.js:285-289 | the text of a list of rules, one after the other, each in its `-webkit-` and plain forms; `SheetDefinesRule` and `RenderAppend` state what it holds |
| Keyframes.AnimationStyle | js/main.js:280-293 | the loop builds the text of the fall rule followed by the drift rules for sizes 8 to 18 |
| Keyframes.AnimationRuleAt | js/main.js:283-290 | the sheet has 12 rules: first the fall by height + 18 pixels, then the drift of each size by (size - 8) * 4 pixels |
| Keyframes.SheetDefinesRule | js/main.js:285-290 | the text of the sheet contains both the `-webkit-` header and the plain header of every rule |
| Keyframes.SheetServesEverySize | js/main.js:283-290 | every field's sheet defines the fall rule and, for every flake size, that size's drift rule in both forms |
| Keyframes.FlakeDriftDefined | js/main.js:103-106 | the drift rule a new flake's inner element names is defined in both forms by the sheet of any field |
| Keyframes.DriftRuleNamesDistinct | js/main.js:285-289 | the fall rule's name differs from every drift rule's name, and distinct sizes have distinct drift rule names |
| Keyframes.AnimationRuleNamesUnique | js/main.js:285-290 | no two rules of a sheet share a name |
| Keyframes.SheetForHeight | js/main.js:283-290 | a new height changes only the fall rule; the drift rules' text stays the same |
| Keyframes.RuleTextNamesRule | js/main.js:285-289 | the text of each rule contains both forms of its header |
| SharedStyle.StyleNode.constructor | js/main.js:304-307 | a new style element holds the given text and is attached |
| SharedStyle.InjectStyle | js/main.js:303-319 | a given element is reused and keeps its attachment; otherwise a new attached element is made; either way its text becomes the sheet |
| SharedStyle.AfterCreate | js/main.js:202-205 | after construction the main sheet is present; the counter grows by one only if the sheet was missing |
| SharedStyle.AfterRemove | js/main.js:322-329 | the counter never goes below 0; it reaches 0, and the main sheet goes, exactly when it was at most 1 |
| SharedStyle.StepsKeepConsistent | js/main.js:202-205 | both steps keep the bookkeeping in one of its two states, (0, absent) and (1, present) |
| SharedStyle.ReplayConsistent | js/main.js:202-205 | after any sequence of constructions and destructions the counter is 0 or 1, never the number of live fields |
| SharedStyle.AnyRemoveDropsMainStyle | js/main.js:322-329 | every destruction takes the main sheet out |
| SharedStyle.SecondFieldLosesMainStyle | js/main.js:202-205 | after two constructions and one destruction the main sheet is gone |
| SharedStyle.Shared.constructor | js/main.js:8-11 | when the script has loaded, the prefix is fixed, no main sheet exists and the counter is 0 |
| SharedStyle.Shared.AddMainStyle | js/main.js:202-205 | the shared state takes the construction step; a new main sheet is injected only when none exists |
| SharedStyle.Shared.RemoveMainStyle | js/main.js:322-329 | the shared state takes the removal step, and the main sheet is detached once the counter is at most 0 |
| Controller.Height | js/main.js:335-337 | the explicit height when given and non-zero, else the window height for a field on the body, else the container's height plus 18 |
| Controller.Snowflakes.CurrentHeight | js/main.js:335-337 | `_height()` of the field, read from its configuration, its placement and the window height; `Height` states its cases |
| Controller.HeightFollowsWindow | js/main.js:335-337 | a new window height changes the height exactly for a field on the body without an explicit height |
| Controller.StartStopToggle | js/main.js:252-263 | start removes and stop adds the paused class, and no other class changes; each undoes the other and both are idempotent |
| Controller.ResizeDisplay | js/main.js:211-216 | hiding and then showing the container only sets `display` to "block" |
| Controller.ContainerStyle | js/main.js:197 | the new container's style is exactly its z-index |
| Controller.MakeFlakes | js/main.js:221-223 | `count` distinct new flakes, none when count is negative; the k-th is built from the k-th draws |
| Controller.ResizeFlakes | js/main.js:212-214 | every flake is resized, the k-th with the k-th random delay |
| Controller.DestroyFlakes | js/main.js:239-241 | every flake drops its element and keeps everything else |
| Controller.Snowflakes.constructor | js/main.js:184-224 | the new field has the defaulted configuration, the container classes and z-index, and the shared construction step; a main sheet already present is kept, and a missing one is made fresh; the field gets a fresh attached sheet for the current height, and `count` fresh flakes built for that height |
| Controller.Snowflakes.AddAnimationStyle | js/main.js:295-297 | a fresh attached sheet for the current height |
| Controller.Snowflakes.UpdateAnimationStyle | js/main.js:299-301 | the existing sheet element is rewritten for the current height and keeps its attachment |
| Controller.Snowflakes.OnResize | js/main.js:208-217 | the new window height is taken; every flake keeps its identity and gets a new timing for the new height; the same sheet element is rewritten for that height; the container's `display` ends at "block"; nothing else changes |
| Controller.Snowflakes.Start | js/main.js:252-254 | the paused class is removed; after destroy the call fails |
| Controller.Snowflakes.Stop | js/main.js:261-263 | the paused class is added; after destroy the call fails |
| Controller.Snowflakes.RemoveStyle | js/main.js:321-333 | the shared removal step always happens, and when the counter was at most 1 the main sheet leaves the document; then the field's own sheet is detached and forgotten, or the call fails when there is no sheet |
| Controller.Snowflakes.Destroy | js/main.js:231-245 | the shared removal step, with the main sheet leaving the document when the counter was at most 1; on a live field it detaches the container and its sheet, releases every flake and forgets them; a second destroy fails after the shared step |
| Controller.FirstDestroyDropsSharedSheet | js/main.js:202-205 | two fields on one page, then destroy on the first: the second field is still alive and the main sheet is no longer in the document |

## Left out

- Animation prefix detection (js/main.js:8-11): it reads the browser's computed style. The prefix is a parameter of `Shared`.
- The document object model beyond the state above: creating elements, appending flakes to the container and the container to its target (lines 108-111, 199), and the `snowflake` class of a flake's outer element (line 95).
- `_injectStyle`'s three ways of setting the text (IE `styleSheet.cssText`, `textContent`, `innerHTML`): all three set the sheet's text, modelled as one `css` field.
- `_getWindowHeight` (js/main.js:339-354): window and document geometry. The window height is an input.
- The resize listener (lines 219, 237): `OnResize` is a method the caller invokes. The model does not capture that `destroy` unregisters it.
- The main sheet's text: only its first rule, the one that pauses the animations, is kept. The rest is layout and embedded images.
- Number formatting: JavaScript's text for non-integer numbers is not modelled. Seconds, percentages and opacity stay tagged reals. Integers in rule names and pixel distances are rendered in decimal.
- The module wrapper and the `snowflakes(params)` factory: packaging only.
- `_classCallCheck`: it guards only against calling a class without `new`.
- Non-integer and non-numeric options: heights, `count` and `zIndex` are integers and `speed` is a real. JavaScript's truthiness on other kinds of value is not modelled.
- `params.width`: the code only stores it.
- Flakes.DelayRange: states the range only when speedMax is positive. With a negative speed or height the delay lies in (speedMax, 0] instead, and the code does not restrict those inputs.
- Flakes.Flake.Resize: on a flake already destroyed the code throws, because `setStyle` reads the style of an undefined element (line 26). The model rewrites the style instead. No caller reaches this case: `OnResize` requires a live field, and `destroy` removes the resize listener.
- Prelude.Upper: upper-cases ASCII letters only, while `toUpperCase` covers all of Unicode. Every key the code writes starts with an ASCII letter.
