/** Helpers shared by the whole model: an optional value, and the three
    string operations the widget relies on (substring search, upper-casing
    the first character of a key, and writing an integer in decimal). */
module Prelude {

  datatype Option<T> = None | Some(value: T)

  /** `s.search(sub) > -1`: `sub` occurs somewhere in `s`. */
  predicate Contains(s: string, sub: string)
    decreases |s|
  {
    |sub| <= |s| && (s[..|sub|] == sub || Contains(s[1..], sub))
  }

  /** `sub` starts at position `i` of `s`. */
  predicate OccursAt(s: string, sub: string, i: int)
  {
    0 <= i <= |s| - |sub| && s[i..i + |sub|] == sub
  }

  /** Contains means exactly "there is a position where sub starts". */
  lemma {:induction false} ContainsIff(s: string, sub: string)
    ensures Contains(s, sub) <==> exists i :: OccursAt(s, sub, i)
    decreases |s|
  {
    if |sub| <= |s| && s[..|sub|] == sub {
      assert OccursAt(s, sub, 0);
    } else if |sub| <= |s| {
      ContainsIff(s[1..], sub);
      forall i | OccursAt(s[1..], sub, i)
        ensures OccursAt(s, sub, i + 1)
      {
        assert s[i + 1..i + 1 + |sub|] == s[1..][i..i + |sub|];
      }
      forall i | OccursAt(s, sub, i)
        ensures OccursAt(s[1..], sub, i - 1)
      {
        assert i != 0;
        var here, there := s[i..i + |sub|], s[1..][i - 1..i - 1 + |sub|];
        assert forall k :: 0 <= k < |here| ==> here[k] == there[k];
      }
    }
  }

  /** An occurrence at a known position is found by the search. */
  lemma ContainsAt(s: string, sub: string, i: nat)
    requires OccursAt(s, sub, i)
    ensures Contains(s, sub)
  {
    ContainsIff(s, sub);
  }

  /** Whatever stands between two strings is contained in their concatenation. */
  lemma ContainsMiddle(x: string, sub: string, y: string)
    ensures Contains(x + sub + y, sub)
  {
    var s := x + sub + y;
    assert s[|x|..|x| + |sub|] == sub;
    ContainsAt(s, sub, |x|);
  }

  /** Containment is transitive: an occurrence inside an occurrence. */
  lemma ContainsTrans(a: string, b: string, c: string)
    requires Contains(a, b) && Contains(b, c)
    ensures Contains(a, c)
  {
    ContainsIff(a, b);
    ContainsIff(b, c);
    var i :| OccursAt(a, b, i);
    var j :| OccursAt(b, c, j);
    var here, there := a[i + j..i + j + |c|], a[i..i + |b|][j..j + |c|];
    assert forall k :: 0 <= k < |here| ==> here[k] == there[k];
    ContainsAt(a, c, i + j);
  }

  /** The pieces of text written one after the other. */
  function Concat(ts: seq<string>): string
  {
    if ts == [] then "" else Concat(ts[..|ts| - 1]) + ts[|ts| - 1]
  }

  /** A single piece of text is written as it is. */
  lemma ConcatFirst(ts: seq<string>)
    requires 0 < |ts|
    ensures Concat(ts[..1]) == ts[0]
  {
    assert ts[..1][..0] == [];
  }

  /** Appending one more piece of text. */
  lemma ConcatSnoc(ts: seq<string>, n: nat)
    requires n < |ts|
    ensures Concat(ts[..n + 1]) == Concat(ts[..n]) + ts[n]
  {
    assert ts[..n + 1][..n] == ts[..n];
  }

  /** Writing two lists of pieces one after the other. */
  lemma {:induction false} ConcatAppend(a: seq<string>, b: seq<string>)
    ensures Concat(a + b) == Concat(a) + Concat(b)
    decreases |b|
  {
    if b == [] {
      assert a + b == a;
    } else {
      var init, last := b[..|b| - 1], b[|b| - 1];
      var ab := a + b;
      assert ab[..|ab| - 1] == a + init;
      assert ab[|ab| - 1] == last;
      assert Concat(ab) == Concat(a + init) + last;
      ConcatAppend(a, init);
      assert Concat(b) == Concat(init) + last;
      var x, y := Concat(a), Concat(init);
      assert (x + y) + last == x + (y + last);
    }
  }

  /** Cutting the pieces in two cuts the text in two. */
  lemma ConcatSplitAt(ts: seq<string>, j: nat)
    requires j <= |ts|
    ensures Concat(ts) == Concat(ts[..j]) + Concat(ts[j..])
  {
    assert ts == ts[..j] + ts[j..];
    ConcatAppend(ts[..j], ts[j..]);
  }

  /** Cutting the pieces in three cuts the text in three. */
  lemma ConcatSplit(ts: seq<string>, i: nat, j: nat)
    requires i <= j <= |ts|
    ensures Concat(ts) == Concat(ts[..i]) + Concat(ts[i..j]) + Concat(ts[j..])
  {
    var upto := ts[..j];
    ConcatSplitAt(ts, j);
    ConcatSplitAt(upto, i);
    assert upto[..i] == ts[..i];
    assert upto[i..] == ts[i..j];
  }

  /** The text of a run of consecutive pieces occurs in the text of all of them. */
  lemma ConcatContainsRun(ts: seq<string>, i: nat, j: nat)
    requires i <= j <= |ts|
    ensures Contains(Concat(ts), Concat(ts[i..j]))
  {
    ConcatSplit(ts, i, j);
    ContainsMiddle(Concat(ts[..i]), Concat(ts[i..j]), Concat(ts[j..]));
  }

  /** In particular each piece occurs in the whole text. */
  lemma ConcatContainsPiece(ts: seq<string>, k: nat)
    requires k < |ts|
    ensures Contains(Concat(ts), ts[k])
  {
    ConcatContainsRun(ts, k, k + 1);
    ConcatFirst(ts[k..k + 1]);
  }

  /** Three pieces are written one after the other. */
  lemma ConcatThree(ts: seq<string>)
    requires |ts| == 3
    ensures Concat(ts) == ts[0] + ts[1] + ts[2]
  {
    ConcatFirst(ts);
    ConcatSnoc(ts, 1);
    ConcatSnoc(ts, 2);
    assert ts[..3] == ts;
  }

  /** A text starts with its first part. */
  lemma ContainsStart(head: string, rest: string)
    ensures Contains(head + rest, head)
  {
    ContainsMiddle("", head, rest);
    assert "" + head + rest == head + rest;
  }

  /** `String.prototype.toUpperCase` on one character, for the ASCII letters. */
  function Upper(c: char): char
  {
    if 'a' <= c <= 'z' then (c as int - 32) as char else c
  }

  function Digit(d: nat): char
    requires d < 10
  {
    ('0' as int + d) as char
  }

  /** The decimal text JavaScript produces for a non-negative integer. */
  function NatToString(n: nat): (s: string)
    ensures 0 < |s|
  {
    if n < 10 then [Digit(n)] else NatToString(n / 10) + [Digit(n % 10)]
  }

  predicate IsDecimal(s: string)
  {
    forall k :: 0 <= k < |s| ==> '0' <= s[k] <= '9'
  }

  /** The rendering is made of decimal digits only. */
  lemma {:induction false} NatToStringDecimal(n: nat)
    ensures IsDecimal(NatToString(n))
  {
    if n >= 10 {
      NatToStringDecimal(n / 10);
    }
  }

  /** The decimal text JavaScript produces for an integer (`'' + i`). */
  function IntToString(i: int): string
  {
    if i < 0 then "-" + NatToString(-i) else NatToString(i)
  }

  /** Reads a string of decimal digits back as a number. */
  function DecimalValue(s: string): nat
    requires IsDecimal(s)
  {
    if s == [] then 0
    else DecimalValue(s[..|s| - 1]) * 10 + (s[|s| - 1] as int - '0' as int)
  }

  /** Decimal rendering loses nothing: reading it back gives the number. */
  lemma {:induction false} NatToStringRoundTrip(n: nat)
    ensures IsDecimal(NatToString(n)) && DecimalValue(NatToString(n)) == n
  {
    NatToStringDecimal(n);
    if n >= 10 {
      NatToStringRoundTrip(n / 10);
      var s := NatToString(n);
      assert s[..|s| - 1] == NatToString(n / 10);
    }
  }

  /** Hence distinct non-negative integers are rendered as distinct text. */
  lemma NatToStringInjective(m: nat, n: nat)
    requires m != n
    ensures NatToString(m) != NatToString(n)
  {
    NatToStringRoundTrip(m);
    NatToStringRoundTrip(n);
  }
}
