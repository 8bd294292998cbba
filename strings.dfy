/** String helpers: joining with a separator and substring containment. */
module Strings {

  /** `sep.join(parts)`: the parts in order, with `sep` between neighbours. */
  function Join(parts: seq<string>, sep: string): string
    decreases |parts|
  {
    if |parts| == 0 then ""
    else if |parts| == 1 then parts[0]
    else parts[0] + sep + Join(parts[1..], sep)
  }

  /** `x` occurs in `s` starting at index `k`. */
  ghost predicate InfixAt(x: string, s: string, k: int)
  {
    0 <= k && k + |x| <= |s| && s[k..k + |x|] == x
  }

  /** `x in s` for Python strings: `x` occurs somewhere in `s` as a contiguous substring. */
  ghost predicate IsInfix(x: string, s: string)
  {
    exists k :: InfixAt(x, s, k)
  }

  lemma InfixOfPrefix(x: string, b: string)
    ensures IsInfix(x, x + b)
  {
    assert (x + b)[0..|x|] == x;
    assert InfixAt(x, x + b, 0);
  }

  lemma InfixOfConcat(x: string, a: string, b: string)
    requires IsInfix(x, b)
    ensures IsInfix(x, a + b)
  {
    var k :| InfixAt(x, b, k);
    assert (a + b)[|a| + k..|a| + k + |x|] == b[k..k + |x|];
    assert InfixAt(x, a + b, |a| + k);
  }

  /** Every joined part appears in the joined string. */
  lemma {:induction false} JoinContains(parts: seq<string>, sep: string, i: int)
    requires 0 <= i < |parts|
    ensures IsInfix(parts[i], Join(parts, sep))
    decreases |parts|
  {
    if |parts| == 1 {
      assert (parts[0] + "")[0..|parts[0]|] == parts[0];
      assert InfixAt(parts[0], Join(parts, sep), 0);
    } else if i == 0 {
      InfixOfPrefix(parts[0], sep + Join(parts[1..], sep));
      assert parts[0] + sep + Join(parts[1..], sep) == parts[0] + (sep + Join(parts[1..], sep));
    } else {
      JoinContains(parts[1..], sep, i - 1);
      InfixOfConcat(parts[i], parts[0] + sep, Join(parts[1..], sep));
    }
  }
}
