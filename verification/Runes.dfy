/** White space as Go's `unicode` and `strings` packages see it. */
module Runes {

  /** `unicode.IsSpace` */
  predicate IsSpace(c: char) {
    var n := c as int;
    || 0x09 <= n <= 0x0D || n == 0x20 || n == 0x85 || n == 0xA0
    || n == 0x1680 || 0x2000 <= n <= 0x200A || n == 0x2028 || n == 0x2029
    || n == 0x202F || n == 0x205F || n == 0x3000
  }

  /** `len(strings.Fields(s))`: the number of maximal runs of non-space code points. */
  function FieldCount(s: string): nat {
    if s == [] then 0
    else
      var k := |s| - 1;
      FieldCount(s[..k]) + (if !IsSpace(s[k]) && (k == 0 || IsSpace(s[k - 1])) then 1 else 0)
  }

  predicate AllSpaces(s: string) {
    forall i :: 0 <= i < |s| ==> IsSpace(s[i])
  }

  lemma {:induction false} TrailingSpaces(s: string, spaces: string)
    requires AllSpaces(spaces)
    ensures FieldCount(s + spaces) == FieldCount(s)
  {
    hide IsSpace;
    if spaces == [] {
      assert s + spaces == s;
    } else {
      var k := |spaces| - 1;
      TrailingSpaces(s, spaces[..k]);
      assert (s + spaces)[..|s| + k] == s + spaces[..k];
    }
  }

  /** White space separates fields: the fields of both sides add up. */
  lemma {:induction false} FieldsAdd(s: string, spaces: string, t: string)
    requires spaces != [] && AllSpaces(spaces)
    ensures FieldCount(s + spaces + t) == FieldCount(s) + FieldCount(t)
  {
    hide IsSpace;
    if t == [] {
      TrailingSpaces(s, spaces);
      assert s + spaces + t == s + spaces;
    } else {
      var k := |t| - 1;
      FieldsAdd(s, spaces, t[..k]);
      assert (s + spaces + t)[..|s + spaces| + k] == s + spaces + t[..k];
    }
  }

  /** Text without white space is one field. */
  lemma {:induction false} OneField(s: string)
    requires s != [] && forall i :: 0 <= i < |s| ==> !IsSpace(s[i])
    ensures FieldCount(s) == 1
  {
    hide IsSpace;
    var k := |s| - 1;
    if k > 0 {
      OneField(s[..k]);
    } else {
      assert FieldCount(s[..0]) == 0;
    }
  }
}
