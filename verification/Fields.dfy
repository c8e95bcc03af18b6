/** Strings made of fields joined by underscores. */
module Fields {

  predicate Plain(s: string) {
    '_' !in s
  }

  /** A string is cut at its last underscore in only one way. */
  lemma {:induction false} LastFieldUnique(x: string, d: string, y: string, e: string)
    requires Plain(d) && Plain(e)
    ensures x + "_" + d == y + "_" + e <==> x == y && d == e
  {
    var s, t := x + "_" + d, y + "_" + e;
    assert s[|x|] == '_' && t[|y|] == '_';
    assert forall i :: |x| < i < |s| ==> s[i] == d[i - |x| - 1];
    assert forall i :: |y| < i < |t| ==> t[i] == e[i - |y| - 1];
    if s == t {
      assert |x| == |y|;
      assert x == s[..|x|] == t[..|y|] == y;
      assert d == s[|x| + 1..] == t[|y| + 1..] == e;
    }
  }

  /** A string is cut at its first underscore in only one way. */
  lemma {:induction false} FirstFieldUnique(d: string, x: string, e: string, y: string)
    requires Plain(d) && Plain(e)
    ensures d + "_" + x == e + "_" + y <==> d == e && x == y
  {
    var s, t := d + "_" + x, e + "_" + y;
    assert s[|d|] == '_' && t[|e|] == '_';
    assert forall i :: 0 <= i < |d| ==> s[i] == d[i];
    assert forall i :: 0 <= i < |e| ==> t[i] == e[i];
    if s == t {
      assert |d| == |e|;
      assert d == s[..|d|] == t[..|e|] == e;
      assert x == s[|d| + 1..] == t[|e| + 1..] == y;
    }
  }
}
