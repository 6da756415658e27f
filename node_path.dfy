/**
 * The two POSIX path functions of Node.js the upload code relies on:
 * `path.extname` and `path.basename(p, path.extname(p))`.
 */
module NodePath {

  /** `p` without its trailing '/' characters. */
  function TrimTrailingSlashes(p: string): (r: string)
    ensures |r| <= |p| && r == p[..|r|]
    ensures r == [] || r[|r| - 1] != '/'
    ensures forall i :: |r| <= i < |p| ==> p[i] == '/'
  {
    if p != [] && p[|p| - 1] == '/' then TrimTrailingSlashes(p[..|p| - 1]) else p
  }

  /** The part of `s` after its last '/' (all of `s` when it has none). */
  function AfterLastSlash(s: string): (r: string)
    ensures |r| <= |s| && r == s[|s| - |r|..]
    ensures forall i :: 0 <= i < |r| ==> r[i] != '/'
    ensures |r| < |s| ==> s[|s| - |r| - 1] == '/'
  {
    if s == [] || s[|s| - 1] == '/' then [] else AfterLastSlash(s[..|s| - 1]) + [s[|s| - 1]]
  }

  /** The last component of a path, trailing separators ignored (what `path.basename(p)` returns). */
  function LastComponent(p: string): (c: string)
    ensures forall i :: 0 <= i < |c| ==> c[i] != '/'
  {
    AfterLastSlash(TrimTrailingSlashes(p))
  }

  /** The index of the last '.' in `c`, or -1. */
  function LastDot(c: string): (i: int)
    ensures -1 <= i < |c|
    ensures i >= 0 ==> c[i] == '.'
    ensures forall j :: i < j < |c| ==> c[j] != '.'
  {
    if c == [] then -1 else if c[|c| - 1] == '.' then |c| - 1 else LastDot(c[..|c| - 1])
  }

  /**
   * The extension of one path component: from its last '.' on, except when
   * that dot is the component's first character (".profile") or the
   * component is "..".
   */
  function ComponentExt(c: string): (r: string)
    ensures r == [] || (r[0] == '.' && |r| < |c|)
    ensures |r| <= |c| && r == c[|c| - |r|..]
    ensures forall i :: 0 < i < |r| ==> r[i] != '.'
  {
    var d := LastDot(c);
    if d <= 0 || c == ".." then ""
    else
      var r := c[d..];
      assert |c| - |r| == d;
      assert forall i :: 0 < i < |r| ==> r[i] == c[d + i];
      r
  }

  /** `path.extname`: the extension of the last component. */
  function ExtName(p: string): string {
    ComponentExt(LastComponent(p))
  }

  /** `path.basename(p, path.extname(p))`: the last component without its extension. */
  function Stem(p: string): (r: string)
    ensures r + ExtName(p) == LastComponent(p)
  {
    var c, e := LastComponent(p), ExtName(p);
    assert c[..|c| - |e|] + e == c by {
      assert c == c[..|c| - |e|] + c[|c| - |e|..];
    }
    c[..|c| - |e|]
  }

  predicate NoSeparator(s: string) {
    forall i :: 0 <= i < |s| ==> s[i] != '/'
  }

  lemma {:induction false} NoSeparatorConcat(a: string, b: string)
    requires NoSeparator(a) && NoSeparator(b)
    ensures NoSeparator(a + b)
  {
    forall i | 0 <= i < |a + b| ensures (a + b)[i] != '/' {
      if i < |a| {
        assert (a + b)[i] == a[i];
      } else {
        assert (a + b)[i] == b[i - |a|];
      }
    }
  }

  /** The two pieces of a string without separators have none either. */
  lemma NoSeparatorParts(a: string, b: string)
    requires NoSeparator(a + b)
    ensures NoSeparator(a) && NoSeparator(b)
  {
    forall i | 0 <= i < |a| ensures a[i] != '/' {
      assert a[i] == (a + b)[i];
    }
    forall i | 0 <= i < |b| ensures b[i] != '/' {
      assert b[i] == (a + b)[|a| + i];
    }
  }

  /** The stem and the extension are pieces of the last component, so neither holds a separator. */
  lemma StemAndExtensionHaveNoSeparator(p: string)
    ensures NoSeparator(Stem(p)) && NoSeparator(ExtName(p))
  {
    NoSeparatorParts(Stem(p), ExtName(p));
  }

  /** A name without separators is its own last component. */
  lemma {:induction false} PlainNameIsLastComponent(w: string)
    requires forall i :: 0 <= i < |w| ==> w[i] != '/'
    ensures LastComponent(w) == w
  {
    assert TrimTrailingSlashes(w) == w;
    var r := AfterLastSlash(w);
    if |r| < |w| {
      assert false;
    }
  }

  /** The last dot of `c` is at `i` whenever `c[i]` is a dot and no dot follows it. */
  lemma LastDotAt(c: string, i: int)
    requires 0 <= i < |c| && c[i] == '.'
    requires forall j :: i < j < |c| ==> c[j] != '.'
    ensures LastDot(c) == i
  {
  }

  lemma LastDotNone(c: string)
    requires forall j :: 0 <= j < |c| ==> c[j] != '.'
    ensures LastDot(c) == -1
  {
  }
}
