/** Absolute paths with slashes, as text. */
module Paths {

  /** The place of the last slash. */
  function LastSlash(p: string): (pos: int)
    ensures -1 <= pos < |p|
    ensures pos >= 0 ==> p[pos] == '/'
    ensures forall i :: pos < i < |p| ==> p[i] != '/'
  {
    if p == "" then -1
    else if p[|p| - 1] == '/' then |p| - 1
    else LastSlash(p[..|p| - 1])
  }

  function DirName(p: string): string {
    var pos := LastSlash(p);
    if pos < 0 then ""
    else if pos == 0 then p[..1]
    else p[..pos]
  }

  function BaseName(p: string): string {
    p[LastSlash(p) + 1..]
  }

  /** The separator is left out after a path of one character. */
  function Join(base: string, add: string): string {
    base + (if !(add != "" && add[0] == '/') && |base| > 1 && |add| > 0 then "/" else "") + add
  }

  /** p is other, or starts with other and a slash. */
  predicate Contains(p: string, other: string) {
    && |p| >= |other| && p[..|other|] == other
    && (|p| == |other| || p[|other|] == '/')
  }

  predicate ValidName(name: string) {
    name != "" && forall c :: c in name ==> c != '/' && c != '\\'
  }

  /** The root, or a path that a slash and a name can be put after. */
  predicate ValidDir(p: string) {
    p == "/" || (|p| > 1 && p[0] == '/' && p[|p| - 1] != '/')
  }

  lemma JoinParts(d: string, name: string)
    requires ValidDir(d) && ValidName(name)
    ensures var p := Join(d, name);
            && DirName(p) == d && BaseName(p) == name && ValidDir(p) && p != "/"
            && |p| > |d| && p == (if d == "/" then "/" else d + "/") + name
  {
    var p := Join(d, name);
    var pos := if d == "/" then 0 else |d|;
    assert name[0] in name && name[|name| - 1] in name;
    assert p[pos] == '/' && p[pos + 1..] == name;
    forall i | pos < i < |p|
      ensures p[i] != '/'
    {
      assert p[i] == name[i - pos - 1] && name[i - pos - 1] in name;
    }
    assert LastSlash(p) == pos;
  }

  lemma ContainsSelf(p: string)
    ensures Contains(p, p)
  {
  }

  /** Being below a directory other than the root goes up level by level. */
  lemma ContainsParent(d: string, name: string, t: string)
    requires ValidDir(d) && ValidName(name) && ValidDir(t) && t != "/"
    ensures Contains(Join(d, name), t) <==> Join(d, name) == t || Contains(d, t)
  {
    JoinParts(d, name);
    var p := Join(d, name);
    if Contains(p, t) && p != t {
      assert p[|t|] == '/';
      if |t| <= |d| {
        assert p[..|t|] == d[..|t|];
      }
    }
    if Contains(d, t) {
      assert p[..|t|] == d[..|t|];
    }
  }

  lemma ContainsTransitive(a: string, b: string, c: string)
    requires Contains(a, b) && Contains(b, c)
    ensures Contains(a, c)
  {
    assert a[..|c|] == b[..|c|];
  }

  /** The root does not contain what is in it, so a recursion that starts there ends
      there. */
  lemma RootContainsNothing(name: string)
    requires ValidName(name)
    ensures !Contains(Join("/", name), "/")
  {
    JoinParts("/", name);
    assert name[0] in name;
  }

  /** Every other directory does. */
  lemma ContainsEntry(d: string, name: string)
    requires ValidDir(d) && ValidName(name)
    ensures Contains(Join(d, name), d) <==> d != "/"
  {
    JoinParts(d, name);
    if d == "/" {
      RootContainsNothing(name);
    } else {
      assert Join(d, name)[..|d|] == d;
    }
  }

  /** A relative path of one letter is glued to what is put after it. */
  lemma ShortBaseIsGlued(c: char, name: string)
    requires c != '/' && ValidName(name)
    ensures Join([c], name) == [c] + name && BaseName(Join([c], name)) == [c] + name
  {
    assert name[0] in name;
    var p := Join([c], name);
    forall i | 0 <= i < |p|
      ensures p[i] != '/'
    {
      assert p[i] == c || p[i] in name;
    }
  }

  /** A name can be told from what it was put after if and only if that has more than one
      letter. */
  lemma SeparatorExact(base: string, name: string)
    requires base != "" && base[|base| - 1] != '/' && ValidName(name)
    ensures BaseName(Join(base, name)) == name <==> |base| > 1
  {
    if |base| == 1 {
      assert base == [base[0]];
      ShortBaseIsGlued(base[0], name);
      assert |base + name| > |name|;
    } else {
      var p := Join(base, name);
      assert name[0] in name;
      assert p[|base|] == '/' && p[|base| + 1..] == name;
      forall i | |base| < i < |p|
        ensures p[i] != '/'
      {
        assert p[i] in name;
      }
      assert LastSlash(p) == |base|;
    }
  }
}
