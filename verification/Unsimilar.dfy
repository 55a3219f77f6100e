/** Whether two file names belong to different series. */
module Unsimilar {
  import opened Base

  /** The place of the last dot, or the length. */
  function ExtensionPos(name: string): (pos: nat)
    ensures pos <= |name|
    ensures pos < |name| ==> name[pos] == '.'
    ensures forall i :: pos < i < |name| ==> name[i] != '.'
    ensures pos == |name| ==> '.' !in name
  {
    if name == "" then 0
    else if name[|name| - 1] == '.' then |name| - 1
    else
      var pos := ExtensionPos(name[..|name| - 1]);
      if pos < |name| - 1 then pos else |name|
  }

  function Stem(name: string): string {
    name[..ExtensionPos(name)]
  }

  function Extension(name: string): string {
    name[ExtensionPos(name)..]
  }

  /** The characters that are not digits. */
  function Strip(s: string): string {
    if s == "" then ""
    else if IsDigit(s[0]) then Strip(s[1..])
    else [s[0]] + Strip(s[1..])
  }

  /** Equal but for the last character, which is not a digit in either. */
  predicate LastDiffers(a: string, b: string) {
    && 0 < |a| == |b| && a[..|a| - 1] == b[..|b| - 1]
    && a[|a| - 1] != b[|b| - 1] && !IsDigit(a[|a| - 1]) && !IsDigit(b[|b| - 1])
  }

  /** The same series: only numbers differ, or only one last letter. */
  predicate SameSeries(a: string, b: string) {
    Strip(a) == Strip(b) || LastDiffers(a, b)
  }

  predicate Similar(item: string, similar: string) {
    || item == "" || similar == ""
    || Stem(item) == Stem(similar)
    || (Extension(item) == Extension(similar) && SameSeries(Stem(item), Stem(similar)))
  }

  // ----- stripping step by step -----

  lemma StripStep(s: string, i: nat)
    requires i < |s|
    ensures Strip(s[i..]) == if IsDigit(s[i]) then Strip(s[i + 1..]) else [s[i]] + Strip(s[i + 1..])
  {
    assert s[i..][1..] == s[i + 1..];
  }

  /** How far the walk over the two stems has got: what is left decides whether the
      stripped stems agree, and the first difference, if there was one, was no matter of
      last letters. */
  ghost predicate Walked(a: string, b: string, i: nat, j: nat, numberingdiff: bool) {
    && i <= |a| && j <= |b|
    && (Strip(a) == Strip(b) <==> Strip(a[i..]) == Strip(b[j..]))
    && if numberingdiff then a != b && !LastDiffers(a, b) else i == j && a[..i] == b[..j]
  }

  /** Where the stems differ first, one of them has a digit or is at its end: that is not
      a matter of last letters. */
  lemma NumberFirst(a: string, b: string, i: nat)
    requires i <= |a| && i <= |b| && a[..i] == b[..i] && (i < |a| || i < |b|)
    requires i < |a| && i < |b| ==> a[i] != b[i] && (IsDigit(a[i]) || IsDigit(b[i]))
    ensures a != b && !LastDiffers(a, b)
  {
    if |a| == |b| && i < |a| - 1 {
      assert a[..|a| - 1][i] != b[..|b| - 1][i];
    }
  }

  lemma SkipDigit(a: string, b: string, i: nat, j: nat, numberingdiff: bool)
    requires Walked(a, b, i, j, numberingdiff) && i < |a| && IsDigit(a[i]) && (j < |b| ==> a[i] != b[j])
    ensures Walked(a, b, i + 1, j, true)
  {
    hide Strip, LastDiffers, IsDigit;
    StripStep(a, i);
    if !numberingdiff {
      NumberFirst(a, b, i);
    }
  }

  lemma SkipOtherDigit(a: string, b: string, i: nat, j: nat, numberingdiff: bool)
    requires Walked(a, b, i, j, numberingdiff) && j < |b| && IsDigit(b[j]) && (i < |a| ==> a[i] != b[j])
    ensures Walked(a, b, i, j + 1, true)
  {
    hide Strip, LastDiffers, IsDigit;
    StripStep(b, j);
    if !numberingdiff {
      NumberFirst(a, b, i);
    }
  }

  lemma SkipBoth(a: string, b: string, i: nat, j: nat, numberingdiff: bool)
    requires Walked(a, b, i, j, numberingdiff) && i < |a| && j < |b| && IsDigit(a[i]) && IsDigit(b[j]) && a[i] != b[j]
    ensures Walked(a, b, i + 1, j + 1, true)
  {
    hide Strip, LastDiffers, IsDigit;
    StripStep(a, i);
    StripStep(b, j);
    if !numberingdiff {
      NumberFirst(a, b, i);
    }
  }

  lemma Prepended(c: char, x: string, d: char, y: string)
    ensures [c] + x == [d] + y <==> c == d && x == y
  {
    if [c] + x == [d] + y {
      assert ([c] + x)[0] == c && ([d] + y)[0] == d;
      assert ([c] + x)[1..] == x && ([d] + y)[1..] == y;
    }
  }

  lemma MatchBoth(a: string, b: string, i: nat, j: nat, numberingdiff: bool)
    requires Walked(a, b, i, j, numberingdiff) && i < |a| && j < |b| && a[i] == b[j]
    ensures Walked(a, b, i + 1, j + 1, numberingdiff)
  {
    hide Strip, LastDiffers;
    StripStep(a, i);
    StripStep(b, j);
    Prepended(a[i], Strip(a[i + 1..]), b[j], Strip(b[j + 1..]));
    assert a[..i + 1] == a[..i] + [a[i]];
    assert b[..j + 1] == b[..j] + [b[j]];
  }

  /** Two different letters: the stripped stems differ. */
  lemma LettersDiffer(a: string, b: string, i: nat, j: nat, numberingdiff: bool)
    requires Walked(a, b, i, j, numberingdiff) && i < |a| && j < |b| && a[i] != b[j] && !IsDigit(a[i]) && !IsDigit(b[j])
    ensures a != b && Strip(a) != Strip(b)
    ensures LastDiffers(a, b) <==> !numberingdiff && i + 1 == |a| && j + 1 == |b|
  {
    hide Strip, LastDiffers;
    StripStep(a, i);
    StripStep(b, j);
    Prepended(a[i], Strip(a[i + 1..]), b[j], Strip(b[j + 1..]));
    if !numberingdiff {
      FirstDifference(a, b, i);
    }
  }

  lemma FirstDifference(a: string, b: string, i: nat)
    requires i < |a| && i < |b| && a[..i] == b[..i] && a[i] != b[i] && !IsDigit(a[i]) && !IsDigit(b[i])
    ensures a != b && (LastDiffers(a, b) <==> i + 1 == |a| && i + 1 == |b|)
  {
    if |a| == |b| && i < |a| - 1 {
      assert a[..|a| - 1][i] != b[..|b| - 1][i];
    }
  }

  /** One stem is at its end and the other goes on with a letter. */
  lemma LetterLeft(a: string, b: string, i: nat, j: nat, numberingdiff: bool)
    requires Walked(a, b, i, j, numberingdiff)
    requires (i == |a| && j < |b| && !IsDigit(b[j])) || (j == |b| && i < |a| && !IsDigit(a[i]))
    ensures a != b && !SameSeries(a, b)
  {
    if i == |a| {
      StripStep(b, j);
    } else {
      StripStep(a, i);
    }
  }

  lemma WalkStarts(a: string, b: string)
    ensures Walked(a, b, 0, 0, false)
  {
    assert a[0..] == a && b[0..] == b;
  }

  lemma WalkEnds(a: string, b: string, numberingdiff: bool)
    requires Walked(a, b, |a|, |b|, numberingdiff)
    ensures Strip(a) == Strip(b) && (numberingdiff <==> a != b)
  {
    assert a[..|a|] == a && b[..|b|] == b;
  }

  // ----- the walk -----

  /** Walks over both stems at once; true means that they are of different series. If they
      are not, tells whether they are equal. */
  method WalkStems(item: string, similar: string, itemextensionpos: nat, similarextensionpos: nat)
    returns (unsimilar: bool, numberingdiff: bool)
    requires itemextensionpos <= |item| && similarextensionpos <= |similar|
    ensures var a, b := item[..itemextensionpos], similar[..similarextensionpos];
            && (unsimilar <==> a != b && !SameSeries(a, b))
            && (!unsimilar ==> (numberingdiff <==> a != b))
  {
    hide Strip, Walked, LastDiffers;
    ghost var a, b := item[..itemextensionpos], similar[..similarextensionpos];
    numberingdiff := false;
    var numberingdiffpassed := false;
    var itempos, similarpos := 0, 0;
    ghost var last := false;
    WalkStarts(a, b);
    while itempos < itemextensionpos || similarpos < similarextensionpos
      invariant itempos <= itemextensionpos && similarpos <= similarextensionpos
      invariant if last then numberingdiff && itempos == itemextensionpos && similarpos == similarextensionpos &&
                             a != b && LastDiffers(a, b)
                else Walked(a, b, itempos, similarpos, numberingdiff)
      invariant numberingdiffpassed ==>
                  numberingdiff && itempos < itemextensionpos && similarpos < similarextensionpos &&
                  a != b && !SameSeries(a, b) && item[itempos] != similar[similarpos]
      decreases itemextensionpos - itempos + similarextensionpos - similarpos, !numberingdiffpassed
    {
      if itempos == itemextensionpos {
        if !numberingdiffpassed && IsDigit(similar[similarpos]) {
          SkipOtherDigit(a, b, itempos, similarpos, numberingdiff);
          numberingdiff := true;
          similarpos := similarpos + 1;
          continue;
        }
        LetterLeft(a, b, itempos, similarpos, numberingdiff);
        return true, numberingdiff;
      }
      if similarpos == similarextensionpos {
        if !numberingdiffpassed && IsDigit(item[itempos]) {
          SkipDigit(a, b, itempos, similarpos, numberingdiff);
          numberingdiff := true;
          itempos := itempos + 1;
          continue;
        }
        LetterLeft(a, b, itempos, similarpos, numberingdiff);
        return true, numberingdiff;
      }
      if IsDigit(item[itempos]) && numberingdiffpassed {
        return true, numberingdiff;
      }
      if item[itempos] == similar[similarpos] {
        MatchBoth(a, b, itempos, similarpos, numberingdiff);
        itempos := itempos + 1;
        similarpos := similarpos + 1;
      } else {
        if numberingdiffpassed {
          return true, numberingdiff;
        }
        var either := false;
        var c, d := item[itempos], similar[similarpos];
        if IsDigit(c) && IsDigit(d) {
          SkipBoth(a, b, itempos, similarpos, numberingdiff);
        } else if IsDigit(c) {
          SkipDigit(a, b, itempos, similarpos, numberingdiff);
        } else if IsDigit(d) {
          SkipOtherDigit(a, b, itempos, similarpos, numberingdiff);
        } else {
          LettersDiffer(a, b, itempos, similarpos, numberingdiff);
        }
        if IsDigit(c) {
          itempos := itempos + 1;
          either := true;
        }
        if IsDigit(d) {
          similarpos := similarpos + 1;
          either := true;
        }
        if either && !numberingdiff {
          numberingdiff := true;
        }
        if !either {
          if numberingdiff {
            numberingdiffpassed := true;
          } else if itempos + 1 == itemextensionpos && similarpos + 1 == similarextensionpos {
            numberingdiff := true;
            itempos := itempos + 1;
            similarpos := similarpos + 1;
            last := true;
          } else {
            return true, numberingdiff;
          }
        }
      }
    }
    if !last {
      WalkEnds(a, b, numberingdiff);
    }
    return false, numberingdiff;
  }

  /** Two names are similar if and only if one is empty, their stems are equal, or their
      extensions are equal and their stems differ in numbers or in one last letter only. */
  method CheckUnsimilar(item: string, similar: string) returns (unsimilar: bool)
    ensures unsimilar <==> !Similar(item, similar)
  {
    hide Strip, LastDiffers;
    if item == "" || similar == "" {
      return false;
    }
    var itemextensionpos, similarextensionpos := ExtensionPos(item), ExtensionPos(similar);
    var numberingdiff;
    unsimilar, numberingdiff := WalkStems(item, similar, itemextensionpos, similarextensionpos);
    if unsimilar {
      return true;
    }
    var itempos, similarpos := itemextensionpos, similarextensionpos;
    var extensiondiff := false;
    ghost var e, f := Extension(item), Extension(similar);
    while itempos < |item| && similarpos < |similar| && !extensiondiff
      invariant itemextensionpos <= itempos <= |item| && similarpos - similarextensionpos == itempos - itemextensionpos
      invariant similarpos <= |similar|
      invariant !extensiondiff ==> e[..itempos - itemextensionpos] == f[..itempos - itemextensionpos]
      invariant extensiondiff ==> e != f
      decreases |item| - itempos
    {
      assert item[itempos] == e[itempos - itemextensionpos] && similar[similarpos] == f[itempos - itemextensionpos];
      if item[itempos] != similar[similarpos] {
        extensiondiff := true;
      }
      itempos := itempos + 1;
      similarpos := similarpos + 1;
    }
    if !extensiondiff && (itempos < |item| || similarpos < |similar|) {
      extensiondiff := true;
    }
    assert e[..|e|] == e && f[..|f|] == f;
    return numberingdiff && extensiondiff;
  }

  lemma DotAt(name: string, pos: nat)
    requires pos < |name| && name[pos] == '.' && forall i :: pos < i < |name| ==> name[i] != '.'
    ensures ExtensionPos(name) == pos
  {
  }

  /** Being of the same series is not transitive. */
  lemma SeriesNotTransitive()
    ensures Similar("ab.r", "ac.r") && Similar("ab.r", "ab1.r") && !Similar("ac.r", "ab1.r")
  {
    hide ExtensionPos, Strip;
    DotAt("ab.r", 2);
    DotAt("ac.r", 2);
    DotAt("ab1.r", 3);
    assert Stem("ab.r") == "ab" && Stem("ac.r") == "ac" && Stem("ab1.r") == "ab1";
    assert Extension("ab.r") == Extension("ac.r") == Extension("ab1.r") == ".r";
    Stripped();
  }

  lemma Stripped()
    ensures Strip("ab") == "ab" && Strip("ac") == "ac" && Strip("ab1") == "ab"
  {
    assert Strip("") == "";
    assert Strip("1") == "" && Strip("b") == "b" && Strip("c") == "c";
    assert "ab1"[1..] == "b1" && "b1"[1..] == "1" && "ab"[1..] == "b" && "ac"[1..] == "c";
    assert Strip("b1") == "b";
  }
}
