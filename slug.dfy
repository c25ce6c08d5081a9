/**
 * The name-to-slug transform that the public intake endpoint and the admin create endpoint
 * both apply, as the same chain of steps: lower-case, canonical decomposition (NFD), removal
 * of the combining marks U+0300-U+036F, every run of characters outside `[a-z0-9]` replaced
 * by one `-`, and leading and trailing hyphens removed.
 */
module Slug {
  import opened JsText

  /**
   * Canonical decomposition of the Latin-1 lower-case letters that have one (the only
   * accented letters left once `ToLower` has run); every other character is its own
   * decomposition.
   */
  function DecomposeChar(c: char): string {
    match c
    case '\U{00E0}' => "a\U{0300}"
    case '\U{00E1}' => "a\U{0301}"
    case '\U{00E2}' => "a\U{0302}"
    case '\U{00E3}' => "a\U{0303}"
    case '\U{00E4}' => "a\U{0308}"
    case '\U{00E5}' => "a\U{030A}"
    case '\U{00E7}' => "c\U{0327}"
    case '\U{00E8}' => "e\U{0300}"
    case '\U{00E9}' => "e\U{0301}"
    case '\U{00EA}' => "e\U{0302}"
    case '\U{00EB}' => "e\U{0308}"
    case '\U{00EC}' => "i\U{0300}"
    case '\U{00ED}' => "i\U{0301}"
    case '\U{00EE}' => "i\U{0302}"
    case '\U{00EF}' => "i\U{0308}"
    case '\U{00F1}' => "n\U{0303}"
    case '\U{00F2}' => "o\U{0300}"
    case '\U{00F3}' => "o\U{0301}"
    case '\U{00F4}' => "o\U{0302}"
    case '\U{00F5}' => "o\U{0303}"
    case '\U{00F6}' => "o\U{0308}"
    case '\U{00F9}' => "u\U{0300}"
    case '\U{00FA}' => "u\U{0301}"
    case '\U{00FB}' => "u\U{0302}"
    case '\U{00FC}' => "u\U{0308}"
    case '\U{00FD}' => "y\U{0301}"
    case '\U{00FF}' => "y\U{0308}"
    case _ => [c]
  }

  /** `normalize('NFD')`, character by character. */
  function Nfd(s: string): string {
    if s == [] then [] else DecomposeChar(s[0]) + Nfd(s[1..])
  }

  /** The class `[̀-ͯ]`: the combining diacritical marks. */
  predicate IsCombiningMark(c: char) {
    '\U{0300}' <= c <= '\U{036F}'
  }

  /** `replace(/[̀-ͯ]/g, '')`. */
  function StripMarks(s: string): (r: string)
    ensures forall i :: 0 <= i < |r| ==> !IsCombiningMark(r[i])
  {
    if s == [] then []
    else if IsCombiningMark(s[0]) then StripMarks(s[1..])
    else [s[0]] + StripMarks(s[1..])
  }

  /** The class `[a-z0-9]`. */
  predicate IsSlugChar(c: char) {
    IsAsciiLower(c) || IsAsciiDigit(c)
  }

  /** Drops the leading run of characters outside `[a-z0-9]`. */
  function DropNonSlugChars(s: string): (r: string)
    ensures |r| <= |s| && r == s[|s| - |r|..]
    ensures r == [] || IsSlugChar(r[0])
  {
    if s != [] && !IsSlugChar(s[0]) then
      var r := DropNonSlugChars(s[1..]);
      assert s[1..][|s| - 1 - |r|..] == s[|s| - |r|..];
      r
    else s
  }

  /** Every character is in `[a-z0-9]` or is a hyphen. */
  predicate SlugCharset(s: string) {
    forall i :: 0 <= i < |s| ==> IsSlugChar(s[i]) || s[i] == '-'
  }

  /** No two hyphens stand next to each other. */
  predicate NoDoubleHyphen(s: string) {
    forall i, j :: 0 <= i < |s| && 0 <= j < |s| && j == i + 1 ==> !(s[i] == '-' && s[j] == '-')
  }

  /** `replace(/[^a-z0-9]+/g, '-')`: each maximal run outside `[a-z0-9]` becomes one hyphen. */
  function CollapseRuns(s: string): (r: string)
    ensures SlugCharset(r) && NoDoubleHyphen(r)
    ensures s == [] <==> r == []
    ensures s != [] ==> (r[0] == '-' <==> !IsSlugChar(s[0]))
    decreases |s|
  {
    if s == [] then []
    else if IsSlugChar(s[0]) then [s[0]] + CollapseRuns(s[1..])
    else "-" + CollapseRuns(DropNonSlugChars(s[1..]))
  }

  function DropLeadingHyphens(s: string): (r: string)
    ensures |r| <= |s| && r == s[|s| - |r|..]
    ensures r == [] || r[0] != '-'
    ensures forall i :: 0 <= i < |s| - |r| ==> s[i] == '-'
  {
    if s != [] && s[0] == '-' then
      var r := DropLeadingHyphens(s[1..]);
      assert s[1..][|s| - 1 - |r|..] == s[|s| - |r|..];
      r
    else s
  }

  function DropTrailingHyphens(s: string): (r: string)
    ensures |r| <= |s| && r == s[..|r|]
    ensures r == [] || r[|r| - 1] != '-'
    ensures forall i :: |r| <= i < |s| ==> s[i] == '-'
  {
    if s != [] && s[|s| - 1] == '-' then
      var r := DropTrailingHyphens(s[..|s| - 1]);
      assert s[..|s| - 1][..|r|] == s[..|r|];
      r
    else s
  }

  /** `replace(/^-+|-+$/g, '')`. */
  function TrimHyphens(s: string): string {
    DropTrailingHyphens(DropLeadingHyphens(s))
  }

  /** The text the two character-class replacements see: lower-cased, decomposed, marks removed. */
  function Folded(name: string): string {
    StripMarks(Nfd(ToLower(name)))
  }

  /** The slug both create endpoints compute from `nombre`. */
  function Slugify(name: string): string {
    TrimHyphens(CollapseRuns(Folded(name)))
  }

  /** What a well-formed slug looks like: `[a-z0-9-]` only, no hyphen at either end, none doubled. */
  predicate IsSlug(s: string) {
    && SlugCharset(s)
    && NoDoubleHyphen(s)
    && (s == [] || (s[0] != '-' && s[|s| - 1] != '-'))
  }

  /** A contiguous piece of a string keeps the charset and the no-double-hyphen property. */
  lemma SliceKeepsShape(s: string, a: nat, b: nat)
    requires a <= b <= |s|
    requires SlugCharset(s) && NoDoubleHyphen(s)
    ensures SlugCharset(s[a..b]) && NoDoubleHyphen(s[a..b])
  {
    var t := s[a..b];
    forall i, j | 0 <= i < |t| && 0 <= j < |t| && j == i + 1 ensures !(t[i] == '-' && t[j] == '-') {
      assert t[i] == s[a + i] && t[j] == s[a + j];
    }
  }

  /** Whatever the name, the slug has only `[a-z0-9-]`, no edge hyphen and no `--`. */
  lemma SlugifyIsSlug(name: string)
    ensures IsSlug(Slugify(name))
  {
    var c := CollapseRuns(Folded(name));
    var l := DropLeadingHyphens(c);
    SliceKeepsShape(c, |c| - |l|, |c|);
    var r := DropTrailingHyphens(l);
    SliceKeepsShape(l, 0, |r|);
    if r != [] {
      assert r[0] == l[0];
    }
  }

  /** A string already in `[a-z0-9-]` with no `--` comes out of the run collapse unchanged. */
  lemma {:induction false} CollapseRunsFixed(s: string)
    requires SlugCharset(s) && NoDoubleHyphen(s)
    ensures CollapseRuns(s) == s
    decreases |s|
  {
    if s != [] {
      SliceKeepsShape(s, 1, |s|);
      CollapseRunsFixed(s[1..]);
      if IsSlugChar(s[0]) {
        CollapseAtWord(s);
      } else {
        assert s[0] == '-';
        if |s| > 1 {
          assert !(s[0] == '-' && s[1] == '-');
        }
        CollapseAtRun(s);
        DropSingle(s);
        assert s == "-" + s[1..];
      }
    }
  }

  /** A single character outside `[a-z0-9]` before a slug character, or alone, is all that is dropped. */
  lemma DropSingle(s: string)
    requires s != [] && !IsSlugChar(s[0]) && (|s| == 1 || IsSlugChar(s[1]))
    ensures DropNonSlugChars(s) == s[1..]
  {
  }

  /** Lower-casing, decomposing and mark stripping leave a string in `[a-z0-9-]` untouched. */
  lemma {:induction false} FoldedFixed(s: string)
    requires SlugCharset(s)
    ensures Folded(s) == s
  {
    assert ToLower(s) == s;
    NfdStripFixed(s);
  }

  lemma {:induction false} NfdStripFixed(s: string)
    requires SlugCharset(s)
    ensures StripMarks(Nfd(s)) == s
  {
    if s != [] {
      assert SlugCharset(s[1..]) by {
        forall i | 0 <= i < |s[1..]| ensures IsSlugChar(s[1..][i]) || s[1..][i] == '-' {
          assert s[1..][i] == s[i + 1];
        }
      }
      NfdStripFixed(s[1..]);
      assert DecomposeChar(s[0]) == [s[0]];
      assert Nfd(s) == [s[0]] + Nfd(s[1..]);
      StripMarksAppend([s[0]], Nfd(s[1..]));
    }
  }

  lemma {:induction false} StripMarksAppend(a: string, b: string)
    ensures StripMarks(a + b) == StripMarks(a) + StripMarks(b)
  {
    if a != [] {
      assert (a + b)[1..] == a[1..] + b;
      StripMarksAppend(a[1..], b);
    } else {
      assert a + b == b;
    }
  }

  /** A well-formed slug is its own slug. */
  lemma SlugIsFixedPoint(s: string)
    requires IsSlug(s)
    ensures Slugify(s) == s
  {
    FoldedFixed(s);
    CollapseRunsFixed(s);
  }

  /** Applying the transform to its own output returns that output unchanged. */
  lemma SlugifyIdempotent(name: string)
    ensures Slugify(Slugify(name)) == Slugify(name)
  {
    SlugifyIsSlug(name);
    SlugIsFixedPoint(Slugify(name));
  }

  /** The letters and digits of `s`, in order: the part of a name the slug is made of. */
  function SlugChars(s: string): string {
    if s == [] then []
    else (if IsSlugChar(s[0]) then [s[0]] else []) + SlugChars(s[1..])
  }

  lemma {:induction false} SlugCharsAppend(a: string, b: string)
    ensures SlugChars(a + b) == SlugChars(a) + SlugChars(b)
  {
    if a == [] {
      assert a + b == b;
    } else {
      assert a + b == [a[0]] + (a[1..] + b);
      assert a == [a[0]] + a[1..];
      SlugCharsCons(a[0], a[1..] + b);
      SlugCharsCons(a[0], a[1..]);
      SlugCharsAppend(a[1..], b);
    }
  }

  lemma SlugCharsCons(c: char, t: string)
    ensures SlugChars([c] + t) == (if IsSlugChar(c) then [c] else []) + SlugChars(t)
  {
    assert ([c] + t)[1..] == t;
  }

  lemma {:induction false} DropNonSlugCharsKeeps(s: string)
    ensures SlugChars(DropNonSlugChars(s)) == SlugChars(s)
  {
    if s != [] && !IsSlugChar(s[0]) {
      DropNonSlugCharsKeeps(s[1..]);
    }
  }

  /** Collapsing the runs keeps every letter and digit, in order, and adds none. */
  lemma {:induction false} CollapseRunsKeeps(s: string)
    ensures SlugChars(CollapseRuns(s)) == SlugChars(s)
    decreases |s|
  {
    if s != [] {
      if IsSlugChar(s[0]) {
        CollapseRunsKeeps(s[1..]);
        SlugCharsAppend([s[0]], CollapseRuns(s[1..]));
      } else {
        var t := DropNonSlugChars(s[1..]);
        CollapseRunsKeeps(t);
        DropNonSlugCharsKeeps(s[1..]);
        SlugCharsAppend("-", CollapseRuns(t));
      }
    }
  }

  /** A string of hyphens only has no letter or digit. */
  lemma {:induction false} HyphensHaveNoSlugChars(s: string)
    requires forall i :: 0 <= i < |s| ==> s[i] == '-'
    ensures SlugChars(s) == []
  {
    if s != [] {
      HyphensHaveNoSlugChars(s[1..]);
    }
  }

  lemma DropLeadingHyphensKeeps(s: string)
    ensures SlugChars(DropLeadingHyphens(s)) == SlugChars(s)
  {
    var l := DropLeadingHyphens(s);
    var p := s[..|s| - |l|];
    assert s == p + l;
    SlugCharsAppend(p, l);
    forall i | 0 <= i < |p| ensures p[i] == '-' {
      assert p[i] == s[i];
    }
    HyphensHaveNoSlugChars(p);
  }

  lemma DropTrailingHyphensKeeps(s: string)
    ensures SlugChars(DropTrailingHyphens(s)) == SlugChars(s)
  {
    var r := DropTrailingHyphens(s);
    var q := s[|r|..];
    assert s == r + q;
    SlugCharsAppend(r, q);
    forall i | 0 <= i < |q| ensures q[i] == '-' {
      assert q[i] == s[|r| + i];
    }
    HyphensHaveNoSlugChars(q);
  }

  /** Trimming the edge hyphens keeps every letter and digit. */
  lemma TrimHyphensKeeps(s: string)
    ensures SlugChars(TrimHyphens(s)) == SlugChars(s)
  {
    DropLeadingHyphensKeeps(s);
    DropTrailingHyphensKeeps(DropLeadingHyphens(s));
  }

  /**
   * The slug holds exactly the ASCII letters and digits of the lower-cased, decomposed,
   * mark-free name, in their order; everything else is gone or became a single hyphen.
   */
  lemma SlugifyKeepsLettersAndDigits(name: string)
    ensures SlugChars(Slugify(name)) == SlugChars(Folded(name))
  {
    CollapseRunsKeeps(Folded(name));
    TrimHyphensKeeps(CollapseRuns(Folded(name)));
  }

  /**
   * The slug is empty exactly when no ASCII letter or digit is left after lower-casing,
   * decomposing and stripping the marks; the endpoints store such an empty slug as is.
   */
  lemma SlugifyEmptyIff(name: string)
    ensures Slugify(name) == [] <==> SlugChars(Folded(name)) == []
  {
    SlugifyKeepsLettersAndDigits(name);
    SlugifyIsSlug(name);
    SlugEmptyIff(Slugify(name));
  }

  /** A well-formed slug is empty exactly when it has no letter or digit. */
  lemma SlugEmptyIff(r: string)
    requires IsSlug(r)
    ensures r == [] <==> SlugChars(r) == []
  {
    if r != [] {
      assert IsSlugChar(r[0]);
      SlugCharsCons(r[0], r[1..]);
      assert [r[0]] + r[1..] == r;
    }
  }

  /** An accented capital folds to its base letter: `Ñ` is lower-cased, decomposed, and its tilde stripped. */
  lemma FoldsAccentedCapital()
    ensures Folded(['\U{00D1}']) == ['n']
  {
    var lower := ToLower(['\U{00D1}']);
    assert lower == ['\U{00F1}'];
    assert Nfd(lower) == DecomposeChar('\U{00F1}') + Nfd([]);
    var d := Nfd(lower);
    assert d == ['n', '\U{0303}'];
    assert StripMarks(d) == ['n'] + StripMarks(d[1..]);
    assert d[1..] == ['\U{0303}'];
  }

  /** A run of characters outside `[a-z0-9]` between two words becomes exactly one hyphen. */
  lemma CollapseJoinsWords(a: string, sep: string, b: string)
    requires forall i :: 0 <= i < |a| ==> IsSlugChar(a[i])
    requires sep != [] && forall i :: 0 <= i < |sep| ==> !IsSlugChar(sep[i])
    requires forall i :: 0 <= i < |b| ==> IsSlugChar(b[i])
    ensures CollapseRuns(a + sep + b) == a + "-" + b
  {
    Regroup(a, sep, b);
    CollapseKeepsWord(a, sep + b);
    RunBeforeWord(sep, b);
    Regroup(a, "-", b);
  }

  lemma Regroup(a: string, b: string, c: string)
    ensures a + b + c == a + (b + c)
  {
  }

  /** A leading word of slug characters passes through the collapse unchanged. */
  lemma {:induction false} CollapseKeepsWord(a: string, x: string)
    requires forall i :: 0 <= i < |a| ==> IsSlugChar(a[i])
    ensures CollapseRuns(a + x) == a + CollapseRuns(x)
  {
    if a == [] {
      assert a + x == x;
    } else {
      var t := a[1..];
      assert (a + x)[0] == a[0] && (a + x)[1..] == t + x;
      CollapseAtWord(a + x);
      assert forall i :: 0 <= i < |t| ==> t[i] == a[i + 1];
      CollapseKeepsWord(t, x);
      assert a + CollapseRuns(x) == [a[0]] + (t + CollapseRuns(x));
    }
  }

  /** A text starting inside `[a-z0-9]` keeps that character in front of the collapse of the rest. */
  lemma CollapseAtWord(x: string)
    requires x != [] && IsSlugChar(x[0])
    ensures CollapseRuns(x) == [x[0]] + CollapseRuns(x[1..])
  {
  }

  /** A run of characters outside `[a-z0-9]` followed by a word collapses to a hyphen and the word. */
  lemma RunBeforeWord(sep: string, b: string)
    requires sep != [] && forall i :: 0 <= i < |sep| ==> !IsSlugChar(sep[i])
    requires forall i :: 0 <= i < |b| ==> IsSlugChar(b[i])
    ensures CollapseRuns(sep + b) == "-" + b
  {
    var x := sep + b;
    assert x[0] == sep[0];
    CollapseAtRun(x);
    DropRun(sep, b);
    AllSlugCharsFixed(b);
  }

  /** A text starting outside `[a-z0-9]` collapses to a hyphen and the collapse of what follows the run. */
  lemma CollapseAtRun(x: string)
    requires x != [] && !IsSlugChar(x[0])
    ensures CollapseRuns(x) == "-" + CollapseRuns(DropNonSlugChars(x))
  {
  }

  /** Dropping a run of characters outside `[a-z0-9]` stops at a text that starts inside it. */
  lemma {:induction false} DropRun(run: string, b: string)
    requires forall i :: 0 <= i < |run| ==> !IsSlugChar(run[i])
    requires b == [] || IsSlugChar(b[0])
    ensures DropNonSlugChars(run + b) == b
  {
    if run == [] {
      assert run + b == b;
      DropStops(b);
    } else {
      var t := run[1..];
      assert run + b == [run[0]] + (t + b);
      DropCons(run[0], t + b);
      assert forall i :: 0 <= i < |t| ==> t[i] == run[i + 1];
      DropRun(t, b);
    }
  }

  lemma DropStops(b: string)
    requires b == [] || IsSlugChar(b[0])
    ensures DropNonSlugChars(b) == b
  {
  }

  /** A text of slug characters only collapses to itself. */
  lemma AllSlugCharsFixed(b: string)
    requires forall i :: 0 <= i < |b| ==> IsSlugChar(b[i])
    ensures CollapseRuns(b) == b
  {
    CollapseRunsFixed(b);
  }

  /** One step of the collapse: a slug character is kept, any other starts a run that becomes one hyphen. */
  lemma CollapseCons(c: char, t: string)
    ensures CollapseRuns([c] + t) == if IsSlugChar(c) then [c] + CollapseRuns(t) else "-" + CollapseRuns(DropNonSlugChars(t))
  {
    assert ([c] + t)[1..] == t;
  }

  lemma DropCons(c: char, t: string)
    ensures DropNonSlugChars([c] + t) == if IsSlugChar(c) then [c] + t else DropNonSlugChars(t)
  {
    assert ([c] + t)[1..] == t;
  }
}
