/**
 * `_slugify`, the key a saved workout gets from its name, with the text
 * operations it is made of, on ASCII text.
 */
module Slug {
  import opened Text

  /** A character the separator pattern `[^a-zA-Z0-9]+` does not match. */
  predicate IsAlnum(c: char) { IsAsciiLetter(c) || IsDigit(c) }

  /** The letters and digits of a text, in order. */
  function Alnums(s: string): string
  {
    if s == [] then [] else if IsAlnum(s[0]) then [s[0]] + Alnums(s[1..]) else Alnums(s[1..])
  }

  /** No two dashes in a row. */
  predicate NoDoubleDash(s: string)
  {
    forall k :: 0 <= k < |s| - 1 ==> !(s[k] == '-' && s[k + 1] == '-')
  }

  /** Only lower-case letters, digits and dashes. */
  predicate SlugChars(s: string)
  {
    forall k :: 0 <= k < |s| ==> 'a' <= s[k] <= 'z' || IsDigit(s[k]) || s[k] == '-'
  }

  /** What a key made from a name looks like: lower-case letters, digits and single inner dashes. */
  predicate IsSlug(s: string)
  {
    |s| > 0 && SlugChars(s) && s[0] != '-' && s[|s| - 1] != '-' && NoDoubleDash(s)
  }

  /** The text after a leading run of separators. */
  function SkipSeparators(s: string): (r: string)
    ensures |r| <= |s| && r == s[|s| - |r|..]
    ensures r == [] || IsAlnum(r[0])
    ensures forall k :: 0 <= k < |s| - |r| ==> !IsAlnum(s[k])
  {
    if s == [] || IsAlnum(s[0]) then s
    else
      var t := SkipSeparators(s[1..]);
      assert forall k :: 1 <= k < |s| - |t| ==> s[k] == s[1..][k - 1];
      t
  }

  /** `re.sub(r"[^a-zA-Z0-9]+", "-", s)`: every run of separators replaced by one dash. */
  function CollapseSeparators(s: string): (r: string)
    ensures NoDoubleDash(r)
    ensures s == [] <==> r == []
    ensures s != [] ==> (r[0] == '-' <==> !IsAlnum(s[0]))
    decreases |s|
  {
    if s == [] then []
    else if IsAlnum(s[0]) then [s[0]] + CollapseSeparators(s[1..])
    else "-" + CollapseSeparators(SkipSeparators(s[1..]))
  }

  /** `s.lstrip("-")`. */
  function TrimLeftDashes(s: string): (r: string)
    ensures |r| <= |s| && r == s[|s| - |r|..]
    ensures forall k :: 0 <= k < |s| - |r| ==> s[k] == '-'
    ensures r == [] || r[0] != '-'
  {
    if s == [] || s[0] != '-' then s
    else
      var t := TrimLeftDashes(s[1..]);
      assert forall k :: 1 <= k < |s| - |t| ==> s[k] == s[1..][k - 1];
      t
  }

  /** `s.rstrip("-")`. */
  function TrimRightDashes(s: string): (r: string)
    ensures |r| <= |s| && r == s[..|r|]
    ensures forall k :: |r| <= k < |s| ==> s[k] == '-'
    ensures r == [] || r[|r| - 1] != '-'
  {
    if s == [] || s[|s| - 1] != '-' then s
    else
      var t := TrimRightDashes(s[..|s| - 1]);
      assert forall k :: |t| <= k < |s| - 1 ==> s[k] == s[..|s| - 1][k];
      t
  }

  /** `s.strip("-")`. */
  function TrimDashes(s: string): (r: string)
  {
    TrimRightDashes(TrimLeftDashes(s))
  }

  /** A slice of a text without double dashes has none either. */
  lemma NoDoubleDashSlice(s: string, i: nat, j: nat)
    requires i <= j <= |s| && NoDoubleDash(s)
    ensures NoDoubleDash(s[i..j])
  {
    forall k | 0 <= k < j - i - 1
      ensures !(s[i..j][k] == '-' && s[i..j][k + 1] == '-')
    {
      assert s[i..j][k] == s[i + k] && s[i..j][k + 1] == s[i + k + 1];
    }
  }

  /** A slice of a text of key characters has only key characters. */
  lemma SlugCharsSlice(s: string, i: nat, j: nat)
    requires i <= j <= |s| && SlugChars(s)
    ensures SlugChars(s[i..j])
  {
    assert forall k :: 0 <= k < j - i ==> s[i..j][k] == s[i + k];
  }

  /** `TrimDashes` keeps the middle slice `s[i..j]`: what it removes is dashes only. */
  lemma TrimDashesBounds(s: string) returns (i: nat, j: nat)
    ensures i <= j <= |s| && TrimDashes(s) == s[i..j]
    ensures forall k :: 0 <= k < i ==> s[k] == '-'
    ensures forall k :: j <= k < |s| ==> s[k] == '-'
    ensures TrimDashes(s) == [] || (TrimDashes(s)[0] != '-' && TrimDashes(s)[|TrimDashes(s)| - 1] != '-')
  {
    var l := TrimLeftDashes(s);
    var r := TrimRightDashes(l);
    i := |s| - |l|;
    j := i + |r|;
    assert r == s[i..j];
    if r != [] {
      assert r[0] == l[0];
    }
  }

  /** Lowering leaves no upper-case letter. */
  lemma LowerNoUpper(s: string)
    ensures forall k :: 0 <= k < |Lower(s)| ==> !('A' <= Lower(s)[k] <= 'Z')
  {
  }

  /** Collapsing a text without upper-case letters leaves only lower-case letters, digits and dashes. */
  lemma {:induction false} CollapseSlugChars(s: string)
    requires forall k :: 0 <= k < |s| ==> !('A' <= s[k] <= 'Z')
    ensures SlugChars(CollapseSeparators(s))
    decreases |s|
  {
    if s != [] {
      if IsAlnum(s[0]) {
        CollapseSlugChars(s[1..]);
        assert CollapseSeparators(s) == [s[0]] + CollapseSeparators(s[1..]);
      } else {
        var rest := SkipSeparators(s[1..]);
        assert forall k :: 0 <= k < |rest| ==> rest[k] == s[|s| - |rest| + k];
        CollapseSlugChars(rest);
        assert CollapseSeparators(s) == "-" + CollapseSeparators(rest);
      }
    }
  }

  /** Trimming the dashes of such a text leaves nothing or a key. */
  lemma TrimIsSlug(t: string)
    requires SlugChars(t) && NoDoubleDash(t)
    ensures TrimDashes(t) == [] || IsSlug(TrimDashes(t))
  {
    var i, j := TrimDashesBounds(t);
    NoDoubleDashSlice(t, i, j);
    SlugCharsSlice(t, i, j);
  }

  /** The fallback key is itself a key. */
  lemma DefaultSlug()
    ensures IsSlug("custom-workout")
  {
    var d := "custom-workout";
    assert d[6] == '-';
    assert forall k :: 0 <= k < |d| && k != 6 ==> 'a' <= d[k] <= 'z';
  }

  /**
   * `_slugify`: strip and lower the name, turn every run of characters other
   * than ASCII letters and digits into one dash, drop dashes at both ends, and
   * fall back to "custom-workout" when nothing is left.
   */
  function Slugify(name: string): (slug: string)
    ensures IsSlug(slug)
  {
    var lowered := Lower(Strip(name));
    var collapsed := CollapseSeparators(lowered);
    var s := TrimDashes(collapsed);
    LowerNoUpper(Strip(name));
    CollapseSlugChars(lowered);
    TrimIsSlug(collapsed);
    DefaultSlug();
    if s == [] then "custom-workout" else s
  }

  /** Letters and digits of two texts put together. */
  lemma {:induction false} AlnumsConcat(a: string, b: string)
    ensures Alnums(a + b) == Alnums(a) + Alnums(b)
  {
    if a == [] {
      assert a + b == b;
    } else {
      assert (a + b)[0] == a[0];
      assert (a + b)[1..] == a[1..] + b;
      AlnumsConcat(a[1..], b);
    }
  }

  /** A text without letters and digits has none to keep. */
  lemma {:induction false} AlnumsNone(s: string)
    requires forall k :: 0 <= k < |s| ==> !IsAlnum(s[k])
    ensures Alnums(s) == []
  {
    if s != [] {
      AlnumsNone(s[1..]);
    }
  }

  /** Ends without letters and digits add none. */
  lemma AlnumsMiddle(a: string, b: string, c: string)
    requires Alnums(a) == [] && Alnums(c) == []
    ensures Alnums(a + b + c) == Alnums(b)
  {
    AlnumsConcat(a + b, c);
    AlnumsConcat(a, b);
    assert [] + Alnums(b) + [] == Alnums(b);
  }

  /** Removing separators or dashes from the ends of a text keeps its letters and digits. */
  lemma AlnumsSlice(s: string, i: nat, j: nat)
    requires i <= j <= |s|
    requires forall k :: 0 <= k < i ==> !IsAlnum(s[k])
    requires forall k :: j <= k < |s| ==> !IsAlnum(s[k])
    ensures Alnums(s[i..j]) == Alnums(s)
  {
    var a, b, c := s[..i], s[i..j], s[j..];
    assert Alnums(a) == [] by {
      AlnumsNone(a);
    }
    assert Alnums(c) == [] by {
      assert forall k :: 0 <= k < |c| ==> c[k] == s[j + k];
      AlnumsNone(c);
    }
    assert s == a + b + c;
    AlnumsMiddle(a, b, c);
  }

  /** Lowering a text lowers its letters and keeps its digits. */
  lemma {:induction false} AlnumsLower(s: string)
    ensures Alnums(Lower(s)) == Lower(Alnums(s))
  {
    if s != [] {
      var t := Lower(s);
      assert t[0] == LowerChar(s[0]) && t[1..] == Lower(s[1..]);
      assert IsAlnum(t[0]) <==> IsAlnum(s[0]);
      AlnumsLower(s[1..]);
      if IsAlnum(s[0]) {
        assert Lower([s[0]] + Alnums(s[1..])) == [LowerChar(s[0])] + Lower(Alnums(s[1..]));
      }
    }
  }

  /** Skipping separators keeps the letters and digits. */
  lemma {:induction false} AlnumsSkip(t: string)
    ensures Alnums(SkipSeparators(t)) == Alnums(t)
  {
    if t != [] && !IsAlnum(t[0]) {
      AlnumsSkip(t[1..]);
    }
  }

  /** Collapsing separators keeps the letters and digits in order. */
  lemma {:induction false} AlnumsCollapse(s: string)
    ensures Alnums(CollapseSeparators(s)) == Alnums(s)
    decreases |s|
  {
    if s != [] {
      if IsAlnum(s[0]) {
        var tail := CollapseSeparators(s[1..]);
        assert ([s[0]] + tail)[1..] == tail;
        AlnumsCollapse(s[1..]);
      } else {
        var rest := SkipSeparators(s[1..]);
        var tail := CollapseSeparators(rest);
        assert ("-" + tail)[1..] == tail;
        AlnumsCollapse(rest);
        AlnumsSkip(s[1..]);
      }
    }
  }

  /**
   * The key keeps exactly the letters and digits of the name, lowered and in
   * order; a name with none gives "custom-workout".
   */
  lemma SlugKeepsAlnums(name: string)
    ensures Alnums(name) == [] ==> Slugify(name) == "custom-workout"
    ensures Alnums(name) != [] ==> Alnums(Slugify(name)) == Lower(Alnums(name))
  {
    var collapsed := CollapseSeparators(Lower(Strip(name)));
    var s := TrimDashes(collapsed);
    assert Alnums(s) == Lower(Alnums(name)) by {
      AlnumsStrip(name);
      AlnumsLower(Strip(name));
      AlnumsCollapse(Lower(Strip(name)));
      AlnumsTrim(collapsed);
    }
    if s != [] {
      assert IsAlnum(s[0]) by {
        LowerNoUpper(Strip(name));
        CollapseSlugChars(Lower(Strip(name)));
        TrimIsSlug(collapsed);
      }
      assert Alnums(s) != [];
    }
  }

  /** Stripping white space keeps the letters and digits. */
  lemma AlnumsStrip(name: string)
    ensures Alnums(Strip(name)) == Alnums(name)
  {
    var l := StripLeft(name);
    var stripped := StripRight(l);
    AlnumsSlice(name, |name| - |l|, |name|);
    assert name[|name| - |l|..|name|] == l;
    AlnumsSlice(l, 0, |stripped|);
    assert l[0..|stripped|] == stripped;
  }

  /** Trimming dashes keeps the letters and digits. */
  lemma AlnumsTrim(s: string)
    ensures Alnums(TrimDashes(s)) == Alnums(s)
  {
    var i, j := TrimDashesBounds(s);
    AlnumsSlice(s, i, j);
  }

  /** A name given as a key is kept as it is. */
  lemma {:induction false} CollapseOfSlug(s: string)
    requires forall k :: 0 <= k < |s| ==> IsAlnum(s[k]) || s[k] == '-'
    requires NoDoubleDash(s)
    ensures CollapseSeparators(s) == s
  {
    if s != [] {
      assert NoDoubleDash(s[1..]) by {
        NoDoubleDashSlice(s, 1, |s|);
      }
      if IsAlnum(s[0]) {
        CollapseOfSlug(s[1..]);
        assert s == [s[0]] + s[1..];
      } else {
        assert SkipSeparators(s[1..]) == s[1..];
        CollapseOfSlug(s[1..]);
        assert s == "-" + s[1..];
      }
    }
  }

  /** A key is its own key. */
  lemma SlugifyOfSlug(s: string)
    requires IsSlug(s)
    ensures Slugify(s) == s
  {
    StripUnchanged(s);
    assert Lower(s) == s;
    CollapseOfSlug(s);
    assert TrimLeftDashes(s) == s;
    assert TrimRightDashes(s) == s;
  }

  /** `_slugify` is idempotent. */
  lemma SlugifyIdempotent(name: string)
    ensures Slugify(Slugify(name)) == Slugify(name)
  {
    SlugifyOfSlug(Slugify(name));
  }
}
