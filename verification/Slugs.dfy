/** Slugs and the cache keys built from them (restaurantService: slug.js, projection.service.js). */
module Slugs {

  /** The characters of the \s class. */
  predicate IsSpace(c: char) {
    || c == ' ' || '\t' <= c <= '\r'
    || c as int in {0xA0, 0x1680, 0x2028, 0x2029, 0x202F, 0x205F, 0x3000, 0xFEFF}
    || 0x2000 <= c as int <= 0x200A
  }

  predicate IsSlugChar(c: char) {
    'a' <= c <= 'z' || '0' <= c <= '9' || c == '-'
  }

  function TrimLeft(s: string): string {
    if s != "" && IsSpace(s[0]) then TrimLeft(s[1..]) else s
  }

  function TrimRight(s: string): string {
    if s != "" && IsSpace(s[|s| - 1]) then TrimRight(s[..|s| - 1]) else s
  }

  /** replace(/[^a-z0-9\s-]/g, '') */
  function KeepAllowed(s: string): string {
    if s == "" then ""
    else (if IsSlugChar(s[0]) || IsSpace(s[0]) then [s[0]] else "") + KeepAllowed(s[1..])
  }

  /** Every run of characters in p becomes one dash. */
  function DashRuns(p: char -> bool, s: string): string {
    if s == "" then ""
    else if !p(s[0]) then [s[0]] + DashRuns(p, s[1..])
    else if |s| > 1 && p(s[1]) then DashRuns(p, s[1..])
    else "-" + DashRuns(p, s[1..])
  }

  predicate IsDash(c: char) { c == '-' }

  /** lower: toLowerCase. */
  function ToSlug(lower: string -> string, value: string): string {
    DashRuns(IsDash, DashRuns(IsSpace, KeepAllowed(TrimRight(TrimLeft(lower(value))))))
  }

  /** Lower-case letters, digits and single dashes. */
  predicate IsSlug(s: string) {
    && (forall i :: 0 <= i < |s| ==> IsSlugChar(s[i]))
    && (forall i :: 0 <= i < |s| - 1 ==> !(s[i] == '-' && s[i + 1] == '-'))
  }

  lemma {:induction false} KeptChars(s: string)
    ensures forall c :: c in KeepAllowed(s) ==> IsSlugChar(c) || IsSpace(c)
  {
    if s != "" {
      KeptChars(s[1..]);
    }
  }

  lemma {:induction false} DashedChars(p: char -> bool, s: string)
    ensures forall c :: c in DashRuns(p, s) ==> c == '-' || (c in s && !p(c))
  {
    if s != "" {
      DashedChars(p, s[1..]);
    }
  }

  lemma {:induction false} NoDoubleDash(s: string)
    ensures var r := DashRuns(IsDash, s);
      && (forall i :: 0 <= i < |r| - 1 ==> !(r[i] == '-' && r[i + 1] == '-'))
      && (r != "" && r[0] == '-' ==> s != "" && s[0] == '-')
  {
    if s != "" {
      NoDoubleDash(s[1..]);
      var r, rest := DashRuns(IsDash, s), DashRuns(IsDash, s[1..]);
      if r != rest {
        assert r == [r[0]] + rest;
      }
    }
  }

  /** Whatever is lower-cased how, the result is a slug. */
  lemma ToSlugIsSlug(lower: string -> string, value: string)
    ensures IsSlug(ToSlug(lower, value))
  {
    var kept := KeepAllowed(TrimRight(TrimLeft(lower(value))));
    var spaced := DashRuns(IsSpace, kept);
    KeptChars(TrimRight(TrimLeft(lower(value))));
    DashedChars(IsSpace, kept);
    DashedChars(IsDash, spaced);
    NoDoubleDash(spaced);
    var r := DashRuns(IsDash, spaced);
    forall i | 0 <= i < |r| ensures IsSlugChar(r[i]) {
      assert r[i] in r;
    }
  }

  lemma {:induction false} SlugKept(s: string)
    requires IsSlug(s)
    ensures KeepAllowed(s) == s && DashRuns(IsSpace, s) == s && DashRuns(IsDash, s) == s
  {
    if s != "" {
      assert IsSlug(s[1..]) by {
        assert forall i :: 0 <= i < |s| - 1 ==> s[1..][i] == s[i + 1];
      }
      SlugKept(s[1..]);
      assert IsSlugChar(s[0]) && !IsSpace(s[0]);
      if |s| > 1 {
        assert !(s[0] == '-' && s[0 + 1] == '-');
      }
    }
  }

  /** Slugs are the fixed points: a slug of a slug is itself. */
  lemma ToSlugIdempotent(lower: string -> string, s: string)
    requires lower(s) == s
    ensures ToSlug(lower, s) == s <==> IsSlug(s)
  {
    if IsSlug(s) {
      SlugKept(s);
      if s != "" {
        assert IsSlugChar(s[0]) && IsSlugChar(s[|s| - 1]);
      }
    } else {
      ToSlugIsSlug(lower, s);
    }
  }

  predicate IsLetter(c: char) {
    'a' <= c <= 'z' || '0' <= c <= '9'
  }

  /** The lower-case letters and digits of a text, in order. */
  function Letters(s: string): string {
    if s == "" then "" else (if IsLetter(s[0]) then [s[0]] else "") + Letters(s[1..])
  }

  lemma {:induction false} LettersJoin(a: string, b: string)
    ensures Letters(a + b) == Letters(a) + Letters(b)
  {
    if a == "" {
      assert a + b == b;
    } else {
      LettersJoin(a[1..], b);
      assert (a + b)[1..] == a[1..] + b && (a + b)[0] == a[0];
      var first := if IsLetter(a[0]) then [a[0]] else "";
      assert first + (Letters(a[1..]) + Letters(b)) == (first + Letters(a[1..])) + Letters(b);
    }
  }

  lemma {:induction false} TrimKeepsLetters(s: string)
    ensures Letters(TrimLeft(s)) == Letters(s)
    ensures Letters(TrimRight(s)) == Letters(s)
    decreases |s|
  {
    if s != "" {
      TrimKeepsLetters(s[1..]);
      var last := |s| - 1;
      TrimKeepsLetters(s[..last]);
      LettersJoin(s[..last], [s[last]]);
      assert s[..last] + [s[last]] == s;
    }
  }

  lemma {:induction false} AllowedKeepsLetters(s: string)
    ensures Letters(KeepAllowed(s)) == Letters(s)
  {
    if s != "" {
      AllowedKeepsLetters(s[1..]);
      LettersJoin(if IsSlugChar(s[0]) || IsSpace(s[0]) then [s[0]] else "", KeepAllowed(s[1..]));
    }
  }

  lemma {:induction false} DashesKeepLetters(p: char -> bool, s: string)
    requires forall c :: IsLetter(c) ==> !p(c)
    ensures Letters(DashRuns(p, s)) == Letters(s)
  {
    if s != "" {
      DashesKeepLetters(p, s[1..]);
      LettersJoin(if p(s[0]) then "-" else [s[0]], DashRuns(p, s[1..]));
    }
  }

  /** A slug has exactly the letters and digits of the lower-cased text, in their order. */
  lemma ToSlugKeepsLetters(lower: string -> string, value: string)
    ensures Letters(ToSlug(lower, value)) == Letters(lower(value))
  {
    var s := lower(value);
    TrimKeepsLetters(s);
    TrimKeepsLetters(TrimLeft(s));
    var kept := KeepAllowed(TrimRight(TrimLeft(s)));
    AllowedKeepsLetters(TrimRight(TrimLeft(s)));
    DashesKeepLetters(IsSpace, kept);
    DashesKeepLetters(IsDash, DashRuns(IsSpace, kept));
  }

  predicate AllSpace(s: string) {
    forall i :: 0 <= i < |s| ==> IsSpace(s[i])
  }

  lemma {:induction false} LeadingGap(gap: string, b: string)
    requires gap != "" && AllSpace(gap) && IsSlug(b) && b != ""
    ensures DashRuns(IsSpace, gap + b) == "-" + b
  {
    var s := gap + b;
    assert s[0] == gap[0] && s[1..] == gap[1..] + b;
    if |gap| > 1 {
      LeadingGap(gap[1..], b);
      assert s[1] == gap[1];
    } else {
      assert s[1..] == b && IsSlugChar(b[0]);
      SlugKept(b);
    }
  }

  lemma {:induction false} GapBecomesDash(a: string, rest: string, dashed: string)
    requires IsSlug(a) && DashRuns(IsSpace, rest) == dashed
    ensures DashRuns(IsSpace, a + rest) == a + dashed
  {
    if a == "" {
      assert a + rest == rest && a + dashed == dashed;
    } else {
      SlugTail(a);
      GapBecomesDash(a[1..], rest, dashed);
      assert (a + rest)[1..] == a[1..] + rest && (a + rest)[0] == a[0] && IsSlugChar(a[0]);
      assert [a[0]] + (a[1..] + dashed) == a + dashed;
    }
  }

  lemma SlugTail(a: string)
    requires IsSlug(a) && a != ""
    ensures IsSlug(a[1..])
  {
    assert forall i :: 0 <= i < |a| - 1 ==> a[1..][i] == a[i + 1];
  }

  lemma {:induction false} SlugAndSpaceAllowed(s: string)
    requires forall i :: 0 <= i < |s| ==> IsSlugChar(s[i]) || IsSpace(s[i])
    ensures KeepAllowed(s) == s
  {
    if s != "" {
      SlugAndSpaceAllowed(s[1..]);
    }
  }

  lemma {:induction false} NothingToTrim(a: string, gap: string, b: string)
    requires a != "" && b != "" && IsSlug(a) && IsSlug(b)
    ensures TrimRight(TrimLeft(a + gap + b)) == a + gap + b
  {
    var s := a + gap + b;
    assert s[0] == a[0] && IsSlugChar(a[0]);
    assert s[|s| - 1] == b[|b| - 1] && IsSlugChar(b[|b| - 1]);
  }

  lemma {:induction false} PhraseAllowed(a: string, gap: string, b: string)
    requires IsSlug(a) && IsSlug(b) && AllSpace(gap)
    ensures KeepAllowed(a + gap + b) == a + gap + b
  {
    SlugAndSpaceAllowed(a + gap + b);
  }

  /** Words kept apart by any white space are joined by one dash. */
  lemma WordsAreJoined(lower: string -> string, a: string, gap: string, b: string)
    requires a != "" && b != "" && gap != "" && AllSpace(gap)
    requires IsSlug(a) && IsSlug(b) && a[|a| - 1] != '-' && b[0] != '-' && lower(a + gap + b) == a + gap + b
    ensures ToSlug(lower, a + gap + b) == a + "-" + b
  {
    var s, joined := a + gap + b, a + "-" + b;
    NothingToTrim(a, gap, b);
    PhraseAllowed(a, gap, b);
    LeadingGap(gap, b);
    GapBecomesDash(a, gap + b, "-" + b);
    assert s == a + (gap + b) && joined == a + ("-" + b);
    JoinIsSlug(a, b);
    SlugKept(joined);
  }

  lemma JoinIsSlug(a: string, b: string)
    requires a != "" && b != "" && IsSlug(a) && IsSlug(b) && a[|a| - 1] != '-' && b[0] != '-'
    ensures IsSlug(a + "-" + b)
  {
    var s := a + "-" + b;
    forall i | 0 <= i < |s| ensures IsSlugChar(s[i]) {
      assert i < |a| ==> s[i] == a[i];
      assert i > |a| ==> s[i] == b[i - |a| - 1];
    }
    forall i | 0 <= i < |s| - 1 ensures !(s[i] == '-' && s[i + 1] == '-') {
      assert i + 1 < |a| ==> s[i] == a[i] && s[i + 1] == a[i + 1];
      assert i == |a| - 1 ==> s[i] == a[|a| - 1];
      assert i == |a| ==> s[i + 1] == b[0];
      assert i > |a| ==> s[i] == b[i - |a| - 1] && s[i + 1] == b[i - |a|];
    }
  }

  function CacheKey(citySlug: string, slug: string): string {
    "public_menu:" + citySlug + ":" + slug
  }

  /** A key built from two slugs is not built from any other pair of strings whatever. */
  lemma CacheKeyInjective(citySlug: string, slug: string, city: string, other: string)
    requires IsSlug(citySlug) && IsSlug(slug)
    ensures CacheKey(citySlug, slug) == CacheKey(city, other) <==> citySlug == city && slug == other
  {
    var key := CacheKey(citySlug, slug);
    if key == CacheKey(city, other) {
      var a := citySlug + ":" + slug;
      var b := city + ":" + other;
      assert CacheKey(citySlug, slug)[12..] == a && CacheKey(city, other)[12..] == b;
      assert a == b && b[|city|] == ':';
      assert forall i :: 0 <= i < |a| && i != |citySlug| ==>
        IsSlugChar(a[i]) by {
        forall i | 0 <= i < |a| && i != |citySlug| ensures IsSlugChar(a[i]) {
          if i < |citySlug| { assert a[i] == citySlug[i]; } else { assert a[i] == slug[i - |citySlug| - 1]; }
        }
      }
      assert |city| == |citySlug|;
      assert a[..|citySlug|] == citySlug && b[..|city|] == city;
      assert a[|citySlug| + 1..] == slug && b[|city| + 1..] == other;
    }
  }
}
