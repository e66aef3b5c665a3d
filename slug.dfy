/**
 * The Generate-Slug rule of the course form: lower-case the title, turn
 * each space into `-`, then delete every character outside `[A-Za-z0-9_-]`
 * (the regular-expression class `[^\w-]`, where `\w` is ASCII-only).
 */
module Slug {

  /** ASCII lower-casing; every other character is left as it is. */
  function LowerChar(c: char): char
  {
    if 'A' <= c <= 'Z' then (c as int + 32) as char else c
  }

  /** `\w`: ASCII letters, digits and underscore. */
  predicate IsWordChar(c: char)
  {
    ('a' <= c <= 'z') || ('A' <= c <= 'Z') || ('0' <= c <= '9') || c == '_'
  }

  /** The characters the last step keeps. */
  predicate IsKept(c: char)
  {
    IsWordChar(c) || c == '-'
  }

  /** The slug alphabet: lower-case ASCII letters, digits, `_` and `-`. */
  predicate IsSlugChar(c: char)
  {
    ('a' <= c <= 'z') || ('0' <= c <= '9') || c == '_' || c == '-'
  }

  predicate IsSlugString(s: string)
  {
    forall i :: 0 <= i < |s| ==> IsSlugChar(s[i])
  }

  /** `toLowerCase()`, restricted to ASCII. */
  function ToLower(s: string): (r: string)
  {
    if s == [] then [] else [LowerChar(s[0])] + ToLower(s[1..])
  }

  /** `replace(/ /g, "-")`. */
  function ReplaceSpaces(s: string): (r: string)
  {
    if s == [] then [] else [if s[0] == ' ' then '-' else s[0]] + ReplaceSpaces(s[1..])
  }

  /** `replace(/[^\w-]+/g, "")`: deleting each run of other characters is deleting each such character. */
  function StripNonWord(s: string): (r: string)
  {
    if s == [] then [] else (if IsKept(s[0]) then [s[0]] else []) + StripNonWord(s[1..])
  }

  /** The slug the button writes for a title. */
  function Slugify(title: string): string
  {
    StripNonWord(ReplaceSpaces(ToLower(title)))
  }

  /** What one title character contributes to the slug: the single-character reference definition. */
  function SlugOfChar(c: char): string
  {
    if c == ' ' then "-"
    else if IsKept(LowerChar(c)) then [LowerChar(c)]
    else []
  }

  lemma {:induction false} ToLowerConcat(a: string, b: string)
    ensures ToLower(a + b) == ToLower(a) + ToLower(b)
  {
    if a != [] {
      assert (a + b)[0] == a[0] && (a + b)[1..] == a[1..] + b;
      ToLowerConcat(a[1..], b);
    } else {
      assert a + b == b;
    }
  }

  lemma {:induction false} ReplaceSpacesConcat(a: string, b: string)
    ensures ReplaceSpaces(a + b) == ReplaceSpaces(a) + ReplaceSpaces(b)
  {
    if a != [] {
      assert (a + b)[0] == a[0] && (a + b)[1..] == a[1..] + b;
      ReplaceSpacesConcat(a[1..], b);
    } else {
      assert a + b == b;
    }
  }

  lemma {:induction false} StripNonWordConcat(a: string, b: string)
    ensures StripNonWord(a + b) == StripNonWord(a) + StripNonWord(b)
  {
    if a != [] {
      assert (a + b)[0] == a[0] && (a + b)[1..] == a[1..] + b;
      StripNonWordConcat(a[1..], b);
    } else {
      assert a + b == b;
    }
  }

  /** The three passes act character by character, so the slug of a concatenation is the concatenation of the slugs: order is preserved. */
  lemma SlugifyConcat(a: string, b: string)
    ensures Slugify(a + b) == Slugify(a) + Slugify(b)
  {
    ToLowerConcat(a, b);
    ReplaceSpacesConcat(ToLower(a), ToLower(b));
    StripNonWordConcat(ReplaceSpaces(ToLower(a)), ReplaceSpaces(ToLower(b)));
  }

  /** A single character: a space becomes one `-`, a kept character its lower case, anything else nothing. */
  lemma SlugifyChar(c: char)
    ensures Slugify([c]) == SlugOfChar(c)
  {
    var l := LowerChar(c);
    assert [c][1..] == [] && ToLower([c]) == [l];
    var r := if l == ' ' then '-' else l;
    assert [l][1..] == [] && ReplaceSpaces([l]) == [r];
    assert [r][1..] == [] && StripNonWord([r]) == if IsKept(r) then [r] else [];
  }

  /** The three-pass chain equals the one-pass reference definition. */
  lemma {:induction false} SlugifyCharwise(t: string)
    ensures Slugify(t) == if t == [] then [] else SlugOfChar(t[0]) + Slugify(t[1..])
  {
    if t != [] {
      assert t == [t[0]] + t[1..];
      SlugifyConcat([t[0]], t[1..]);
      SlugifyChar(t[0]);
    }
  }

  /**
   * One title character between any two strings: a space becomes exactly one
   * `-`, a letter, digit, `_` or `-` survives lower-cased in place, and any
   * other character is deleted, not replaced.
   */
  lemma SlugifySplice(a: string, c: char, b: string)
    ensures Slugify(a + [c] + b) == Slugify(a) + SlugOfChar(c) + Slugify(b)
    ensures c == ' ' ==> Slugify(a + [c] + b) == Slugify(a) + "-" + Slugify(b)
    ensures IsKept(c) ==> Slugify(a + [c] + b) == Slugify(a) + [LowerChar(c)] + Slugify(b)
    ensures c != ' ' && !IsKept(c) ==> Slugify(a + [c] + b) == Slugify(a) + Slugify(b)
  {
    SlugifyConcat(a + [c], b);
    SlugifyConcat(a, [c]);
    SlugifyChar(c);
  }

  /** A run of n spaces becomes n hyphens: runs are not collapsed, and leading or trailing spaces give leading or trailing hyphens. */
  lemma {:induction false} SpacesBecomeHyphens(n: nat)
    ensures Slugify(seq(n, _ => ' ')) == seq(n, _ => '-')
  {
    if n > 0 {
      var spaces := seq(n, _ => ' ');
      assert spaces == [' '] + seq(n - 1, _ => ' ');
      SlugifyConcat([' '], seq(n - 1, _ => ' '));
      SlugifyChar(' ');
      SpacesBecomeHyphens(n - 1);
      assert seq(n, _ => '-') == "-" + seq(n - 1, _ => '-');
    } else {
      assert seq(n, _ => ' ') == [];
    }
  }

  /** The slug contains only `a-z`, `0-9`, `_` and `-`. */
  lemma {:induction false} SlugAlphabet(t: string)
    ensures IsSlugString(Slugify(t))
  {
    SlugifyCharwise(t);
    if t != [] {
      SlugAlphabet(t[1..]);
      var c := t[0];
      assert IsSlugString(SlugOfChar(c));
    }
  }

  /** A string already over the slug alphabet is its own slug. */
  lemma {:induction false} SlugFixesSlugStrings(s: string)
    requires IsSlugString(s)
    ensures Slugify(s) == s
  {
    SlugifyCharwise(s);
    if s != [] {
      assert IsSlugString(s[1..]) by {
        forall i | 0 <= i < |s[1..]| ensures IsSlugChar(s[1..][i]) {
          assert s[1..][i] == s[i + 1];
        }
      }
      SlugFixesSlugStrings(s[1..]);
      assert IsSlugChar(s[0]);
      assert SlugOfChar(s[0]) == [s[0]];
    }
  }

  /** Generating a slug from a slug changes nothing. */
  lemma SlugIdempotent(t: string)
    ensures Slugify(Slugify(t)) == Slugify(t)
  {
    SlugAlphabet(t);
    SlugFixesSlugStrings(Slugify(t));
  }

  /** Each title character gives at most one slug character. */
  lemma {:induction false} SlugNoLonger(t: string)
    ensures |Slugify(t)| <= |t|
  {
    SlugifyCharwise(t);
    if t != [] {
      SlugNoLonger(t[1..]);
    }
  }

  /** The slug is empty exactly when the title has no letter, digit, `_`, `-` or space. */
  lemma {:induction false} SlugEmptyIff(t: string)
    ensures Slugify(t) == [] <==> forall i :: 0 <= i < |t| ==> t[i] != ' ' && !IsKept(t[i])
  {
    SlugifyCharwise(t);
    if t != [] {
      SlugEmptyIff(t[1..]);
      forall i | 1 <= i < |t| ensures t[i] == t[1..][i - 1] { }
      assert SlugOfChar(t[0]) == [] <==> t[0] != ' ' && !IsKept(t[0]);
    }
  }
}
