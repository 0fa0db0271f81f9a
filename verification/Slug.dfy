/** The slug a name suggests (apps/admin/src/lib/slug.ts). */
module Slug {
  import opened Text

  const MAX_SLUG_LENGTH := 60

  predicate Alphanumeric(c: char) {
    'a' <= c <= 'z' || '0' <= c <= '9'
  }

  predicate NotAlphanumeric(c: char) {
    !Alphanumeric(c)
  }

  predicate SlugChar(c: char) {
    Alphanumeric(c) || c == '-'
  }

  predicate CombiningMark(c: char) {
    '\U{0300}' <= c <= '\U{036f}'
  }

  /** `fold` is lower-casing followed by NFKD normalisation (UAX #15). */
  function SuggestSlug(name: string, fold: string -> string): string {
    var bare := RemoveEach(fold(name), CombiningMark);
    var dashed := ReplaceRuns(bare, NotAlphanumeric, '-');
    TrimRight(Slice(Trim(dashed, '-'), MAX_SLUG_LENGTH), '-')
  }

  // SLUG_PATTERN, read off the regular expression: a segment of alphanumerics, then any number of a
  // hyphen and a segment.

  predicate MatchesSlugPattern(s: string) {
    s != [] && Alphanumeric(s[0]) && MatchesRest(s[1..])
  }

  predicate MatchesRest(s: string) {
    s == [] || (Alphanumeric(s[0]) && MatchesRest(s[1..])) || (s[0] == '-' && MatchesSlugPattern(s[1..]))
  }

  ghost predicate WellFormed(s: string) {
    && Only(s, SlugChar) && NoDouble(s, '-')
    && (s != [] ==> s[0] != '-' && s[|s| - 1] != '-')
  }

  lemma {:induction false} RestIsWellFormed(s: string)
    ensures MatchesRest(s) <==>
      Only(s, SlugChar) && NoDouble(s, '-') && (s != [] ==> s[|s| - 1] != '-')
    decreases |s|
  {
    if s != [] {
      RestIsWellFormed(s[1..]);
      assert s == [s[0]] + s[1..];
      if s[0] == '-' && |s| > 1 {
        RestIsWellFormed(s[2..]);
        assert s[1..][1..] == s[2..];
      }
    }
  }

  /** Lower-case ASCII letters, digits and hyphens, the hyphens single and inside. */
  ghost predicate IsSlugText(s: string) {
    && (forall i :: 0 <= i < |s| ==> 'a' <= s[i] <= 'z' || '0' <= s[i] <= '9' || s[i] == '-')
    && (forall i :: 0 <= i < |s| - 1 ==> !(s[i] == '-' && s[i + 1] == '-'))
    && (s != [] ==> s[0] != '-' && s[|s| - 1] != '-')
  }

  lemma WellFormedIsSlugText(s: string)
    ensures WellFormed(s) <==> IsSlugText(s)
  {
  }

  lemma PatternIsWellFormed(s: string)
    ensures MatchesSlugPattern(s) <==> s != [] && WellFormed(s)
    ensures MatchesSlugPattern(s) <==> s != [] && IsSlugText(s)
  {
    WellFormedIsSlugText(s);
    if s != [] {
      RestIsWellFormed(s[1..]);
      assert s == [s[0]] + s[1..];
    }
  }

  /** Hyphenated and trimmed: well formed, only maybe too long. */
  lemma TrimmedIsWellFormed(bare: string)
    ensures WellFormed(Trim(ReplaceRuns(bare, NotAlphanumeric, '-'), '-'))
  {
    var dashed := ReplaceRuns(bare, NotAlphanumeric, '-');
    ReplaceRunsWithin(bare, NotAlphanumeric, '-', SlugChar);
    ReplaceRunsNoDouble(bare, NotAlphanumeric, '-');
    TrimKeeps(dashed, '-', SlugChar);
    TrimEnds(dashed, '-');
  }

  /** Whatever the name, the suggestion is empty or a slug of at most 60 characters. */
  lemma SuggestionIsASlug(name: string, fold: string -> string)
    ensures var slug := SuggestSlug(name, fold);
      |slug| <= MAX_SLUG_LENGTH && (slug == [] || MatchesSlugPattern(slug))
  {
    var bare := RemoveEach(fold(name), CombiningMark);
    TrimmedIsWellFormed(bare);
    PatternIsWellFormed(SuggestSlug(name, fold));
  }

  /** Folding leaves lower-case ASCII letters, digits and hyphens alone. */
  ghost predicate FoldsSlugsToThemselves(fold: string -> string) {
    forall s :: Only(s, SlugChar) ==> fold(s) == s
  }

  /** The names that suggest themselves are exactly the empty one and the slugs that fit. */
  lemma SuggestsItselfExactlyWhen(s: string, fold: string -> string)
    requires FoldsSlugsToThemselves(fold)
    ensures SuggestSlug(s, fold) == s <==> s == [] || (|s| <= MAX_SLUG_LENGTH && MatchesSlugPattern(s))
  {
    if SuggestSlug(s, fold) == s {
      SuggestionIsASlug(s, fold);
    } else if s == [] || (|s| <= MAX_SLUG_LENGTH && MatchesSlugPattern(s)) {
      PatternIsWellFormed(s);
      assert fold(s) == s;
      assert RemoveEach(s, CombiningMark) == s;
      ReplaceRunsSingles(s, NotAlphanumeric, '-');
      TrimEnds(s, '-');
    }
  }

  lemma SuggestingIsIdempotent(name: string, fold: string -> string)
    requires FoldsSlugsToThemselves(fold)
    ensures SuggestSlug(SuggestSlug(name, fold), fold) == SuggestSlug(name, fold)
  {
    SuggestionIsASlug(name, fold);
    SuggestsItselfExactlyWhen(SuggestSlug(name, fold), fold);
  }

  /** The letters and digits, in order. */
  function Letters(s: string): string {
    RemoveEach(s, NotAlphanumeric)
  }

  /**
   A suggestion spells the beginning of the folded name, all of it if it fits, and is empty only for a
   name with no letter or digit.
   */
  lemma SuggestionSpellsTheName(name: string, fold: string -> string)
    ensures var slug := SuggestSlug(name, fold);
      var dashed := Trim(ReplaceRuns(RemoveEach(fold(name), CombiningMark), NotAlphanumeric, '-'), '-');
      && Letters(slug) <= Letters(fold(name))
      && (|dashed| <= MAX_SLUG_LENGTH ==> Letters(slug) == Letters(fold(name)))
      && (slug == [] <==> Letters(fold(name)) == [])
  {
    var bare := RemoveEach(fold(name), CombiningMark);
    var dashed := ReplaceRuns(bare, NotAlphanumeric, '-');
    var trimmed := Trim(dashed, '-');
    var sliced := Slice(trimmed, MAX_SLUG_LENGTH);
    RemoveTwice(fold(name), CombiningMark, NotAlphanumeric);
    ReplaceRunsKeeps(bare, NotAlphanumeric, '-', NotAlphanumeric);
    TrimLeftKeeps(dashed, '-', NotAlphanumeric);
    TrimRightKeeps(TrimLeft(dashed, '-'), '-', NotAlphanumeric);
    SliceKeepsPrefix(trimmed, MAX_SLUG_LENGTH, NotAlphanumeric);
    TrimRightKeeps(sliced, '-', NotAlphanumeric);
    TrimmedIsWellFormed(bare);
    if trimmed != [] {
      assert Alphanumeric(trimmed[0]) && sliced[0] == trimmed[0];
      assert Letters(sliced)[0] == sliced[0];
    }
  }

  lemma MarksAreRemoved(before: string, mark: char, after: string)
    requires '\U{0300}' <= mark <= '\U{036f}'
    ensures RemoveEach(before + [mark] + after, CombiningMark) == RemoveEach(before + after, CombiningMark)
  {
    RemoveAppend(before, after, CombiningMark);
    RemoveAppend(before + [mark], after, CombiningMark);
    RemoveAppend(before, [mark], CombiningMark);
  }

  /** Accents do not show: with a combining mark (U+0300 to U+036F) or without it, the suggestion is the same. */
  lemma MarksDoNotShow(name: string, bare: string, fold: string -> string, before: string, mark: char, after: string)
    requires '\U{0300}' <= mark <= '\U{036f}'
    requires fold(name) == before + [mark] + after && fold(bare) == before + after
    ensures SuggestSlug(name, fold) == SuggestSlug(bare, fold)
  {
    MarksAreRemoved(before, mark, after);
  }
}
