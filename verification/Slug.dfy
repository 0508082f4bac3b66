/**
 Benchmark slugs (api/routes/benchmarks.py): derivation from a name, and the pattern a slug must
 match. Lower-casing the name is a parameter, as it goes beyond ASCII.
 */
module Slug {
  import opened Wrappers
  import opened Sequences

  predicate Alnum(c: char) {
    'a' <= c <= 'z' || '0' <= c <= '9'
  }

  /** The pattern, as an automaton: `open` means that a character of a group must come next. */
  predicate Groups(s: string, open: bool)
    decreases |s|
  {
    if s == "" then !open
    else if Alnum(s[0]) then Groups(s[1..], false)
    else s[0] == '-' && !open && Groups(s[1..], true)
  }

  predicate IsSlug(s: string) {
    Groups(s, true)
  }

  /** `_SLUG_RE.match`: its `$` also matches just before one final newline. */
  predicate Accepted(s: string) {
    IsSlug(s) || (s != "" && s[|s| - 1] == '\n' && IsSlug(s[..|s| - 1]))
  }

  /** The grammar without the automaton. */
  ghost predicate WellFormed(s: string) {
    && s != ""
    && (forall i :: 0 <= i < |s| ==> Alnum(s[i]) || s[i] == '-')
    && Alnum(s[0]) && Alnum(s[|s| - 1])
    && forall i :: 0 < i < |s| ==> Alnum(s[i - 1]) || Alnum(s[i])
  }

  lemma {:induction false} GroupsMeans(s: string, open: bool)
    ensures Groups(s, open) <==>
            && (s == "" ==> !open)
            && (forall i :: 0 <= i < |s| ==> Alnum(s[i]) || s[i] == '-')
            && (s != "" ==> Alnum(s[|s| - 1]) && (open ==> Alnum(s[0])))
            && (forall i :: 0 < i < |s| ==> Alnum(s[i - 1]) || Alnum(s[i]))
    decreases |s|
  {
    if s != "" {
      var rest := s[1..];
      GroupsMeans(rest, !Alnum(s[0]));
      assert forall i :: 0 <= i < |rest| ==> rest[i] == s[i + 1];
      assert forall i :: 0 < i < |s| ==> s[i] == rest[i - 1];
    }
  }

  lemma SlugMeans(s: string)
    ensures IsSlug(s) <==> WellFormed(s)
  {
    GroupsMeans(s, true);
  }

  /** `re.sub("[^a-z0-9]+", "-", s)`: `run` means that the character before was replaced. */
  function Dashed(s: string, run: bool): string
    decreases |s|
  {
    if s == "" then ""
    else if Alnum(s[0]) then [s[0]] + Dashed(s[1..], false)
    else (if run then "" else "-") + Dashed(s[1..], true)
  }

  /** `s.strip("-")` */
  function Trimmed(s: string): string
    decreases |s|
  {
    if s == "" then ""
    else if s[0] == '-' then Trimmed(s[1..])
    else if s[|s| - 1] == '-' then Trimmed(s[..|s| - 1])
    else s
  }

  function Fallback(s: string): string {
    if s == "" then "definition" else s
  }

  /** `_derive_slug` */
  function DeriveSlug(lower: string -> string, name: string): string {
    Fallback(Trimmed(Dashed(lower(name), false)))
  }

  /** Letters, digits and single dashes; after a replaced character none comes first. */
  ghost predicate SingleDashes(s: string, run: bool) {
    && (forall i :: 0 <= i < |s| ==> Alnum(s[i]) || s[i] == '-')
    && (forall i :: 0 < i < |s| ==> Alnum(s[i - 1]) || Alnum(s[i]))
    && (run && s != "" ==> Alnum(s[0]))
  }

  lemma {:induction false} DashedSingles(s: string, run: bool)
    ensures SingleDashes(Dashed(s, run), run)
    decreases |s|
  {
    if s != "" {
      DashedSingles(s[1..], !Alnum(s[0]));
    }
  }

  lemma {:induction false} TrimmedSlug(s: string)
    requires SingleDashes(s, false)
    ensures Trimmed(s) == "" || IsSlug(Trimmed(s))
    decreases |s|
  {
    if s == "" {
    } else if s[0] == '-' {
      TrimmedSlug(s[1..]);
    } else if s[|s| - 1] == '-' {
      TrimmedSlug(s[..|s| - 1]);
    } else {
      SlugMeans(s);
    }
  }

  /** For every name and every lower-casing, the derived slug is in the grammar. */
  lemma DerivedIsSlug(lower: string -> string, name: string)
    ensures IsSlug(DeriveSlug(lower, name)) && Accepted(DeriveSlug(lower, name))
  {
    DashedSingles(lower(name), false);
    TrimmedSlug(Dashed(lower(name), false));
    FallbackIsSlug();
  }

  lemma FallbackIsSlug()
    ensures IsSlug("definition")
  {
    var s := "definition";
    assert WellFormed(s);
    SlugMeans(s);
  }

  lemma {:induction false} DashedFixed(s: string, run: bool)
    requires SingleDashes(s, run)
    ensures Dashed(s, run) == s
    decreases |s|
  {
    if s != "" {
      var rest := s[1..];
      assert forall i :: 0 <= i < |rest| ==> rest[i] == s[i + 1];
      assert rest != "" ==> s[1] == rest[0];
      DashedFixed(rest, !Alnum(s[0]));
      assert s == [s[0]] + rest;
    }
  }

  /** Derivation leaves slugs alone, and only slugs: its image is the grammar. */
  lemma DeriveFixesSlugs(lower: string -> string, s: string)
    requires lower(s) == s
    ensures DeriveSlug(lower, s) == s <==> IsSlug(s)
  {
    DerivedIsSlug(lower, s);
    if IsSlug(s) {
      SlugMeans(s);
      DashedFixed(s, false);
    }
  }

  /** Deriving twice is deriving once, whenever lower-casing leaves slugs alone. */
  lemma DeriveIdempotent(lower: string -> string, name: string)
    requires forall s :: IsSlug(s) ==> lower(s) == s
    ensures DeriveSlug(lower, DeriveSlug(lower, name)) == DeriveSlug(lower, name)
  {
    DerivedIsSlug(lower, name);
    DeriveFixesSlugs(lower, DeriveSlug(lower, name));
  }

  /** The letters and digits, in order. */
  function Letters(s: string): string {
    if s == "" then "" else (if Alnum(s[0]) then [s[0]] else "") + Letters(s[1..])
  }

  lemma {:induction false} LettersConcat(a: string, b: string)
    ensures Letters(a + b) == Letters(a) + Letters(b)
  {
    if a == "" {
      assert a + b == b;
    } else {
      assert (a + b)[1..] == a[1..] + b;
      LettersConcat(a[1..], b);
      ConcatAssoc(if Alnum(a[0]) then [a[0]] else "", Letters(a[1..]), Letters(b));
    }
  }

  lemma {:induction false} DashedLetters(s: string, run: bool)
    ensures Letters(Dashed(s, run)) == Letters(s)
    decreases |s|
  {
    if s != "" {
      DashedLetters(s[1..], !Alnum(s[0]));
      var rest := Dashed(s[1..], !Alnum(s[0]));
      var head := if Alnum(s[0]) then [s[0]] else if run then "" else "-";
      LettersConcat(head, rest);
    }
  }

  lemma {:induction false} TrimmedLetters(s: string)
    ensures Letters(Trimmed(s)) == Letters(s)
    decreases |s|
  {
    if s == "" {
    } else if s[0] == '-' {
      TrimmedLetters(s[1..]);
    } else if s[|s| - 1] == '-' {
      var front := s[..|s| - 1];
      TrimmedLetters(front);
      assert s == front + "-";
      LettersConcat(front, "-");
    }
  }

  lemma {:induction false} NoLetters(s: string)
    requires IsSlug(s)
    ensures Letters(s) != ""
  {
  }

  lemma NoLettersInNothing()
    ensures Letters("") == ""
  {
  }

  /** A derived slug has the letters and digits of the lower-cased name, in order; the fallback is
      taken exactly when there are none. */
  lemma DerivedKeepsLetters(lower: string -> string, name: string)
    ensures Letters(DeriveSlug(lower, name)) ==
              if Letters(lower(name)) == "" then "definition" else Letters(lower(name))
  {
    hide Dashed, Trimmed, Letters;
    NoLettersInNothing();
    var dashed := Dashed(lower(name), false);
    DashedLetters(lower(name), false);
    TrimmedLetters(dashed);
    DashedSingles(lower(name), false);
    TrimmedSlug(dashed);
    if Trimmed(dashed) != "" {
      NoLetters(Trimmed(dashed));
    } else {
      AllLetters("definition");
    }
  }

  lemma {:induction false} AllLetters(s: string)
    requires forall i :: 0 <= i < |s| ==> Alnum(s[i])
    ensures Letters(s) == s
  {
    if s != "" {
      AllLetters(s[1..]);
      assert s == [s[0]] + s[1..];
    }
  }

  datatype Before = NoLetter | ALetter | AGap

  /** For every letter but the first, whether it directly follows the one before it. */
  function Follows(s: string, before: Before): seq<bool> {
    if s == "" then []
    else if Alnum(s[0]) then (if before.NoLetter? then [] else [before.ALetter?]) + Follows(s[1..], ALetter)
    else Follows(s[1..], if before.ALetter? then AGap else before)
  }

  lemma {:induction false} DashedFollows(s: string, run: bool, before: Before)
    requires run ==> !before.ALetter?
    ensures Follows(Dashed(s, run), before) == Follows(s, before)
    decreases |s|
  {
    if s != "" {
      var letter := Alnum(s[0]);
      DashedFollows(s[1..], !letter, if letter then ALetter else if before.ALetter? then AGap else before);
      var rest := Dashed(s[1..], !letter);
      assert ([s[0]] + rest)[1..] == rest && ("-" + rest)[1..] == rest && "" + rest == rest;
    }
  }

  lemma {:induction false} FollowsDash(s: string, before: Before)
    ensures Follows(s + "-", before) == Follows(s, before)
    decreases |s|
  {
    if s == "" {
      assert ("" + "-")[1..] == "";
    } else {
      assert (s + "-")[1..] == s[1..] + "-";
      FollowsDash(s[1..], if Alnum(s[0]) then ALetter else if before.ALetter? then AGap else before);
    }
  }

  lemma {:induction false} TrimmedFollows(s: string)
    ensures Follows(Trimmed(s), NoLetter) == Follows(s, NoLetter)
    decreases |s|
  {
    if s == "" {
    } else if s[0] == '-' {
      TrimmedFollows(s[1..]);
    } else if s[|s| - 1] == '-' {
      var front := s[..|s| - 1];
      TrimmedFollows(front);
      assert s == front + "-";
      FollowsDash(front, NoLetter);
    }
  }

  /** Letters of a derived slug are neighbours exactly where they are in the lower-cased name. As the
      slug is in the grammar, any others have a single dash between them. */
  lemma DerivedKeepsGaps(lower: string -> string, name: string)
    requires Letters(lower(name)) != ""
    ensures Follows(DeriveSlug(lower, name), NoLetter) == Follows(lower(name), NoLetter)
  {
    DashedFollows(lower(name), false, NoLetter);
    TrimmedFollows(Dashed(lower(name), false));
    DashedLetters(lower(name), false);
    TrimmedLetters(Dashed(lower(name), false));
    NoLettersInNothing();
  }

  /** `create_definition`'s choice of slug; None is its 422. */
  function ChosenSlug(lower: string -> string, name: string, supplied: Option<string>): Option<string> {
    var slug := if supplied.Some? && supplied.value != "" then supplied.value else DeriveSlug(lower, name);
    if Accepted(slug) then Some(slug) else None
  }

  /** The 422 fires exactly for a supplied slug that is neither empty nor accepted. */
  lemma RefusedIffSupplied(lower: string -> string, name: string, supplied: Option<string>)
    ensures ChosenSlug(lower, name, supplied).None? <==>
            supplied.Some? && supplied.value != "" && !Accepted(supplied.value)
  {
    DerivedIsSlug(lower, name);
  }

  /** What gets through is a slug, except exactly a supplied slug with a newline after it. */
  lemma StoredSlugs(lower: string -> string, name: string, supplied: Option<string>)
    requires ChosenSlug(lower, name, supplied).Some?
    ensures ChosenSlug(lower, name, supplied).value ==
              if supplied.None? || supplied.value == "" then DeriveSlug(lower, name) else supplied.value
    ensures var slug := ChosenSlug(lower, name, supplied).value;
            !IsSlug(slug) <==> exists s :: IsSlug(s) && supplied == Some(s + "\n")
  {
    var slug := ChosenSlug(lower, name, supplied).value;
    DerivedIsSlug(lower, name);
    if !IsSlug(slug) {
      var s := slug[..|slug| - 1];
      assert slug == s + "\n";
      assert supplied == Some(s + "\n");
    }
    forall s | IsSlug(s) && supplied == Some(s + "\n") ensures !IsSlug(slug) {
      SlugMeans(slug);
      assert slug[|slug| - 1] == '\n';
    }
  }

  /** Such a slug does get through. */
  lemma NewlineGetsThrough(lower: string -> string, name: string)
    ensures var s := "definition\n"; ChosenSlug(lower, name, Some(s)) == Some(s) && !IsSlug(s)
  {
    FallbackIsSlug();
    var s := "definition\n";
    assert s[..|s| - 1] == "definition" && s[|s| - 1] == '\n';
    StoredSlugs(lower, name, Some(s));
    assert "definition" + "\n" == s;
  }
}
