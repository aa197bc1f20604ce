/** The fixed dictionary of résumé section titles and the three ways a
    line's normalised text can match it. */
module Keywords {
  import opened Text

  const HeaderPatterns: seq<string> := [
    "about me", "academic history", "achievements", "affiliations", "awards",
    "career objective", "certifications", "contact", "contact info", "core competencies",
    "courses", "education", "employment history", "experience", "hobbies", "interests",
    "languages", "licenses", "memberships", "objective", "professional associations",
    "professional experience", "professional summary", "projects", "publications",
    "qualifications", "references", "skills", "summary", "technical skills",
    "volunteer experience", "volunteering", "work experience"
  ]

  /** `s in HEADER_PATTERNS`. */
  predicate IsKeyword(s: string) { ListsExactly(HeaderPatterns, s) }

  /** `s in SPACELESS_HEADERS`: `s` is a keyword with its spaces removed. */
  predicate IsSpacelessKeyword(s: string) { ListsSpaceless(HeaderPatterns, s) }

  /** `any(h in s for h in HEADER_PATTERNS)`: some keyword occurs inside `s`. */
  predicate HasKeywordPart(s: string) { ListsPartOf(HeaderPatterns, s) }

  // The three tests scan the dictionary one entry at a time, which keeps the
  // 33 entries folded away until a proof asks for them.

  predicate ListsExactly(hs: seq<string>, s: string) {
    hs != [] && (hs[0] == s || ListsExactly(hs[1..], s))
  }

  predicate ListsSpaceless(hs: seq<string>, s: string) {
    hs != [] && (RemoveSpaces(hs[0]) == s || ListsSpaceless(hs[1..], s))
  }

  predicate ListsPartOf(hs: seq<string>, s: string) {
    hs != [] && (IsSubstring(hs[0], s) || ListsPartOf(hs[1..], s))
  }

  lemma {:induction false} ListsExactlyIn(hs: seq<string>, s: string)
    ensures ListsExactly(hs, s) <==> s in hs
  {
    if hs != [] {
      ListsExactlyIn(hs[1..], s);
      assert hs == [hs[0]] + hs[1..];
    }
  }

  lemma {:induction false} ListsSpacelessIn(hs: seq<string>, s: string)
    ensures ListsSpaceless(hs, s) <==> exists h :: h in hs && RemoveSpaces(h) == s
  {
    if hs != [] {
      ListsSpacelessIn(hs[1..], s);
      if exists h :: h in hs && RemoveSpaces(h) == s {
        var h :| h in hs && RemoveSpaces(h) == s;
        assert h == hs[0] || h in hs[1..];
      }
    }
  }

  lemma {:induction false} ListsPartOfIn(hs: seq<string>, s: string)
    ensures ListsPartOf(hs, s) <==> exists h :: h in hs && IsSubstring(h, s)
  {
    if hs != [] {
      ListsPartOfIn(hs[1..], s);
      assert hs == [hs[0]] + hs[1..];
    }
  }

  /** No keyword is longer than 25 characters ("professional associations"
      is the longest). */
  lemma KeywordLengths()
    ensures forall h :: h in HeaderPatterns ==> |h| <= 25
  {
  }

  /** An exact keyword is also a partial match of itself. */
  lemma KeywordIsPart(s: string)
    requires IsKeyword(s)
    ensures HasKeywordPart(s)
  {
    ListsExactlyIn(HeaderPatterns, s);
    ListsPartOfIn(HeaderPatterns, s);
    assert OccursAt(s, s, 0);
  }

  /** Text longer than every keyword matches none exactly, with or without spaces. */
  lemma LongTextIsNoKeyword(s: string)
    requires |s| > 25
    ensures !IsKeyword(s) && !IsSpacelessKeyword(s)
  {
    KeywordLengths();
    ListsExactlyIn(HeaderPatterns, s);
    ListsSpacelessIn(HeaderPatterns, s);
    forall h | h in HeaderPatterns ensures RemoveSpaces(h) != s {
      RemoveSpacesShorter(h);
    }
  }

  /** A long one-word cleaned text starting with "skills" matches a keyword
      only partially. */
  lemma SkillsOnlyPartly(c: string)
    requires |c| > 25 && c[..6] == "skills"
    requires forall i :: 0 <= i < |c| ==> IsLowerChar(c[i])
    ensures WordCount(c) <= 10
    ensures !IsKeyword(c) && !IsSpacelessKeyword(RemoveSpaces(c)) && HasKeywordPart(c)
  {
    WordCountNoSpace(c, false);
    LongWordIsNoKeyword(c);
    SkillsPart(c);
  }

  /** A long word without spaces is no keyword, with or without its spaces. */
  lemma LongWordIsNoKeyword(c: string)
    requires |c| > 25 && ' ' !in c
    ensures !IsKeyword(c) && !IsSpacelessKeyword(RemoveSpaces(c))
  {
    RemoveSpacesNone(c);
    LongTextIsNoKeyword(c);
  }

  /** Text that starts with "skills" matches that keyword partially. */
  lemma SkillsPart(s: string)
    requires |s| >= 6 && s[..6] == "skills"
    ensures HasKeywordPart(s)
  {
    ListsPartOfIn(HeaderPatterns, s);
    var h := HeaderPatterns[27];
    assert h == "skills";
    assert OccursAt(h, s, 0);
    assert h in HeaderPatterns && IsSubstring(h, s);
  }
}
