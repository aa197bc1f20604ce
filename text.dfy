/** Character- and string-level operations the classifier applies to extracted
    text: Python's `\w`/`\s` character classes, `str.lower`, `str.strip`,
    `str.isupper`, `str.split`, `str.replace(" ", "")` and the `in` substring
    test, all restricted to ASCII. */
module Text {

  /** `str.isspace()` / regex `\s` on ASCII: space, \t \n \v \f \r and the
      separators \x1c-\x1f. */
  predicate IsSpace(c: char) {
    c == ' ' || 9 <= c as int <= 13 || 28 <= c as int <= 31
  }

  predicate IsUpperChar(c: char) { 'A' <= c <= 'Z' }

  predicate IsLowerChar(c: char) { 'a' <= c <= 'z' }

  /** Regex `\w` on ASCII: letters, digits and underscore. */
  predicate IsWordChar(c: char) {
    IsUpperChar(c) || IsLowerChar(c) || '0' <= c <= '9' || c == '_'
  }

  function LowerChar(c: char): (d: char)
    ensures !IsUpperChar(d)
    ensures IsWordChar(d) <==> IsWordChar(c)
    ensures IsSpace(d) <==> IsSpace(c)
    ensures !IsUpperChar(c) ==> d == c
    ensures IsUpperChar(c) ==> IsLowerChar(d)
  {
    if IsUpperChar(c) then (c as int + 32) as char else c
  }

  /** `str.lower()`. */
  function Lower(s: string): (r: string)
    ensures |r| == |s|
    ensures forall i :: 0 <= i < |s| ==> r[i] == LowerChar(s[i])
  {
    seq(|s|, i requires 0 <= i < |s| => LowerChar(s[i]))
  }

  /** `re.sub(r'[^\w\s]', '', s)`: drops every character that is neither a word
      character nor whitespace. */
  function DropPunctuation(s: string): string {
    if s == [] then []
    else if IsWordChar(s[0]) || IsSpace(s[0]) then [s[0]] + DropPunctuation(s[1..])
    else DropPunctuation(s[1..])
  }

  function StripLeft(s: string): string {
    if s != [] && IsSpace(s[0]) then StripLeft(s[1..]) else s
  }

  function StripRight(s: string): string {
    if s != [] && IsSpace(s[|s| - 1]) then StripRight(s[..|s| - 1]) else s
  }

  /** `str.strip()`. */
  function Strip(s: string): string {
    StripRight(StripLeft(s))
  }

  /** No whitespace at either end. */
  predicate Trimmed(s: string) {
    s == [] || (!IsSpace(s[0]) && !IsSpace(s[|s| - 1]))
  }

  predicate AllSpace(s: string) {
    forall i :: 0 <= i < |s| ==> IsSpace(s[i])
  }

  /** `HeaderExtractor._clean_text`: punctuation removed, lowercased, stripped. */
  function Clean(s: string): string {
    Strip(Lower(DropPunctuation(s)))
  }

  /** `s.replace(" ", "")`: removes the space character only. */
  function RemoveSpaces(s: string): string {
    if s == [] then []
    else if s[0] == ' ' then RemoveSpaces(s[1..])
    else [s[0]] + RemoveSpaces(s[1..])
  }

  /** `len(s.split())`: the number of maximal runs of non-whitespace characters. */
  function WordCount(s: string): nat {
    WordCountAfter(s, false)
  }

  function WordCountAfter(s: string, inWord: bool): nat {
    if s == [] then 0
    else if IsSpace(s[0]) then WordCountAfter(s[1..], false)
    else (if inWord then 0 else 1) + WordCountAfter(s[1..], true)
  }

  /** Python's `p in s` on strings. */
  predicate IsSubstring(p: string, s: string) {
    exists i | 0 <= i <= |s| - |p| :: OccursAt(p, s, i)
  }

  predicate OccursAt(p: string, s: string, i: int) {
    0 <= i <= |s| - |p| && s[i..i + |p|] == p
  }

  /** `str.isupper()`: at least one cased character and none lower-case. */
  predicate IsUpperText(s: string) {
    (exists i | 0 <= i < |s| :: IsUpperChar(s[i])) &&
    (forall i | 0 <= i < |s| :: !IsLowerChar(s[i]))
  }

  // ---------------------------------------------------------------------
  // Properties of the operations above.

  lemma {:induction false} DropPunctuationShape(s: string)
    ensures forall c :: c in DropPunctuation(s) ==> IsWordChar(c) || IsSpace(c)
    ensures (forall c :: c in s ==> IsWordChar(c) || IsSpace(c)) ==> DropPunctuation(s) == s
  {
    if s != [] {
      DropPunctuationShape(s[1..]);
      assert s == [s[0]] + s[1..];
    }
  }

  /** Number of whitespace characters at the front of `s`. */
  function LeadingSpaces(s: string): (k: nat)
    ensures k <= |s|
  {
    if s != [] && IsSpace(s[0]) then 1 + LeadingSpaces(s[1..]) else 0
  }

  /** Number of whitespace characters at the end of `s`. */
  function TrailingSpaces(s: string): (k: nat)
    ensures k <= |s|
  {
    if s != [] && IsSpace(s[|s| - 1]) then 1 + TrailingSpaces(s[..|s| - 1]) else 0
  }

  lemma {:induction false} StripLeftShape(s: string)
    ensures StripLeft(s) == s[LeadingSpaces(s)..]
    ensures AllSpace(s[..LeadingSpaces(s)])
    ensures StripLeft(s) == [] || !IsSpace(StripLeft(s)[0])
  {
    if s != [] && IsSpace(s[0]) {
      StripLeftShape(s[1..]);
      assert s[..LeadingSpaces(s)] == [s[0]] + s[1..][..LeadingSpaces(s[1..])];
    }
  }

  lemma {:induction false} StripRightShape(s: string)
    ensures StripRight(s) == s[..|s| - TrailingSpaces(s)]
    ensures AllSpace(s[|s| - TrailingSpaces(s)..])
    ensures StripRight(s) == [] || !IsSpace(StripRight(s)[|StripRight(s)| - 1])
  {
    if s != [] && IsSpace(s[|s| - 1]) {
      var t := s[..|s| - 1];
      StripRightShape(t);
      var j := |t| - TrailingSpaces(t);
      assert j == |s| - TrailingSpaces(s);
      assert s[..j] == t[..j];
      forall i | j <= i < |s| ensures IsSpace(s[i]) {
        if i < |t| { assert t[j..][i - j] == s[i]; }
      }
    }
  }

  lemma {:induction false} StripLeftKeeps(s: string)
    requires s == [] || !IsSpace(s[0])
    ensures StripLeft(s) == s
  {
  }

  lemma {:induction false} StripRightKeeps(s: string)
    requires s == [] || !IsSpace(s[|s| - 1])
    ensures StripRight(s) == s
  {
  }

  /** The result of `strip` is a slice of its input, trimmed at both ends, and
      everything it removed is whitespace. */
  lemma StripShape(s: string)
    ensures Trimmed(Strip(s))
    ensures exists i, j ::
      (0 <= i <= j <= |s| && Strip(s) == s[i..j] && AllSpace(s[..i]) && AllSpace(s[j..]))
  {
    StripLeftShape(s);
    var i := LeadingSpaces(s);
    var t := s[i..];
    StripRightShape(t);
    var k := |t| - TrailingSpaces(t);
    assert Strip(s) == s[i..i + k];
    assert s[i + k..] == t[k..];
    if Strip(s) != [] {
      assert StripLeft(s) != [];
      assert Strip(s)[0] == StripLeft(s)[0];
    }
  }

  /** `strip` leaves a string that has no whitespace at its ends unchanged. */
  lemma StripTrimmed(s: string)
    requires Trimmed(s)
    ensures Strip(s) == s
  {
    StripLeftKeeps(s);
    StripRightKeeps(s);
  }

  /** `strip` yields the empty string exactly for all-whitespace input. */
  lemma {:induction false} StripEmpty(s: string)
    ensures Strip(s) == [] <==> AllSpace(s)
  {
    StripShape(s);
    var i, j :| 0 <= i <= j <= |s| && Strip(s) == s[i..j] && AllSpace(s[..i]) && AllSpace(s[j..]);
    if Strip(s) == [] {
      forall k | 0 <= k < |s| ensures IsSpace(s[k]) {
        if k < i { assert s[..i][k] == s[k]; } else { assert s[j..][k - j] == s[k]; }
      }
    } else {
      assert !IsSpace(s[i]);
    }
  }

  /** A character `_clean_text` can leave: a word character or whitespace,
      never upper-case. */
  predicate Plain(c: char) {
    (IsWordChar(c) || IsSpace(c)) && !IsUpperChar(c)
  }

  lemma LowerPlain(s: string)
    requires forall c :: c in s ==> IsWordChar(c) || IsSpace(c)
    ensures forall c :: c in Lower(s) ==> Plain(c)
  {
    forall c | c in Lower(s) ensures Plain(c) {
      var k :| 0 <= k < |s| && Lower(s)[k] == c;
      assert s[k] in s;
    }
  }

  /** Every character of the stripped text is a character of the input. */
  lemma StripChars(s: string)
    ensures forall c :: c in Strip(s) ==> c in s
  {
    StripShape(s);
    var i, j :| 0 <= i <= j <= |s| && Strip(s) == s[i..j] && AllSpace(s[..i]) && AllSpace(s[j..]);
    forall c | c in Strip(s) ensures c in s {
      var k :| 0 <= k < |Strip(s)| && Strip(s)[k] == c;
      assert c == s[i + k];
    }
  }

  /** The cleaned text has no punctuation, no upper-case letters and no
      whitespace at either end. */
  lemma CleanShape(s: string)
    ensures forall c :: c in Clean(s) ==> Plain(c)
    ensures Trimmed(Clean(s))
  {
    var l := Lower(DropPunctuation(s));
    assert forall c :: c in l ==> Plain(c) by {
      DropPunctuationShape(s);
      LowerPlain(DropPunctuation(s));
    }
    StripChars(l);
    StripShape(l);
  }

  /** `_clean_text` is idempotent. */
  lemma CleanIdempotent(s: string)
    ensures Clean(Clean(s)) == Clean(s)
  {
    var c := Clean(s);
    CleanShape(s);
    DropPunctuationShape(c);
    assert DropPunctuation(c) == c;
    assert Lower(c) == c by {
      forall i | 0 <= i < |c| ensures Lower(c)[i] == c[i] {
        assert c[i] in c;
      }
    }
    StripTrimmed(c);
  }

  lemma {:induction false} RemoveSpacesShorter(s: string)
    ensures |RemoveSpaces(s)| <= |s|
    ensures ' ' !in RemoveSpaces(s)
  {
    if s != [] { RemoveSpacesShorter(s[1..]); }
  }

  /** Removing spaces from text that has none changes nothing. */
  lemma {:induction false} RemoveSpacesNone(s: string)
    requires ' ' !in s
    ensures RemoveSpaces(s) == s
  {
    if s != [] {
      RemoveSpacesNone(s[1..]);
      assert s == [s[0]] + s[1..];
    }
  }

  /** Text without whitespace is at most one word. */
  lemma {:induction false} WordCountNoSpace(s: string, inWord: bool)
    requires forall i :: 0 <= i < |s| ==> !IsSpace(s[i])
    ensures WordCountAfter(s, inWord) == if s == [] || inWord then 0 else 1
  {
    if s != [] {
      WordCountNoSpace(s[1..], true);
    }
  }
}
