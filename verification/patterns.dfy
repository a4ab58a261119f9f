/** The two regular expressions the listing form declares: the website pattern
    `^(https?:\/\/)?(www\.)?[a-zA-Z0-9-]+(\.[a-zA-Z]{2,})+` and the contact number
    pattern `^\d{10,15}$`. Each is given as a predicate that computes the engine's
    verdict from greedy character runs, and the website pattern also as the language
    the expression denotes, with lemmas proving that the two agree. */
module Patterns {

  /** The character classes the two patterns use. */
  datatype CharClass =
    | Digit      // \d, the ASCII digits 0-9
    | Letter     // [a-zA-Z]
    | LabelChar  // [a-zA-Z0-9-]

  predicate IsDigit(c: char) { '0' <= c <= '9' }

  predicate IsLetter(c: char) { 'a' <= c <= 'z' || 'A' <= c <= 'Z' }

  predicate InClass(k: CharClass, c: char)
  {
    match k
    case Digit => IsDigit(c)
    case Letter => IsLetter(c)
    case LabelChar => IsLetter(c) || IsDigit(c) || c == '-'
  }

  predicate AllIn(s: string, k: CharClass)
  {
    forall i :: 0 <= i < |s| ==> InClass(k, s[i])
  }

  /** The number of characters a greedy `k+` or `k*` takes at the start of s:
      the longest prefix made only of characters of class k. */
  function Run(s: string, k: CharClass): (n: nat)
    ensures n <= |s|
    ensures forall i :: 0 <= i < n ==> InClass(k, s[i])
    ensures n < |s| ==> !InClass(k, s[n])
  {
    if s == [] || !InClass(k, s[0]) then 0 else 1 + Run(s[1..], k)
  }

  /** A greedy run stops exactly at the first character outside its class. */
  lemma RunStops(u: string, v: string, k: CharClass)
    requires AllIn(u, k) && (|v| > 0 ==> !InClass(k, v[0]))
    ensures Run(u + v, k) == |u|
  {
    assert forall i :: 0 <= i < |u| ==> (u + v)[i] == u[i];
    assert |v| > 0 ==> (u + v)[|u|] == v[0];
  }

  // ---------------------------------------------------------------------------
  // Contact number: ^\d{10,15}$
  // ---------------------------------------------------------------------------

  /** The engine takes as many digits as `\d{10,15}` allows (at most 15), needs at
      least 10 of them, and `$` then demands the end of the input. */
  predicate PhoneMatches(s: string)
  {
    var n := Run(s, Digit);
    var taken := if n < 15 then n else 15;
    10 <= taken && taken == |s|
  }

  /** The language of `^\d{10,15}$`: ten to fifteen ASCII digits and nothing else. */
  predicate PhoneShape(s: string)
  {
    10 <= |s| <= 15 && AllIn(s, Digit)
  }

  lemma PhoneMatchesExactly(s: string)
    ensures PhoneMatches(s) <==> PhoneShape(s)
  {
    var n := Run(s, Digit);
    if n < |s| { assert !InClass(Digit, s[n]); }
  }

  /** For a value made only of digits, the verdict depends on its length alone. */
  lemma PhoneDigitWindow(s: string)
    requires AllIn(s, Digit)
    ensures PhoneMatches(s) <==> 10 <= |s| <= 15
  {
    PhoneMatchesExactly(s);
  }

  /** One character that is not an ASCII digit is enough to reject the value. */
  lemma PhoneRejectsNonDigit(s: string, i: nat)
    requires i < |s| && !IsDigit(s[i])
    ensures !PhoneMatches(s)
  {
    PhoneMatchesExactly(s);
    assert !InClass(Digit, s[i]);
  }

  /** The two ends of the digit window are accepted. */
  lemma PhoneAcceptedExamples()
    ensures PhoneMatches("1234567890")
    ensures PhoneMatches("123456789012345")
  {
    assert AllIn("1234567890", Digit);
    PhoneDigitWindow("1234567890");
    assert AllIn("123456789012345", Digit);
    PhoneDigitWindow("123456789012345");
  }

  /** One digit too few, one too many, and a leading plus sign are rejected. */
  lemma PhoneRejectedExamples()
    ensures !PhoneMatches("123456789")
    ensures !PhoneMatches("1234567890123456")
    ensures !PhoneMatches("+1234567890")
  {
    assert AllIn("123456789", Digit);
    PhoneDigitWindow("123456789");
    assert AllIn("1234567890123456", Digit);
    PhoneDigitWindow("1234567890123456");
    PhoneRejectsNonDigit("+1234567890", 0);
  }

  // ---------------------------------------------------------------------------
  // Website: ^(https?:\/\/)?(www\.)?[a-zA-Z0-9-]+(\.[a-zA-Z]{2,})+
  // ---------------------------------------------------------------------------

  /** What `(https?:\/\/)?` can take, and what `(www\.)?` can take. */
  const Schemes: set<string> := {"", "http://", "https://"}
  const WwwPrefixes: set<string> := {"", "www."}

  /** `[a-zA-Z0-9-]+(\.[a-zA-Z]{2,})+` matches at the start of t, the end left open.
      The label run is the greedy one: a shorter run would be followed by a label
      character, never by the dot that must come next. One dot and two letters is
      the shortest way through `(\.[a-zA-Z]{2,})+`, and nothing after it is looked at. */
  predicate HostMatches(t: string)
  {
    var n := Run(t, LabelChar);
    1 <= n && n + 3 <= |t| && t[n] == '.' && IsLetter(t[n + 1]) && IsLetter(t[n + 2])
  }

  /** The optional groups took exactly p, and the rest of the pattern matches after it. */
  predicate MatchesAfter(s: string, p: string)
  {
    p <= s && HostMatches(s[|p|..])
  }

  /** What `value.match(pattern)` decides: for one of the six ways of taking the two
      optional groups, the rest of the pattern matches after them. */
  predicate WebsiteMatches(s: string)
  {
    exists a, b :: a in Schemes && b in WwwPrefixes && MatchesAfter(s, a + b)
  }

  /** t is matched in full by `(\.[a-zA-Z]{2,})+`: one or more groups, each a dot
      followed by two or more letters. */
  ghost predicate DotGroups(t: string)
    decreases |t|
  {
    |t| >= 3 && t[0] == '.' &&
    exists m :: 3 <= m <= |t| && AllIn(t[1..m], Letter) && (m == |t| || DotGroups(t[m..]))
  }

  /** w is matched in full by the website pattern, with a taken by the scheme group,
      b by the www group, w[|a + b|..j] by the label and w[j..] by the dot groups. */
  ghost predicate SplitsAs(w: string, a: string, b: string, j: int)
  {
    a in Schemes && b in WwwPrefixes && a + b <= w && |a + b| < j <= |w| &&
    AllIn(w[|a + b|..j], LabelChar) && DotGroups(w[j..])
  }

  ghost predicate InWebsiteLanguage(w: string)
  {
    exists a, b, j :: SplitsAs(w, a, b, j)
  }

  /** The pattern is anchored at the start only: a value passes when some prefix of it
      is in the language of the expression. */
  ghost predicate WebsiteRegex(s: string)
  {
    exists k :: 0 <= k <= |s| && InWebsiteLanguage(s[..k])
  }

  lemma MatchesAfterInLanguage(s: string, a: string, b: string)
    requires a in Schemes && b in WwwPrefixes && MatchesAfter(s, a + b)
    ensures WebsiteRegex(s)
  {
    var p := a + b;
    var t := s[|p|..];
    var n := Run(t, LabelChar);
    assert HostMatches(t);
    assert 1 <= n && n + 3 <= |t| && t[n] == '.' && IsLetter(t[n + 1]) && IsLetter(t[n + 2]);
    var j := |p| + n;
    var w := s[..j + 3];
    assert p <= w;
    var host := w[|p|..j];
    assert forall i :: 0 <= i < |host| ==> host[i] == t[i];
    assert AllIn(host, LabelChar);
    var groups := w[j..];
    assert |groups| == 3 && groups[0] == t[n] && groups[1] == t[n + 1] && groups[2] == t[n + 2];
    assert groups[0] == '.' && IsLetter(groups[1]) && IsLetter(groups[2]);
    assert AllIn(groups[1..3], Letter);
    assert DotGroups(groups);
    assert SplitsAs(w, a, b, j);
    assert InWebsiteLanguage(s[..j + 3]);
  }

  lemma LanguagePrefixMatches(s: string, k: nat, a: string, b: string, j: int)
    requires k <= |s| && SplitsAs(s[..k], a, b, j)
    ensures MatchesAfter(s, a + b)
  {
    var w := s[..k];
    var p := a + b;
    assert p <= s;
    var t := s[|p|..];
    var n := Run(t, LabelChar);
    var host := w[|p|..j];
    var groups := w[j..];
    var m :| 3 <= m <= |groups| && AllIn(groups[1..m], Letter) && (m == |groups| || DotGroups(groups[m..]));
    assert InClass(Letter, groups[1..m][0]) && InClass(Letter, groups[1..m][1]);
    assert groups[0] == t[j - |p|] && groups[1] == t[j - |p| + 1] && groups[2] == t[j - |p| + 2];
    forall i | 0 <= i < j - |p|
      ensures InClass(LabelChar, t[i])
    {
      assert t[i] == host[i];
    }
    assert !InClass(LabelChar, t[j - |p|]);
    assert n == j - |p|;
    assert HostMatches(t);
  }

  /** The computing matcher and the language of the expression agree on every value. */
  lemma WebsiteMatchesIsRegex(s: string)
    ensures WebsiteMatches(s) <==> WebsiteRegex(s)
  {
    if WebsiteMatches(s) {
      var a, b :| a in Schemes && b in WwwPrefixes && MatchesAfter(s, a + b);
      MatchesAfterInLanguage(s, a, b);
    }
    if WebsiteRegex(s) {
      var k :| 0 <= k <= |s| && InWebsiteLanguage(s[..k]);
      var a, b, j :| SplitsAs(s[..k], a, b, j);
      LanguagePrefixMatches(s, k, a, b, j);
    }
  }

  /** Nothing after the matched part is examined: whatever follows an accepted value,
      the longer value is accepted too. */
  lemma WebsiteSuffixKeepsMatch(s: string, tail: string)
    requires WebsiteMatches(s)
    ensures WebsiteMatches(s + tail)
  {
    WebsiteMatchesIsRegex(s);
    var k :| 0 <= k <= |s| && InWebsiteLanguage(s[..k]);
    assert (s + tail)[..k] == s[..k];
    WebsiteMatchesIsRegex(s + tail);
  }

  /** s has, at index i, a dot followed by two letters, with something before it. */
  predicate DotAndLettersAt(s: string, i: int)
  {
    1 <= i && i + 2 < |s| && s[i] == '.' && IsLetter(s[i + 1]) && IsLetter(s[i + 2])
  }

  lemma DotAndLettersAfter(s: string, p: string)
    requires MatchesAfter(s, p)
    ensures exists i :: DotAndLettersAt(s, i)
  {
    var t := s[|p|..];
    var n := Run(t, LabelChar);
    var i := |p| + n;
    assert |t| == |s| - |p|;
    assert t[n] == s[i] && t[n + 1] == s[i + 1] && t[n + 2] == s[i + 2];
    assert DotAndLettersAt(s, i);
  }

  /** Every accepted value holds, after a non-empty label, a dot followed by two letters. */
  lemma WebsiteNeedsDotAndLetters(s: string)
    ensures WebsiteMatches(s) ==> exists i :: DotAndLettersAt(s, i)
  {
    if WebsiteMatches(s) {
      var a, b :| a in Schemes && b in WwwPrefixes && MatchesAfter(s, a + b);
      DotAndLettersAfter(s, a + b);
    }
  }

  /** The shape the pattern accepts: an optional scheme, an optional `www.`, a non-empty
      label, a dot and two letters, followed by anything at all. */
  lemma WebsiteShapeAccepted(a: string, b: string, host: string, tld: string, tail: string)
    requires a in Schemes && b in WwwPrefixes
    requires |host| > 0 && AllIn(host, LabelChar)
    requires |tld| == 2 && AllIn(tld, Letter)
    ensures WebsiteMatches(a + b + host + "." + tld + tail)
  {
    var s := a + b + host + "." + tld + tail;
    var t := s[|a + b|..];
    assert t == host + ("." + tld + tail);
    RunStops(host, "." + tld + tail, LabelChar);
    assert t[|host|] == '.' && t[|host| + 1] == tld[0] && t[|host| + 2] == tld[1];
    assert InClass(Letter, tld[0]) && InClass(Letter, tld[1]);
    assert MatchesAfter(s, a + b);
  }

  lemma RunIs(s: string, n: nat, k: CharClass)
    requires n <= |s| && AllIn(s[..n], k) && (n < |s| ==> !InClass(k, s[n]))
    ensures Run(s, k) == n
  {
    assert forall i :: 0 <= i < n ==> s[..n][i] == s[i];
  }

  lemma WebsiteWithSchemeExample()
    ensures WebsiteMatches("https://example.com")
  {
    var s := "https://example.com";
    var t := s[8..];
    assert t[..7] == "example";
    assert AllIn("example", LabelChar);
    assert t[7] == '.' && t[8] == 'c' && t[9] == 'o';
    RunIs(t, 7, LabelChar);
    assert "https://" + "" <= s;
    assert MatchesAfter(s, "https://" + "");
  }

  lemma WebsiteBareExample()
    ensures WebsiteMatches("example.co")
  {
    var s := "example.co";
    assert s[..7] == "example";
    assert AllIn("example", LabelChar);
    assert s[7] == '.' && s[8] == 'c' && s[9] == 'o';
    RunIs(s, 7, LabelChar);
    assert s[0..] == s;
    assert MatchesAfter(s, "" + "");
  }

  lemma WebsiteWithWwwExample()
    ensures WebsiteMatches("www.example.io")
  {
    var s := "www.example.io";
    var t := s[4..];
    assert t[..7] == "example";
    assert AllIn("example", LabelChar);
    assert t[7] == '.' && t[8] == 'i' && t[9] == 'o';
    RunIs(t, 7, LabelChar);
    assert "" + "www." <= s;
    assert MatchesAfter(s, "" + "www.");
  }

  lemma WebsiteTrailingTextExample()
    ensures WebsiteMatches("example.co/x")
  {
    var s := "example.co/x";
    assert s[..7] == "example";
    assert AllIn("example", LabelChar);
    assert s[7] == '.' && s[8] == 'c' && s[9] == 'o';
    RunIs(s, 7, LabelChar);
    assert s[0..] == s;
    assert MatchesAfter(s, "" + "");
  }

  lemma WebsiteWithoutDotExample()
    ensures !WebsiteMatches("example")
  {
    WebsiteNeedsDotAndLetters("example");
    assert '.' !in "example";
  }
}
