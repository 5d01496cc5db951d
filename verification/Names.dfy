/**
 The names a configuration type is known by: kebab case in the descriptor, camel case as a
 Kubernetes kind, dashes removed in a resource path.
 */
module Names {
  import opened Text

  predicate IsLower(c: char) { 'a' <= c <= 'z' }

  predicate IsUpper(c: char) { 'A' <= c <= 'Z' }

  predicate IsDigit(c: char) { '0' <= c <= '9' }

  predicate IsAlphaNumeric(c: char) { IsLower(c) || IsUpper(c) || IsDigit(c) }

  /** The alphabet of a DNS label: [-a-z0-9]. */
  predicate IsLabelChar(c: char) { IsLower(c) || IsDigit(c) || c == '-' }

  function Upper(c: char): char {
    if IsLower(c) then (c as int - 32) as char else c
  }

  function Lower(c: char): char {
    if IsUpper(c) then (c as int + 32) as char else c
  }

  function ToLower(s: string): string {
    if s == "" then "" else [Lower(s[0])] + ToLower(s[1..])
  }

  /** strings.Title on ASCII: every letter that follows a separator, or starts the string. */
  function Title(s: string, afterSeparator: bool := true): string {
    if s == "" then ""
    else
      [if afterSeparator then Upper(s[0]) else s[0]]
      + Title(s[1..], !IsAlphaNumeric(s[0]) && s[0] != '_')
  }

  /** resourceName: "my-name" becomes "myname". */
  function ResourceName(s: string): (r: string)
    ensures '-' !in r && |r| <= |s|
  {
    if s == "" then "" else (if s[0] == '-' then "" else [s[0]]) + ResourceName(s[1..])
  }

  function Titles(words: seq<string>): string {
    if words == [] then "" else Title(words[0]) + Titles(words[1..])
  }

  /** kabobCaseToCamelCase: "my-name" becomes "MyName". */
  function KabobToCamel(s: string): string {
    Titles(Split(s, '-'))
  }

  /** The loop of kabobCaseToCamelCase, appending one titled word at a time. */
  method KabobCaseToCamelCase(s: string) returns (out: string)
    ensures out == KabobToCamel(s)
  {
    var words := Split(s, '-');
    out := "";
    for i := 0 to |words|
      invariant out + Titles(words[i..]) == Titles(words)
    {
      assert words[i..][1..] == words[i + 1..];
      out := out + Title(words[i]);
    }
  }

  /** The tail of camelCaseToKabobCase; first says whether s starts the whole string. */
  function CamelToKabob(s: string, first: bool := true): string {
    if s == "" then ""
    else
      KabobPiece(s[0], first) + CamelToKabob(s[1..], false)
  }

  /** What one byte contributes; a dash goes before a capital that is not first. */
  function KabobPiece(c: char, first: bool): string {
    if IsUpper(c) && !first then ['-', Lower(c)] else [Lower(c)]
  }

  /** The loop of camelCaseToKabobCase, writing bytes into a buffer. */
  method CamelCaseToKabobCase(s: string) returns (out: string)
    ensures out == CamelToKabob(s)
  {
    out := "";
    for i := 0 to |s|
      invariant out + CamelToKabob(s[i..], i == 0) == CamelToKabob(s)
    {
      ghost var before, rest := out, CamelToKabob(s[i + 1..], false);
      KabobStep(s[i], s[i + 1..], i == 0);
      assert [s[i]] + s[i + 1..] == s[i..];
      if 'A' <= s[i] <= 'Z' {
        if i > 0 {
          out := out + ['-'];
        }
        out := out + [(s[i] as int - 'A' as int + 'a' as int) as char];
      } else {
        out := out + [s[i]];
      }
      assert out == before + KabobPiece(s[i], i == 0);
      Regroup(before, KabobPiece(s[i], i == 0), rest);
    }
  }

  lemma Regroup(a: string, b: string, c: string)
    ensures (a + b) + c == a + (b + c)
  {
  }

  // ---- The alphabets, letter by letter -------------------------------------------------------

  const LOWER := "abcdefghijklmnopqrstuvwxyz"
  const UPPER := "ABCDEFGHIJKLMNOPQRSTUVWXYZ"
  const DIGITS := "0123456789"

  /** The characters of a DNS label, one by one. */
  const LABEL_ALPHABET := "abcdefghijklmnopqrstuvwxyz0123456789-"

  const ALPHANUMERIC := LOWER + UPPER + DIGITS

  /** Every character of the string occurs in the alphabet. */
  predicate Over(s: string, alphabet: string) {
    forall i | 0 <= i < |s| :: s[i] in alphabet
  }

  /** The character classes are exactly the listed characters. */
  lemma ClassesListed(c: char)
    ensures IsLower(c) <==> c in LOWER
    ensures IsUpper(c) <==> c in UPPER
    ensures IsDigit(c) <==> c in DIGITS
  {
    LowerListed(c);
    UpperListed(c);
    DigitsListed(c);
  }

  lemma LowerListed(c: char)
    ensures IsLower(c) <==> c in LOWER
  {
    if IsLower(c) {
      assert LOWER[c as int - 'a' as int] == c;
    }
  }

  lemma UpperListed(c: char)
    ensures IsUpper(c) <==> c in UPPER
  {
    if IsUpper(c) {
      assert UPPER[c as int - 'A' as int] == c;
    }
  }

  lemma DigitsListed(c: char)
    ensures IsDigit(c) <==> c in DIGITS
  {
    if IsDigit(c) {
      assert DIGITS[c as int - '0' as int] == c;
    }
  }

  lemma LabelAlphabetJoined(c: char)
    ensures c in LABEL_ALPHABET <==> c in LOWER || c in DIGITS || c == '-'
  {
    assert LABEL_ALPHABET == LOWER + DIGITS + ['-'];
  }

  /** Strings over the classes are strings over the listed alphabets. */
  lemma OverListed(s: string)
    ensures OverLabelChars(s) <==> Over(s, LABEL_ALPHABET)
    ensures OverAlphaNumeric(s) <==> Over(s, ALPHANUMERIC)
  {
    forall i | 0 <= i < |s|
      ensures IsLabelChar(s[i]) <==> s[i] in LABEL_ALPHABET
      ensures IsAlphaNumeric(s[i]) <==> s[i] in ALPHANUMERIC
    {
      ClassesListed(s[i]);
      LabelAlphabetJoined(s[i]);
    }
  }

  // ---- One pass over the characters --------------------------------------------------------

  predicate OverLabelChars(s: string) {
    forall i | 0 <= i < |s| :: IsLabelChar(s[i])
  }

  predicate OverAlphaNumeric(s: string) {
    forall i | 0 <= i < |s| :: IsAlphaNumeric(s[i])
  }

  /** Camel case in one pass: a dash disappears and raises the character after it. */
  function CamelScan(s: string, raise: bool): string {
    if s == "" then ""
    else if s[0] == '-' then CamelScan(s[1..], true)
    else [if raise then Upper(s[0]) else s[0]] + CamelScan(s[1..], false)
  }

  lemma {:induction false} TitleInside(w: string)
    requires OverLabelChars(w) && '-' !in w
    ensures Title(w, false) == w
  {
    if w != "" {
      TitleInside(w[1..]);
    }
  }

  /** The words of a string whose first word continues one already begun. */
  function TitlesAfter(words: seq<string>): string
    requires |words| > 0
  {
    words[0] + Titles(words[1..])
  }

  lemma TitlesOfWord(c: char, words: seq<string>)
    requires |words| > 0 && OverLabelChars([c] + words[0]) && '-' !in [c] + words[0]
    ensures Titles([[c] + words[0]] + words[1..]) == [Upper(c)] + TitlesAfter(words)
    ensures TitlesAfter([[c] + words[0]] + words[1..]) == [c] + TitlesAfter(words)
  {
    var w, rest := words[0], words[1..];
    assert ([c] + w)[0] == c && ([c] + w)[1..] == w;
    TitleInside(w);
    assert ([[c] + w] + rest)[1..] == rest;
    assert [Upper(c)] + w + Titles(rest) == [Upper(c)] + (w + Titles(rest));
    assert [c] + w + Titles(rest) == [c] + (w + Titles(rest));
  }

  lemma {:induction false} SplitKeepsAlphabet(s: string)
    requires OverLabelChars(s)
    ensures forall w | w in Split(s, '-') :: OverLabelChars(w) && '-' !in w
  {
    if s != "" {
      SplitKeepsAlphabet(s[1..]);
      var rest := Split(s[1..], '-');
      var words := Split(s, '-');
      forall w | w in words
        ensures OverLabelChars(w) && '-' !in w
      {
        assert rest[0] in rest;
        if s[0] == '-' {
          assert w == "" || w in rest;
        } else {
          assert w == [s[0]] + rest[0] || w in rest[1..];
        }
      }
    }
  }

  lemma {:induction false} TitlesScan(s: string)
    requires OverLabelChars(s)
    ensures CamelScan(s, true) == KabobToCamel(s)
    ensures CamelScan(s, false) == TitlesAfter(Split(s, '-'))
  {
    if s == "" {
      assert Titles([""]) == "";
    } else {
      var words, rest := Split(s, '-'), Split(s[1..], '-');
      TitlesScan(s[1..]);
      if s[0] == '-' {
        assert words == [""] + rest && words[1..] == rest;
      } else {
        SplitKeepsAlphabet(s);
        assert words == [[s[0]] + rest[0]] + rest[1..] && words[0] in words;
        TitlesOfWord(s[0], rest);
      }
    }
  }

  /** Camel case is one pass in which dashes disappear and raise the character after them. */
  lemma KabobToCamelScans(s: string)
    requires Over(s, LABEL_ALPHABET)
    ensures KabobToCamel(s) == CamelScan(s, true)
  {
    OverListed(s);
    TitlesScan(s);
  }

  /**
   The kind and the resource name of a type differ only in case, whatever runs of dashes and
   whatever words starting with a digit the type has.
   */
  lemma KindMatchesResource(s: string)
    requires Over(s, LABEL_ALPHABET)
    ensures ToLower(KabobToCamel(s)) == ResourceName(s)
  {
    OverListed(s);
    TitlesScan(s);
    ScanMatchesResource(s, true);
  }

  lemma {:induction false} ScanMatchesResource(s: string, raise: bool)
    requires OverLabelChars(s)
    ensures ToLower(CamelScan(s, raise)) == ResourceName(s)
  {
    if s != "" {
      ScanMatchesResource(s[1..], s[0] == '-');
      if s[0] != '-' {
        var c, rest := if raise then Upper(s[0]) else s[0], CamelScan(s[1..], false);
        assert ([c] + rest)[1..] == rest;
      }
    }
  }

  // ---- Round trips -------------------------------------------------------------------------

  /** Every dash is followed by a letter. */
  predicate DashesLead(s: string) {
    forall i | 0 <= i < |s| && s[i] == '-' :: i + 1 < |s| && IsLower(s[i + 1])
  }

  /** No leading dash, and a letter after every dash. */
  predicate IsKebab(s: string) {
    DashesLead(s) && (s == "" || s[0] != '-')
  }

  lemma KebabListed(s: string)
    ensures IsKebab(s) <==> forall i | 0 <= i < |s| && s[i] == '-' :: 0 < i < |s| - 1 && s[i + 1] in LOWER
  {
    forall i | 0 <= i < |s| ensures IsLower(s[i]) <==> s[i] in LOWER {
      LowerListed(s[i]);
    }
  }

  /**
   kebab, camel, kebab gives the string back exactly when no dash comes first and a letter
   follows every dash.
   */
  lemma KabobRoundTrip(s: string)
    requires Over(s, LABEL_ALPHABET)
    ensures CamelToKabob(KabobToCamel(s)) == s
       <==> forall i | 0 <= i < |s| && s[i] == '-' :: 0 < i < |s| - 1 && s[i + 1] in LOWER
  {
    OverListed(s);
    KebabListed(s);
    KebabReturns(s);
  }

  lemma KebabReturns(s: string)
    requires OverLabelChars(s)
    ensures CamelToKabob(KabobToCamel(s)) == s <==> IsKebab(s)
  {
    TitlesScan(s);
    var camel := CamelScan(s, true);
    ScanAlphabet(s, true);
    KabobImage(camel, true);
    if IsKebab(s) && s != "" {
      KabobOfScan(s[1..]);
    }
  }

  lemma {:induction false} ScanAlphabet(s: string, raise: bool)
    requires OverLabelChars(s)
    ensures OverAlphaNumeric(CamelScan(s, raise))
  {
    if s != "" {
      ScanAlphabet(s[1..], s[0] == '-');
    }
  }

  /** Whatever camelCaseToKabobCase produces has a letter after every dash. */
  lemma {:induction false} KabobImage(t: string, first: bool)
    requires OverAlphaNumeric(t)
    ensures var k := CamelToKabob(t, first);
            DashesLead(k) && (first ==> IsKebab(k)) && OverLabelChars(k)
  {
    if t != "" {
      KabobImage(t[1..], false);
    }
  }

  lemma {:induction false} KabobOfScan(s: string)
    requires OverLabelChars(s) && DashesLead(s)
    ensures CamelToKabob(CamelScan(s, false), false) == s
    decreases |s|
  {
    if s == "" {
    } else if s[0] == '-' {
      var tail := s[2..];
      assert IsLower(s[1]);
      KabobOfScan(tail);
      ScanRaised(s[1..]);
      KabobStep(Upper(s[1]), CamelScan(tail, false));
      assert s == ['-', s[1]] + tail;
    } else {
      KabobOfScan(s[1..]);
      KabobStep(s[0], CamelScan(s[1..], false));
    }
  }

  lemma ScanRaised(s: string)
    requires s != "" && s[0] != '-'
    ensures CamelScan(s, true) == [Upper(s[0])] + CamelScan(s[1..], false)
  {
  }

  lemma KabobStep(c: char, t: string, first: bool := false)
    ensures CamelToKabob([c] + t, first) == KabobPiece(c, first) + CamelToKabob(t, false)
  {
    assert ([c] + t)[1..] == t;
  }

  /** camel, kebab, camel gives the string back exactly when it does not start in lower case. */
  lemma CamelRoundTrip(t: string)
    requires Over(t, ALPHANUMERIC)
    ensures KabobToCamel(CamelToKabob(t)) == t <==> t == "" || t[0] !in LOWER
  {
    OverListed(t);
    if t != "" {
      ClassesListed(t[0]);
    }
    CamelReturns(t);
  }

  lemma CamelReturns(t: string)
    requires OverAlphaNumeric(t)
    ensures KabobToCamel(CamelToKabob(t)) == t <==> (t == "" || !IsLower(t[0]))
  {
    KabobImage(t, true);
    TitlesScan(CamelToKabob(t));
    ScanOfWholeKabob(t);
  }

  lemma ScanOfWholeKabob(t: string)
    requires OverAlphaNumeric(t)
    ensures CamelScan(CamelToKabob(t), true) == t <==> (t == "" || !IsLower(t[0]))
  {
    if t != "" {
      var c, tail := t[0], t[1..];
      assert t == [c] + tail;
      KabobStep(c, tail, true);
      var rest := CamelToKabob(tail, false);
      ScanOfKabob(tail);
      var k := [Lower(c)] + rest;
      assert k[1..] == rest;
      ScanRaised(k);
      assert CamelScan(k, true) == [Upper(Lower(c))] + tail;
      assert ([Upper(Lower(c))] + tail)[0] == Upper(Lower(c));
    }
  }

  lemma {:induction false} ScanOfKabob(t: string)
    requires OverAlphaNumeric(t)
    ensures CamelScan(CamelToKabob(t, false), false) == t
  {
    if t != "" {
      ScanOfKabob(t[1..]);
      var k := CamelToKabob(t, false);
      if IsUpper(t[0]) {
        assert k[1..] == [Lower(t[0])] + CamelToKabob(t[1..], false);
        assert k[1..][1..] == CamelToKabob(t[1..], false);
      } else {
        assert k[1..] == CamelToKabob(t[1..], false);
      }
    }
  }

  /** Different kebab-case types have different kinds. */
  lemma KindsDistinct(s: string, t: string)
    requires Over(s, LABEL_ALPHABET) && Over(t, LABEL_ALPHABET) && IsKebab(s) && IsKebab(t)
    requires KabobToCamel(s) == KabobToCamel(t)
    ensures s == t
  {
    KebabListed(s);
    KebabListed(t);
    KabobRoundTrip(s);
    KabobRoundTrip(t);
  }

  /** resourceName joins the pieces between the dashes, and keeps every other character in its place. */
  lemma {:induction false} ResourceNameJoins(s: string)
    ensures ResourceName(s) == Join(Split(s, '-'))
  {
    if s != "" {
      ResourceNameJoins(s[1..]);
      var rest := Split(s[1..], '-');
      if s[0] == '-' {
        assert ([""] + rest)[1..] == rest;
      } else {
        assert ([[s[0]] + rest[0]] + rest[1..])[1..] == rest[1..];
        assert [s[0]] + rest[0] + Join(rest[1..]) == [s[0]] + (rest[0] + Join(rest[1..]));
      }
    }
  }

  function Join(words: seq<string>): string {
    if words == [] then "" else words[0] + Join(words[1..])
  }

  /**
   Resource names, unlike kinds, collide: every name with a dash shares its resource name with
   the name that is left when its dashes are taken out.
   */
  lemma ResourceNamesCollide(s: string)
    requires '-' in s
    ensures ResourceName(s) != s && ResourceName(ResourceName(s)) == ResourceName(s)
  {
    ResourceNameFixed(ResourceName(s));
  }

  lemma {:induction false} ResourceNameFixed(s: string)
    requires '-' !in s
    ensures ResourceName(s) == s
  {
    if s != "" {
      ResourceNameFixed(s[1..]);
    }
  }
}
