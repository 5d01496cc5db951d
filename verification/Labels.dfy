/**
 DNS labels (section 2.1 of RFC 1123, section 2.3.4 of RFC 1035): the regular expression the
 schema checks names against, what it means, and the resource names built from labels.
 */
module Labels {
  import opened Names
  import opened Text

  /** The regular expression constructs the label pattern uses. */
  datatype Regex =
    | AlphaNum                       // [a-z0-9]
    | AlphaNumDash                   // [-a-z0-9]
    | Then(first: Regex, second: Regex)
    | Optional(inner: Regex)
    | Many(inner: Regex)

  /** The language of a regular expression: the whole of s is matched. */
  predicate Matches(re: Regex, s: string)
    decreases re, |s|
  {
    match re
    case AlphaNum => |s| == 1 && (IsLower(s[0]) || IsDigit(s[0]))
    case AlphaNumDash => |s| == 1 && IsLabelChar(s[0])
    case Then(a, b) => exists k | 0 <= k <= |s| :: Matches(a, s[..k]) && Matches(b, s[k..])
    case Optional(a) => s == "" || Matches(a, s)
    case Many(a) => s == "" || exists k | 0 < k <= |s| :: Matches(a, s[..k]) && Matches(re, s[k..])
  }

  const MAX_LABEL_LENGTH := 63

  /** [a-z0-9]([-a-z0-9]*[a-z0-9])? */
  const LABEL_PATTERN := Then(AlphaNum, Optional(Then(Many(AlphaNumDash), AlphaNum)))

  /** isDNS1123Label: the length bound and the anchored pattern. */
  predicate IsDNS1123Label(value: string) {
    |value| <= MAX_LABEL_LENGTH && Matches(LABEL_PATTERN, value)
  }

  /** What the label test accepts: bounded, right alphabet, alphanumeric at both ends. */
  predicate IsLabel(s: string) {
    0 < |s| <= 63 && OverLabelChars(s) && s[0] != '-' && s[|s| - 1] != '-'
  }

  lemma {:induction false} ManyDashMatches(s: string)
    ensures Matches(Many(AlphaNumDash), s) <==> OverLabelChars(s)
    decreases |s|
  {
    if s != "" {
      ManyDashMatches(s[1..]);
      assert s[..1] == [s[0]];
      if OverLabelChars(s) {
        assert Matches(AlphaNumDash, s[..1]) && Matches(Many(AlphaNumDash), s[1..]);
      }
      if Matches(Many(AlphaNumDash), s) {
        var k :| 0 < k <= |s| && Matches(AlphaNumDash, s[..k]) && Matches(Many(AlphaNumDash), s[k..]);
        assert |s[..k]| == 1 && IsLabelChar(s[0]);
        forall i | 0 <= i < |s| ensures IsLabelChar(s[i]) {
          assert i > 0 ==> s[i] == s[1..][i - 1];
        }
      }
    }
  }

  /** The inside of a label from its second character on: [-a-z0-9]*[a-z0-9]. */
  predicate IsTail(s: string) {
    s != "" && OverLabelChars(s) && s[|s| - 1] != '-'
  }

  lemma MatchIsTail(s: string)
    requires Matches(Then(Many(AlphaNumDash), AlphaNum), s)
    ensures IsTail(s)
  {
    var k :| 0 <= k <= |s| && Matches(Many(AlphaNumDash), s[..k]) && Matches(AlphaNum, s[k..]);
    var front, back := s[..k], s[k..];
    ManyDashMatches(front);
    assert |back| == 1 && s[|s| - 1] == back[0];
    forall i | 0 <= i < |s| ensures IsLabelChar(s[i]) {
      if i < k {
        assert s[i] == front[i];
      } else {
        assert s[i] == back[0];
      }
    }
  }

  lemma TailMatches(s: string)
    requires IsTail(s)
    ensures Matches(Then(Many(AlphaNumDash), AlphaNum), s)
  {
    var k := |s| - 1;
    var front, back := s[..k], s[k..];
    ManyDashMatches(front);
    assert back == [s[k]];
    assert Matches(AlphaNum, back);
  }

  /** The regular expression with its length bound accepts exactly the labels. */
  lemma PatternIsLabel(s: string)
    ensures IsDNS1123Label(s) <==> IsLabel(s)
  {
    var tail := Then(Many(AlphaNumDash), AlphaNum);
    if Matches(LABEL_PATTERN, s) {
      var k :| 0 <= k <= |s| && Matches(AlphaNum, s[..k]) && Matches(Optional(tail), s[k..]);
      assert k == 1 && s[..1][0] == s[0];
      if s[1..] != "" {
        MatchIsTail(s[1..]);
      }
      forall i | 0 <= i < |s| ensures IsLabelChar(s[i]) {
        assert i > 0 ==> s[i] == s[1..][i - 1];
      }
    }
    if IsLabel(s) {
      assert s[..1] == [s[0]];
      if s[1..] != "" {
        TailMatches(s[1..]);
      }
      assert Matches(AlphaNum, s[..1]) && Matches(Optional(tail), s[1..]);
    }
  }

  /**
   The label test, character by character: at most 63 of them, at least one, all of them listed in
   the alphabet, and no dash at either end.
   */
  lemma LabelTestListed(s: string)
    ensures IsDNS1123Label(s)
       <==> 0 < |s| <= 63 && Over(s, "abcdefghijklmnopqrstuvwxyz0123456789-") && s[0] != '-' && s[|s| - 1] != '-'
  {
    PatternIsLabel(s);
    OverListed(s);
  }

  /** One pass over the string, stopping at the first wrong character, decides the label test. */
  method ScanLabel(value: string) returns (ok: bool)
    ensures ok <==> IsDNS1123Label(value)
    ensures ok <==> 0 < |value| <= 63 && Over(value, LABEL_ALPHABET) && value[0] != '-' && value[|value| - 1] != '-'
  {
    PatternIsLabel(value);
    OverListed(value);
    if |value| > MAX_LABEL_LENGTH {
      return false;
    }
    var last := '-';
    for i := 0 to |value|
      invariant OverLabelChars(value[..i])
      invariant if i == 0 then last == '-' else last == value[i - 1] && value[0] != '-'
    {
      if !IsLabelChar(value[i]) || (i == 0 && value[i] == '-') {
        return false;
      }
      last := value[i];
    }
    assert value[..|value|] == value;
    return last != '-';
  }

  /** Taking the dashes out of a label leaves a label. */
  lemma ResourceNameIsLabel(s: string)
    requires IsLabel(s)
    ensures IsLabel(ResourceName(s))
  {
    ResourceNameAlphabet(s);
    assert s == [s[0]] + s[1..];
  }

  lemma {:induction false} ResourceNameAlphabet(s: string)
    requires OverLabelChars(s)
    ensures OverLabelChars(ResourceName(s))
  {
    if s != "" {
      ResourceNameAlphabet(s[1..]);
    }
  }

  const ISTIO_API_GROUP := "config.istio.io"

  /** The name of a custom resource definition: the resource path, a dot and the API group. */
  function CrdName(plural: string): string {
    ResourceName(plural) + ['.'] + ISTIO_API_GROUP
  }

  /** For a plural that is a label, the CRD name is four labels between dots. */
  lemma CrdNameIsDotted(plural: string)
    requires IsDNS1123Label(plural)
    ensures Split(CrdName(plural), '.') == [ResourceName(plural), "config", "istio", "io"]
    ensures forall part | part in Split(CrdName(plural), '.') :: IsDNS1123Label(part)
  {
    PatternIsLabel(plural);
    ResourceNameIsLabel(plural);
    assert ISTIO_API_GROUP == "config" + ['.'] + ("istio" + ['.'] + "io");
    DottedLabels(ResourceName(plural), "config", "istio", "io");
  }

  /** Four labels joined by dots split into the same four labels. */
  lemma DottedLabels(a: string, b: string, c: string, d: string)
    requires IsLabel(a) && IsLabel(b) && IsLabel(c) && IsLabel(d)
    ensures Split(a + ['.'] + (b + ['.'] + (c + ['.'] + d)), '.') == [a, b, c, d]
    ensures forall part | part in [a, b, c, d] :: IsDNS1123Label(part)
  {
    LabelHasNoDot(a);
    LabelHasNoDot(b);
    LabelHasNoDot(c);
    LabelHasNoDot(d);
    SplitFirst(a, b + ['.'] + (c + ['.'] + d), '.');
    SplitFirst(b, c + ['.'] + d, '.');
    SplitFirst(c, d, '.');
    SplitFirst(d, "", '.');
    forall part | part in [a, b, c, d] ensures IsDNS1123Label(part) {
      PatternIsLabel(part);
    }
  }

  lemma LabelHasNoDot(s: string)
    requires OverLabelChars(s)
    ensures '.' !in s
  {
  }
}
