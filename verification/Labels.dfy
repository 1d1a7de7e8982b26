/** DNS-1035 labels and the names of build Jobs. */
module Labels {

  const MAX_LABEL_LENGTH := 63
  const BUILD_ID_LENGTH := 16
  const INFIX := "-build-"

  // ----- the grammar of section 2.3.1 of RFC 1035, lower case only -----

  predicate IsLetter(c: char) { 'a' <= c <= 'z' }

  predicate IsDigit(c: char) { '0' <= c <= '9' }

  predicate IsLetDig(c: char) { IsLetter(c) || IsDigit(c) }

  predicate IsLetDigHyp(c: char) { IsLetDig(c) || c == '-' }

  // <ldh-str> ::= <let-dig-hyp> | <let-dig-hyp> <ldh-str>
  predicate IsLdhStr(s: string) {
    s != [] && IsLetDigHyp(s[0]) && (|s| == 1 || IsLdhStr(s[1..]))
  }

  // <label> ::= <letter> [ [ <ldh-str> ] <let-dig> ]
  predicate IsLabel(s: string) {
    && s != []
    && IsLetter(s[0])
    && (|s| == 1 ||
        (IsLetDig(s[|s| - 1]) && (|s| == 2 || IsLdhStr(s[1..|s| - 1]))))
  }

  predicate IsValidLabel(s: string) {
    IsLabel(s) && |s| <= MAX_LABEL_LENGTH
  }

  lemma {:induction false} LdhStrIsPointwise(s: string)
    ensures IsLdhStr(s) <==> s != [] && forall i :: 0 <= i < |s| ==> IsLetDigHyp(s[i])
  {
    if |s| > 1 {
      LdhStrIsPointwise(s[1..]);
      assert forall i :: 1 <= i < |s| ==> s[i] == s[1..][i - 1];
    }
  }

  /** A label read character by character, by position. */
  lemma LabelIsPointwise(s: string)
    ensures IsLabel(s) <==>
            && s != []
            && IsLetter(s[0])
            && IsLetDig(s[|s| - 1])
            && forall i :: 0 <= i < |s| ==> IsLetDigHyp(s[i])
  {
    if |s| > 2 {
      var middle := s[1..|s| - 1];
      LdhStrIsPointwise(middle);
      assert forall i :: 1 <= i < |s| - 1 ==> s[i] == middle[i - 1];
    }
  }

  /** The validator's index loop decides exactly the grammar with the length bound. */
  method IsValidDNS1035Label(name: string) returns (valid: bool)
    ensures valid <==> IsValidLabel(name)
  {
    LabelIsPointwise(name);
    if |name| == 0 || |name| > 63 {
      return false;
    }
    for i := 0 to |name|
      invariant forall j :: 0 <= j < i ==> IsLetDigHyp(name[j])
      invariant i > 0 ==> IsLetter(name[0])
      invariant i == |name| ==> IsLetDig(name[|name| - 1])
    {
      var c := name[i];
      if 'a' <= c <= 'z' {
        continue;
      }
      if '0' <= c <= '9' {
        if i == 0 {
          return false;
        }
        continue;
      }
      if c == '-' {
        if i == 0 || i == |name| - 1 {
          return false;
        }
        continue;
      }
      return false;
    }
    return true;
  }

  // ----- build Job names -----

  predicate IsHexDigit(c: char) { IsDigit(c) || 'a' <= c <= 'f' }

  predicate IsBuildId(id: string) {
    |id| == BUILD_ID_LENGTH && forall i :: 0 <= i < |id| ==> IsHexDigit(id[i])
  }

  function JobName(deployment: string, buildId: string): string {
    var name := deployment + INFIX + buildId;
    if |name| > 63 then name[..63] else name
  }

  /** How many characters of the build ID survive the cut at 63. */
  function KeptIdLength(deployment: string): nat {
    if |deployment| <= 40 then 16 else if |deployment| <= 56 then 56 - |deployment| else 0
  }

  /** Two Job names of one deployment collide exactly when the surviving ID prefixes agree. */
  lemma JobNamesCollide(deployment: string, a: string, b: string)
    requires |deployment| <= MAX_LABEL_LENGTH && IsBuildId(a) && IsBuildId(b)
    ensures JobName(deployment, a) == JobName(deployment, b) <==>
            a[..KeptIdLength(deployment)] == b[..KeptIdLength(deployment)]
  {
    var k := KeptIdLength(deployment);
    var head := deployment + INFIX;
    if |deployment| <= 56 {
      assert JobName(deployment, a) == head + a[..k];
      assert JobName(deployment, b) == head + b[..k];
      assert (head + a[..k])[|head|..] == a[..k];
      assert (head + b[..k])[|head|..] == b[..k];
    } else {
      assert JobName(deployment, a) == head[..63] == JobName(deployment, b);
    }
  }

  /** Up to 40 characters the Job name determines the deployment and the build. */
  lemma JobNameInjective(d1: string, a: string, d2: string, b: string)
    requires |d1| <= 40 && |d2| <= 40 && IsBuildId(a) && IsBuildId(b)
    requires JobName(d1, a) == JobName(d2, b)
    ensures d1 == d2 && a == b
  {
    var n1, n2 := d1 + INFIX + a, d2 + INFIX + b;
    assert n1 == n2;
    assert |d1| == |d2|;
    assert d1 == n1[..|d1|];
    assert d2 == n2[..|d2|];
    assert a == n1[|d1| + 7..];
    assert b == n2[|d2| + 7..];
  }

  /** Past 40 characters the cut merges some builds: each ID has a partner with the same Job name. */
  lemma JobNameMergesBuilds(deployment: string, a: string) returns (b: string)
    requires 40 < |deployment| <= MAX_LABEL_LENGTH && IsBuildId(a)
    ensures IsBuildId(b) && a != b && JobName(deployment, a) == JobName(deployment, b)
  {
    b := a[15 := if a[15] == '0' then '1' else '0'];
    JobNamesCollide(deployment, a, b);
  }

  /**
   * A Job name built from a valid deployment name is itself a valid label except at two lengths:
   * at 62 the cut falls right after the first hyphen of "-build-", at 56 after the second.
   */
  lemma JobNameIsLabel(deployment: string, id: string)
    requires IsValidLabel(deployment) && IsBuildId(id)
    ensures IsValidLabel(JobName(deployment, id)) <==> |deployment| != 56 && |deployment| != 62
  {
    var full, name := deployment + INFIX + id, JobName(deployment, id);
    LabelIsPointwise(deployment);
    LabelIsPointwise(name);
    assert forall i :: 0 <= i < |name| ==> name[i] == full[i];
    assert forall i :: 0 <= i < |deployment| ==> full[i] == deployment[i];
    assert forall i :: 0 <= i < 7 ==> full[|deployment| + i] == INFIX[i];
    assert forall i :: 0 <= i < 16 ==> full[|deployment| + 7 + i] == id[i];
    assert forall i :: 0 <= i < 7 ==> IsLetDigHyp(INFIX[i]);
    forall i | 0 <= i < |name| ensures IsLetDigHyp(name[i]) {
      if i < |deployment| {
      } else if i < |deployment| + 7 {
        assert full[|deployment| + (i - |deployment|)] == INFIX[i - |deployment|];
      } else {
        assert full[|deployment| + 7 + (i - |deployment| - 7)] == id[i - |deployment| - 7];
      }
    }
    var last := |name| - 1;
    if |deployment| == 63 {
      assert name[last] == deployment[62];
    } else if 56 <= |deployment| {
      assert name[last] == full[|deployment| + (62 - |deployment|)] == INFIX[62 - |deployment|];
    } else {
      assert name[last] == full[|deployment| + 7 + (last - |deployment| - 7)] == id[last - |deployment| - 7];
    }
  }
}
