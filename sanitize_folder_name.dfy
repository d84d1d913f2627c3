/** `sanitizeFolderName`: drop path-hazardous characters, then trim. */
module SanitizeFolderName {
  import opened Strings

  /** The characters of the class `[<>():"/\\|?*]`. */
  const Hazards: string := "<>():\"/\\|?*"

  predicate IsHazard(c: char) {
    c in Hazards
  }

  /** `name.replace(/[<>():"/\\|?*]/g, '')`. */
  function RemoveHazards(s: string): (r: string)
    ensures |r| <= |s|
    ensures forall i | 0 <= i < |r| :: !IsHazard(r[i]) && r[i] in s
    ensures (forall i | 0 <= i < |s| :: !IsHazard(s[i])) ==> r == s
  {
    if s == [] then ""
    else if IsHazard(s[0]) then RemoveHazards(s[1..])
    else [s[0]] + RemoveHazards(s[1..])
  }

  lemma TrimElements(s: string)
    ensures forall i | 0 <= i < |Trim(s)| :: Trim(s)[i] in s
  {
    var i, j := TrimSlice(s);
    forall k | 0 <= k < |Trim(s)| ensures Trim(s)[k] in s {
      assert Trim(s)[k] == s[i + k];
    }
  }

  function Sanitize(name: string): (r: string)
    ensures forall i | 0 <= i < |r| :: !IsHazard(r[i])
    ensures r == [] || (!IsJsWhitespace(r[0]) && !IsJsWhitespace(r[|r| - 1]))
  {
    TrimElements(RemoveHazards(name));
    Trim(RemoveHazards(name))
  }

  /** Sanitising twice is sanitising once. */
  lemma SanitizeIdempotent(name: string)
    ensures Sanitize(Sanitize(name)) == Sanitize(name)
  {
    TrimOfTrimmed(Sanitize(name));
  }

  /** A name that is already trimmed and free of hazards is returned unchanged. */
  lemma SanitizeClean(name: string)
    requires forall i | 0 <= i < |name| :: !IsHazard(name[i])
    requires name == [] || (!IsJsWhitespace(name[0]) && !IsJsWhitespace(name[|name| - 1]))
    ensures Sanitize(name) == name
  {
    TrimOfTrimmed(name);
  }

  /**
   * Exactly the hazards and the whitespace at both ends are removed: the
   * result is a slice of the hazard-free text with only whitespace outside it.
   */
  lemma SanitizeRemovesOnlyHazardsAndOuterSpace(name: string) returns (i: nat, j: nat)
    ensures i <= j <= |RemoveHazards(name)|
    ensures Sanitize(name) == RemoveHazards(name)[i..j]
    ensures forall k | 0 <= k < i :: IsJsWhitespace(RemoveHazards(name)[k])
    ensures forall k | j <= k < |RemoveHazards(name)| :: IsJsWhitespace(RemoveHazards(name)[k])
  {
    i, j := TrimSlice(RemoveHazards(name));
  }

  // ---------------------------------------------------------------------------
  // subsequences

  /** `a` can be obtained from `b` by deleting characters. */
  predicate IsSubsequence(a: string, b: string)
    decreases |b|
  {
    a == [] || (b != [] && ((a[0] == b[0] && IsSubsequence(a[1..], b[1..])) || IsSubsequence(a, b[1..])))
  }

  lemma {:induction false} SubsequenceDropFirst(a: string, b: string)
    requires a != [] && IsSubsequence(a, b)
    ensures IsSubsequence(a[1..], b)
    decreases |b|
  {
    if a[0] == b[0] && IsSubsequence(a[1..], b[1..]) {
    } else {
      SubsequenceDropFirst(a, b[1..]);
    }
  }

  lemma {:induction false} SubsequenceDrop(a: string, b: string, i: nat)
    requires i <= |a| && IsSubsequence(a, b)
    ensures IsSubsequence(a[i..], b)
    decreases i
  {
    if i > 0 {
      SubsequenceDrop(a, b, i - 1);
      SubsequenceDropFirst(a[i - 1..], b);
      assert a[i - 1..][1..] == a[i..];
    }
  }

  lemma {:induction false} SubsequenceTake(a: string, b: string, k: nat)
    requires k <= |a| && IsSubsequence(a, b)
    ensures IsSubsequence(a[..k], b)
    decreases |b|
  {
    if k > 0 {
      if a[0] == b[0] && IsSubsequence(a[1..], b[1..]) {
        SubsequenceTake(a[1..], b[1..], k - 1);
        assert a[..k][1..] == a[1..][..k - 1];
      } else {
        SubsequenceTake(a, b[1..], k);
      }
    }
  }

  lemma {:induction false} RemoveHazardsSubsequence(s: string)
    ensures IsSubsequence(RemoveHazards(s), s)
  {
    if s != [] {
      RemoveHazardsSubsequence(s[1..]);
      if !IsHazard(s[0]) {
        assert RemoveHazards(s)[1..] == RemoveHazards(s[1..]);
      }
    }
  }

  /** The sanitised name is a subsequence of the input: kept characters keep their order. */
  lemma SanitizeSubsequence(name: string)
    ensures IsSubsequence(Sanitize(name), name)
  {
    var r := RemoveHazards(name);
    var i, j := TrimSlice(r);
    RemoveHazardsSubsequence(name);
    SubsequenceDrop(r, name, i);
    SubsequenceTake(r[i..], name, j - i);
    assert r[i..][..j - i] == r[i..j];
  }
}
