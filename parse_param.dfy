/**
 * `parseUrlParams(url, pattern)`: match the pathname of a URL against a
 * pattern such as `/web/lection/:linkId/show_lection` and bind the `:name`
 * segments. The URL parser (`new URL(url).pathname`) is a parameter; `None`
 * stands for `new URL` throwing.
 */
module ParseParam {
  import opened Wrappers
  import opened Records
  import opened Strings

  /** `segment.startsWith(':')` */
  predicate IsParam(segment: string) {
    StartsWith(segment, ":")
  }

  /** The names bound by a pattern's segments (`segment.slice(1)`). */
  function ParamNames(ps: seq<string>): set<string> {
    set i | 0 <= i < |ps| && IsParam(ps[i]) :: ps[i][1..]
  }

  /** One iteration of the matching loop. */
  function Step(acc: Option<Rec<string>>, patternSegment: string, urlSegment: string): Option<Rec<string>> {
    match acc
    case None => None
    case Some(params) =>
      if IsParam(patternSegment) then Some(Put(params, patternSegment[1..], urlSegment))
      else if patternSegment == urlSegment then Some(params)
      else None
  }

  /** The loop over equally many pattern and path segments; `None` once a static segment differs. */
  function Bind(ps: seq<string>, us: seq<string>): Option<Rec<string>>
    requires |ps| == |us|
  {
    if ps == [] then Some(Empty())
    else
      var n := |ps| - 1;
      Step(Bind(ps[..n], us[..n]), ps[n], us[n])
  }

  lemma BindStep(ps: seq<string>, us: seq<string>, i: nat)
    requires |ps| == |us| && i < |ps|
    ensures Bind(ps[..i + 1], us[..i + 1]) == Step(Bind(ps[..i], us[..i]), ps[i], us[i])
  {
    assert ps[..i + 1][..i] == ps[..i] && us[..i + 1][..i] == us[..i];
  }

  /** What `parseUrlParams` returns for a URL with pathname `path`. */
  function ParamsFor(path: Option<string>, pattern: string): Rec<string> {
    if path.None? then Empty()
    else
      var ps := Segments(pattern);
      var us := Segments(path.value);
      if |ps| != |us| then Empty() else Bind(ps, us).GetOr(Empty())
  }

  lemma {:induction false} BindPrefixFails(ps: seq<string>, us: seq<string>, i: nat)
    requires |ps| == |us| && i <= |ps|
    requires Bind(ps[..i], us[..i]).None?
    ensures Bind(ps, us).None?
    decreases |ps| - i
  {
    if i < |ps| {
      var k := i + 1;
      assert ps[..k][..i] == ps[..i] && us[..k][..i] == us[..i];
      BindPrefixFails(ps, us, k);
    } else {
      assert ps[..i] == ps && us[..i] == us;
    }
  }

  method ParseUrlParams(url: string, pattern: string, pathnameOf: string -> Option<string>)
    returns (params: Rec<string>)
    ensures params == ParamsFor(pathnameOf(url), pattern)
    ensures pathnameOf(url).None? ==> params == Empty()
    ensures pathnameOf(url).Some? && |Segments(pattern)| != |Segments(pathnameOf(url).value)| ==> params == Empty()
  {
    var path := pathnameOf(url);
    if path.None? {
      return Empty();
    }
    var patternSegments := Segments(pattern);
    var urlSegments := Segments(path.value);
    if |patternSegments| != |urlSegments| {
      return Empty();
    }
    params := Empty();
    var i := 0;
    while i < |patternSegments|
      invariant 0 <= i <= |patternSegments|
      invariant Bind(patternSegments[..i], urlSegments[..i]) == Some(params)
    {
      var patternSegment := patternSegments[i];
      var urlSegment := urlSegments[i];
      BindStep(patternSegments, urlSegments, i);
      if IsParam(patternSegment) {
        params := Put(params, patternSegment[1..], urlSegment);
      } else if patternSegment != urlSegment {
        BindPrefixFails(patternSegments, urlSegments, i + 1);
        return Empty();
      }
      i := i + 1;
    }
    assert patternSegments[..i] == patternSegments && urlSegments[..i] == urlSegments;
  }

  /** The match succeeds exactly when every static segment equals the path segment at its index. */
  lemma {:induction false} BindSucceedsIff(ps: seq<string>, us: seq<string>)
    requires |ps| == |us|
    ensures Bind(ps, us).Some? <==> forall i | 0 <= i < |ps| :: !IsParam(ps[i]) ==> ps[i] == us[i]
  {
    if ps != [] {
      var n := |ps| - 1;
      BindSucceedsIff(ps[..n], us[..n]);
      assert forall i | 0 <= i < n :: ps[..n][i] == ps[i] && us[..n][i] == us[i];
    }
  }

  /** On a match the bound names are exactly the pattern's parameter names, in a valid record. */
  lemma {:induction false} BindKeys(ps: seq<string>, us: seq<string>)
    requires |ps| == |us| && Bind(ps, us).Some?
    ensures Valid(Bind(ps, us).value)
    ensures Bind(ps, us).value.vals.Keys == ParamNames(ps)
  {
    if ps != [] {
      var n := |ps| - 1;
      BindKeys(ps[..n], us[..n]);
      assert forall i | 0 <= i < n :: ps[..n][i] == ps[i];
      if IsParam(ps[n]) {
        assert ParamNames(ps) == ParamNames(ps[..n]) + {ps[n][1..]};
      } else {
        assert ParamNames(ps) == ParamNames(ps[..n]);
      }
    }
  }

  /** A parameter name is bound to the path segment of its last occurrence in the pattern. */
  lemma {:induction false} BindLastOccurrence(ps: seq<string>, us: seq<string>, i: nat)
    requires |ps| == |us| && Bind(ps, us).Some?
    requires i < |ps| && IsParam(ps[i])
    requires forall j | i < j < |ps| :: !(IsParam(ps[j]) && ps[j][1..] == ps[i][1..])
    ensures ps[i][1..] in Bind(ps, us).value.vals
    ensures Bind(ps, us).value.vals[ps[i][1..]] == us[i]
  {
    var n := |ps| - 1;
    if i < n {
      assert ps[..n][i] == ps[i];
      forall j | i < j < n ensures !(IsParam(ps[..n][j]) && ps[..n][j][1..] == ps[..n][i][1..]) {
        assert ps[..n][j] == ps[j];
      }
      BindLastOccurrence(ps[..n], us[..n], i);
    }
  }

  /** The result is either empty or binds every parameter name of the pattern, and nothing else. */
  lemma ParamsEmptyOrComplete(path: Option<string>, pattern: string)
    ensures Valid(ParamsFor(path, pattern))
    ensures ParamsFor(path, pattern).vals.Keys == {}
         || ParamsFor(path, pattern).vals.Keys == ParamNames(Segments(pattern))
  {
    if path.Some? {
      var ps := Segments(pattern);
      var us := Segments(path.value);
      if |ps| == |us| && Bind(ps, us).Some? {
        BindKeys(ps, us);
      }
    }
  }

  /** Leading, trailing and doubled slashes in the path do not affect the result. */
  lemma ParamsIgnoreExtraSlashes(a: string, b: string, pattern: string)
    ensures ParamsFor(Some("/" + a), pattern) == ParamsFor(Some(a), pattern)
    ensures ParamsFor(Some(a + "/"), pattern) == ParamsFor(Some(a), pattern)
    ensures ParamsFor(Some(a + "//" + b), pattern) == ParamsFor(Some(a + "/" + b), pattern)
  {
    SegmentsLeadingSlash(a);
    SegmentsTrailingSlash(a);
    SegmentsDoubledSlash(a, b);
  }
}
