/** The request middleware (middleware.ts): a path under one of the five
    city sections whose second segment is not a two-letter state code and
    that has exactly two segments is an old city-only URL, and is rewritten
    to the section's `legacy` route; everything else passes through. */
module Middleware {
  import opened Common

  /** `/^[a-z]{2}$/i.test(value)` */
  predicate IsTwoLetterState(value: string) {
    |value| == 2 && IsAsciiLetter(value[0]) && IsAsciiLetter(value[1])
  }

  const Sections: set<string> := {"fuel-price", "petrol-price", "diesel-price", "fuel-history", "cost-to-travel"}

  /** Length of the leading run of characters other than '/'. */
  function SegmentRun(s: string): (n: nat)
    ensures n <= |s|
    ensures forall i :: 0 <= i < n ==> s[i] != '/'
    ensures n < |s| ==> s[n] == '/'
  {
    if s == [] || s[0] == '/' then 0 else 1 + SegmentRun(s[1..])
  }

  /** `pathname.split("/").filter(Boolean)`: the non-empty pieces between
      slashes, in order. */
  function Segments(path: string): (parts: seq<string>)
    ensures forall i :: 0 <= i < |parts| ==> parts[i] != [] && '/' !in parts[i]
    decreases |path|
  {
    if path == [] then []
    else if path[0] == '/' then Segments(path[1..])
    else
      var n := SegmentRun(path);
      assert forall i :: 0 <= i < n ==> path[..n][i] != '/';
      [path[..n]] + Segments(path[n..])
  }

  /** What the middleware does with a request. */
  datatype Decision = Next | Rewrite(pathname: string)

  /** The rewrite target of an old city-only URL. */
  function LegacyPath(section: string, city: string): string {
    "/" + section + "/legacy/" + city
  }

  /** middleware, on the request's path: only a two-segment path under a
      section whose second segment is not a state code is rewritten, to the
      section's legacy route for that segment. */
  function Route(pathname: string): (d: Decision)
    ensures |Segments(pathname)| < 2 ==> d == Next
    ensures |Segments(pathname)| >= 2 && Segments(pathname)[0] !in Sections ==> d == Next
    ensures d.Rewrite? <==>
              |Segments(pathname)| == 2 && Segments(pathname)[0] in Sections && !IsTwoLetterState(Segments(pathname)[1])
    ensures d.Rewrite? ==> d.pathname == LegacyPath(Segments(pathname)[0], Segments(pathname)[1])
  {
    var parts := Segments(pathname);
    if |parts| < 2 then Next
    else if parts[0] !in Sections then Next
    else if |parts| == 2 && IsTwoLetterState(parts[1]) then Next
    else if |parts| >= 3 && IsTwoLetterState(parts[1]) then Next
    else if |parts| == 2 then Rewrite(LegacyPath(parts[0], parts[1]))
    else Next
  }

  lemma {:induction false} SegmentRunOf(a: string, rest: string)
    requires '/' !in a
    requires rest == [] || rest[0] == '/'
    ensures SegmentRun(a + rest) == |a|
  {
    if a != [] {
      assert (a + rest)[1..] == a[1..] + rest;
      SegmentRunOf(a[1..], rest);
    } else {
      assert a + rest == rest;
    }
  }

  /** A slash, then a segment, then the rest of the path. */
  lemma SegmentsOfSlash(a: string, rest: string)
    requires a != [] && '/' !in a
    requires rest == [] || rest[0] == '/'
    ensures Segments("/" + a + rest) == [a] + Segments(rest)
  {
    var p := "/" + a + rest;
    assert p[1..] == a + rest;
    SegmentRunOf(a, rest);
    assert (a + rest)[..|a|] == a && (a + rest)[|a|..] == rest;
  }

  /** "/a/b/c" has the segments a, b and c. */
  lemma ThreeSegments(a: string, b: string, c: string)
    requires a != [] && '/' !in a && b != [] && '/' !in b && c != [] && '/' !in c
    ensures Segments("/" + a + "/" + b + "/" + c) == [a, b, c]
  {
    var s3 := "/" + c;
    SegmentsOfSlash(c, []);
    assert s3 + [] == s3;
    assert Segments([]) == [];
    var s2 := "/" + b + s3;
    SegmentsOfSlash(b, s3);
    var s1 := "/" + a + s2;
    SegmentsOfSlash(a, s2);
    assert "/" + a + "/" + b + "/" + c == s1;
  }

  lemma LegacyPathSegments(section: string, city: string)
    ensures LegacyPath(section, city) == "/" + section + "/" + "legacy" + "/" + city
  {
  }

  /** A rewritten path passes through when the middleware sees it again:
      it has three segments and "legacy" is not a state code. */
  lemma RewriteStable(pathname: string)
    requires Route(pathname).Rewrite?
    ensures Route(Route(pathname).pathname) == Next
  {
    var parts := Segments(pathname);
    LegacyPathSegments(parts[0], parts[1]);
    ThreeSegments(parts[0], "legacy", parts[1]);
  }

  /** A canonical city path, "/section/st/city" with a two-letter state,
      passes through. */
  lemma CanonicalPathPasses(section: string, state: string, city: string)
    requires section != [] && '/' !in section && city != [] && '/' !in city
    requires IsTwoLetterState(state)
    ensures Route("/" + section + "/" + state + "/" + city) == Next
  {
    ThreeSegments(section, state, city);
  }

  /** Old city-only URLs are rewritten. */
  lemma CityOnlyPathRewritten(section: string, city: string)
    requires section in Sections && city != [] && '/' !in city && !IsTwoLetterState(city)
    ensures Route("/" + section + "/" + city) == Rewrite(LegacyPath(section, city))
  {
    assert '/' !in section;
    SegmentsOfSlash(city, []);
    assert "/" + city + [] == "/" + city;
    SegmentsOfSlash(section, "/" + city);
    assert "/" + section + "/" + city == "/" + section + ("/" + city);
  }
}
