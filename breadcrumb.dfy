/** The breadcrumb trail shown above each page: one crumb per non-empty
    segment of the current URL, each linking to the URL prefix ending at
    that segment (src/app/breadcrumb.component.ts). */
module Breadcrumb {
  import opened JsStrings
  import opened JsArrays

  datatype Crumb = Crumb(text: string, url: string)

  /** The single crumb shown when the URL has no segments. */
  const FallbackCrumb := Crumb("Dashboard", "/data-sources")

  /** `url.split('/').filter(Boolean)`: the non-empty segments in order. */
  function Segments(url: string): (segments: seq<string>)
    ensures forall i :: 0 <= i < |segments| ==> segments[i] != "" && '/' !in segments[i]
  {
    SplitDropsSeparator(url, '/');
    Filter(Split(url, '/'), Truthy)
  }

  /** The value of `path` once the loop has consumed `segments`. */
  function PathOf(segments: seq<string>): string
    decreases |segments|
  {
    if |segments| == 0 then ""
    else PathOf(segments[..|segments| - 1]) + "/" + segments[|segments| - 1]
  }

  /** A URL path that starts with `/`, does not end with `/` and holds no
      empty segment (`//`). */
  predicate IsNormalPath(p: string) {
    && |p| > 0
    && p[0] == '/'
    && p[|p| - 1] != '/'
    && forall k :: 0 <= k < |p| - 1 ==> !(p[k] == '/' && p[k + 1] == '/')
  }

  predicate IsKnownSegment(segment: string) {
    segment == "data-sources" || segment == "add" || segment == "dashboard"
  }

  /** `formatLabel`: three known segments have fixed labels; any other
      segment has its first character upper-cased. */
  function FormatLabel(segment: string): (formatted: string)
    ensures |formatted| > 0 ==> !IsLowerLetter(formatted[0])
  {
    match segment
    case "data-sources" => "Data Sources"
    case "add" => "Add Source"
    case "dashboard" => "Dashboard"
    case _ => if |segment| == 0 then "" else [UpperChar(segment[0])] + segment[1..]
  }

  /** The crumbs the loop has pushed once it has consumed `segments`. */
  function Trail(segments: seq<string>): seq<Crumb>
    decreases |segments|
  {
    if |segments| == 0 then []
    else
      var last := |segments| - 1;
      Trail(segments[..last]) + [Crumb(FormatLabel(segments[last]), PathOf(segments))]
  }

  /** What `buildBreadcrumbs(url)` returns. */
  function Breadcrumbs(url: string): (crumbs: seq<Crumb>)
    ensures |crumbs| >= 1
    ensures |Segments(url)| > 0 ==> |crumbs| == |Segments(url)|
  {
    var segments := Segments(url);
    TrailLength(segments);
    if |segments| == 0 then [FallbackCrumb] else Trail(segments)
  }

  /** `buildBreadcrumbs`: extends `path` by one segment per iteration and
      pushes a crumb for it; the fallback crumb is pushed when nothing was. */
  method BuildBreadcrumbs(url: string) returns (crumbs: seq<Crumb>)
    ensures crumbs == Breadcrumbs(url)
  {
    var segments := Segments(url);
    crumbs := [];
    var path := "";
    for k := 0 to |segments|
      invariant path == PathOf(segments[..k])
      invariant crumbs == Trail(segments[..k])
    {
      ghost var consumed := segments[..k + 1];
      assert consumed[..k] == segments[..k];
      path := path + "/" + segments[k];
      crumbs := crumbs + [Crumb(FormatLabel(segments[k]), path)];
    }
    assert segments[..|segments|] == segments;
    if |crumbs| == 0 {
      crumbs := crumbs + [FallbackCrumb];
    }
  }

  /** Crumb i of a trail is labelled after segment i and links to the path
      of segments 0..i. */
  lemma {:induction false} TrailAt(segments: seq<string>, i: nat)
    requires i < |segments|
    ensures |Trail(segments)| == |segments|
    ensures Trail(segments)[i] == Crumb(FormatLabel(segments[i]), PathOf(segments[..i + 1]))
    decreases |segments|
  {
    var last := |segments| - 1;
    var init := segments[..last];
    TrailLength(init);
    assert Trail(segments) == Trail(init) + [Crumb(FormatLabel(segments[last]), PathOf(segments))];
    if i < last {
      TrailAt(init, i);
      assert init[..i + 1] == segments[..i + 1];
    } else {
      assert segments[..i + 1] == segments;
    }
  }

  /** A trail holds one crumb per segment. */
  lemma {:induction false} TrailLength(segments: seq<string>)
    ensures |Trail(segments)| == |segments|
    decreases |segments|
  {
    if |segments| > 0 {
      TrailLength(segments[..|segments| - 1]);
    }
  }

  /** Consecutive crumbs of a trail: each link extends the previous one by
      `/` and its own segment; every link is a normalised path. */
  lemma TrailLinks(segments: seq<string>, i: nat)
    requires i < |segments|
    requires forall j :: 0 <= j < |segments| ==> segments[j] != "" && '/' !in segments[j]
    ensures |Trail(segments)| == |segments|
    ensures Trail(segments)[i].text == FormatLabel(segments[i])
    ensures IsNormalPath(Trail(segments)[i].url)
    ensures i == 0 ==> Trail(segments)[i].url == "/" + segments[0]
    ensures i > 0 ==> Trail(segments)[i].url == Trail(segments)[i - 1].url + "/" + segments[i]
  {
    TrailAt(segments, i);
    PathOfIsNormal(segments[..i + 1]);
    assert segments[..i + 1][..i] == segments[..i];
    if i > 0 {
      TrailAt(segments, i - 1);
    }
  }

  /** A whole trail: one crumb per segment, labelled after it, each link
      extending the previous one, every link normalised. */
  lemma TrailShape(segments: seq<string>)
    requires |segments| > 0
    requires forall j :: 0 <= j < |segments| ==> segments[j] != "" && '/' !in segments[j]
    ensures |Trail(segments)| == |segments|
    ensures Trail(segments)[0].url == "/" + segments[0]
    ensures forall i :: 0 <= i < |segments| ==> Trail(segments)[i].text == FormatLabel(segments[i])
    ensures forall i :: 0 < i < |segments| ==> Trail(segments)[i].url == Trail(segments)[i - 1].url + "/" + segments[i]
    ensures forall i :: 0 <= i < |segments| ==> IsNormalPath(Trail(segments)[i].url)
  {
    TrailLinks(segments, 0);
    forall i | 0 <= i < |segments|
      ensures Trail(segments)[i].text == FormatLabel(segments[i])
      ensures IsNormalPath(Trail(segments)[i].url)
      ensures i > 0 ==> Trail(segments)[i].url == Trail(segments)[i - 1].url + "/" + segments[i]
    {
      TrailLinks(segments, i);
    }
  }

  /** The number of crumbs is the number of segments, or one for the
      fallback; crumb i carries the label of segment i; crumb 0 links to
      `/` + segment 0 and crumb i to crumb i-1's link + `/` + segment i;
      every link is a normalised path. */
  lemma BreadcrumbsShape(url: string)
    ensures var segments := Segments(url);
      var crumbs := Breadcrumbs(url);
      && |crumbs| == (if |segments| == 0 then 1 else |segments|)
      && (segments == [] ==> crumbs == [FallbackCrumb])
      && (forall i :: 0 <= i < |segments| ==> crumbs[i].text == FormatLabel(segments[i]))
      && (|segments| > 0 ==> crumbs[0].url == "/" + segments[0])
      && (forall i :: 0 < i < |segments| ==> crumbs[i].url == crumbs[i - 1].url + "/" + segments[i])
      && (forall i :: 0 <= i < |crumbs| ==> IsNormalPath(crumbs[i].url))
  {
    var segments := Segments(url);
    if |segments| > 0 {
      TrailShape(segments);
    } else {
      FallbackIsNormal();
    }
  }

  /** The fallback link is itself a normalised path. */
  lemma FallbackIsNormal()
    ensures IsNormalPath(FallbackCrumb.url)
  {
    var segments := ["data-sources"];
    assert PathOf(segments) == FallbackCrumb.url by {
      assert segments[..0] == [];
    }
    PathOfIsNormal(segments);
  }

  /** The path of non-empty, slash-free segments is normalised. */
  lemma {:induction false} PathOfIsNormal(segments: seq<string>)
    requires |segments| > 0
    requires forall i :: 0 <= i < |segments| ==> segments[i] != "" && '/' !in segments[i]
    ensures IsNormalPath(PathOf(segments))
    decreases |segments|
  {
    var init := segments[..|segments| - 1];
    var last := segments[|segments| - 1];
    var p := PathOf(init);
    var q := PathOf(segments);
    assert q == p + "/" + last;
    assert last[0] != '/' && last[|last| - 1] != '/';
    if |init| > 0 {
      PathOfIsNormal(init);
    }
    forall k | 0 <= k < |q| - 1
      ensures !(q[k] == '/' && q[k + 1] == '/')
    {
      if k < |p| - 1 {
        assert q[k] == p[k] && q[k + 1] == p[k + 1];
      } else if k == |p| - 1 {
        assert q[k] == p[k];
      } else if k == |p| {
        assert q[k + 1] == last[0];
      } else {
        assert q[k] == last[k - |p| - 1];
        assert last[k - |p| - 1] in last;
      }
    }
  }

  /** The last crumb's link is `/` followed by the segments joined by `/`. */
  lemma {:induction false} PathOfIsJoin(segments: seq<string>)
    requires |segments| > 0
    ensures PathOf(segments) == "/" + Join(segments, "/")
    decreases |segments|
  {
    var init := segments[..|segments| - 1];
    var last := segments[|segments| - 1];
    if |init| > 0 {
      PathOfIsJoin(init);
      JoinSnoc(init, "/", last);
      assert init + [last] == segments;
    } else {
      assert segments == [last];
    }
  }

  /** A link built from the segments splits back into those segments:
      re-reading a crumb's URL changes nothing. */
  lemma {:induction false} SegmentsOfPath(segments: seq<string>)
    requires forall i :: 0 <= i < |segments| ==> segments[i] != "" && '/' !in segments[i]
    ensures Segments(PathOf(segments)) == segments
    decreases |segments|
  {
    if |segments| > 0 {
      var init := segments[..|segments| - 1];
      var last := segments[|segments| - 1];
      SegmentsOfPath(init);
      assert PathOf(segments) == PathOf(init) + ['/'] + last;
      SegmentsAfterSlash(PathOf(init), last);
      assert init + [last] == segments;
    }
  }

  /** Appending `/` and a clean segment to a URL appends that segment to
      its segments. */
  lemma SegmentsAfterSlash(p: string, last: string)
    requires last != "" && '/' !in last
    ensures Segments(p + ['/'] + last) == Segments(p) + [last]
  {
    SplitAround(p, '/', last);
    SplitWithoutSeparator(last, '/');
    FilterConcat(Split(p, '/'), [last], Truthy);
    FilterSingleton(last, Truthy);
  }

  /** The last crumb links to `/` + the segments joined by `/`, and that
      link has exactly the segments of the URL the trail was built from:
      leading, trailing and repeated slashes are normalised away and
      nothing else changes. */
  lemma LastCrumbNormalisesUrl(url: string)
    requires Segments(url) != []
    ensures var segments := Segments(url);
      var crumbs := Breadcrumbs(url);
      && crumbs[|crumbs| - 1].url == "/" + Join(segments, "/")
      && Segments(crumbs[|crumbs| - 1].url) == segments
  {
    var segments := Segments(url);
    var last := |segments| - 1;
    TrailAt(segments, last);
    assert segments[..last + 1] == segments;
    assert Breadcrumbs(url) == Trail(segments);
    assert Breadcrumbs(url)[last].url == PathOf(segments);
    PathOfIsJoin(segments);
    SegmentsOfPath(segments);
  }

  /** The three known segments get their fixed labels. */
  lemma FormatLabelKnown()
    ensures FormatLabel("data-sources") == "Data Sources"
    ensures FormatLabel("add") == "Add Source"
    ensures FormatLabel("dashboard") == "Dashboard"
  {
  }

  /** Any other segment keeps its length and every character but the first,
      which is upper-cased. */
  lemma FormatLabelOther(segment: string)
    requires !IsKnownSegment(segment) && |segment| > 0
    ensures var formatted := FormatLabel(segment);
      && |formatted| == |segment|
      && formatted[1..] == segment[1..]
      && formatted[0] == UpperChar(segment[0])
      && (IsLowerLetter(segment[0]) ==> IsUpperLetter(formatted[0]))
      && (!IsLowerLetter(segment[0]) ==> formatted[0] == segment[0])
  {
  }

  /** Formatting a label a second time changes nothing. */
  lemma FormatLabelIdempotent(segment: string)
    ensures FormatLabel(FormatLabel(segment)) == FormatLabel(segment)
  {
    var formatted := FormatLabel(segment);
    if IsKnownSegment(formatted) {
      assert IsLowerLetter(formatted[0]);
    }
  }
}
