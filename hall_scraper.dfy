/**
 * The dining-hall discovery script: three sources tried in a fixed order.
 *
 *   1. The known hall names, each probed under four candidate URLs.
 *   2. A fixed list of API endpoints.
 *   3. The links of the main menu page, filtered and de-duplicated.
 *
 * The network is an oracle: `probe(url)` is the status code of `GET url`,
 * or `None` when the request raised; `fetch(endpoint)` is the response, or
 * `None` when the request raised; `mainPage` is the (text, href) list of the
 * page's links, or `None` when anything on that path raised.
 */
module HallScraper {
  import opened Wrappers
  import opened PyJson

  const KnownDiningHalls: seq<string> := [
    "Earhart Dining Court",
    "Ford Dining Court",
    "Hillenbrand Dining Court",
    "Wiley Dining Court",
    "Windsor Dining Court",
    "The Gathering Place",
    "Pete's Za",
    "The Den by Den Popov",
    "The C-Store",
    "The Market",
    "The Union Club Hotel",
    "The Boiler Bistro",
    "The Cary Knight Spot",
    "The Cary Knight Spot Express",
    "The Cary Knight Spot Express 2",
    "The Cary Knight Spot Express 3",
    "The Cary Knight Spot Express 4",
    "The Cary Knight Spot Express 5",
    "The Cary Knight Spot Express 6",
    "The Cary Knight Spot Express 7",
    "The Cary Knight Spot Express 8",
    "The Cary Knight Spot Express 9",
    "The Cary Knight Spot Express 10"
  ]

  const SiteRoot := "https://dining.purdue.edu/"
  const MenusRoot := "https://dining.purdue.edu/menus/"

  const ApiEndpoints: seq<string> := [
    "https://dining.purdue.edu/api/locations",
    "https://dining.purdue.edu/api/dining-halls",
    "https://dining.purdue.edu/api/menus/locations",
    "https://dining.purdue.edu/menus/api/locations",
    "https://dining.purdue.edu/api/v1/locations",
    "https://dining.purdue.edu/api/v1/dining-halls",
    "https://dining.purdue.edu/menus/api/menu",
    "https://dining.purdue.edu/menus/api/locations",
    "https://dining.purdue.edu/menus/api/menu/locations"
  ]

  const Working := "working"

  type Probe = string -> Option<int>

  // ---------------------------------------------------------------------
  // Slugs and candidate URLs
  // ---------------------------------------------------------------------

  /** `str.lower()` on one character, for the ASCII letters. */
  function Lower(c: char): char {
    if 'A' <= c <= 'Z' then (c as int + 32) as char else c
  }

  /** `name.lower().replace(' ', sep)`. */
  function Slug(name: string, sep: char): (r: string)
    ensures |r| == |name|
  {
    seq(|name|, i requires 0 <= i < |name| => if name[i] == ' ' then sep else Lower(name[i]))
  }

  /** The four URLs tried for a hall, in the order they are tried. */
  function CandidateUrls(hall: string): (r: seq<string>)
    ensures |r| == 4
  {
    [MenusRoot + Slug(hall, '-'), MenusRoot + Slug(hall, '_'),
     SiteRoot + Slug(hall, '-'), SiteRoot + Slug(hall, '_')]
  }

  /** A slug has no spaces and no upper-case ASCII letters. */
  lemma SlugIsLowerAndSpaceless(name: string, sep: char, i: nat)
    requires sep != ' ' && !('A' <= sep <= 'Z')
    requires i < |name|
    ensures Slug(name, sep)[i] != ' ' && !('A' <= Slug(name, sep)[i] <= 'Z')
  {
  }

  /** The dash and underscore slugs differ exactly when the name has a space. */
  lemma SlugsDifferIffSpace(name: string)
    ensures Slug(name, '-') != Slug(name, '_') <==> ' ' in name
  {
    if ' ' in name {
      var i :| 0 <= i < |name| && name[i] == ' ';
      assert Slug(name, '-')[i] != Slug(name, '_')[i];
    } else {
      assert forall i :: 0 <= i < |name| ==> Slug(name, '-')[i] == Slug(name, '_')[i];
    }
  }

  /**
   * The `menus/` candidates never coincide with the root ones; the dash and
   * underscore candidates coincide exactly when the name has no space.
   */
  lemma CandidateUrlsDistinct(hall: string)
    ensures var r := CandidateUrls(hall);
            && r[0] != r[2] && r[0] != r[3] && r[1] != r[2] && r[1] != r[3]
            && (r[0] != r[1] <==> ' ' in hall)
            && (r[2] != r[3] <==> ' ' in hall)
  {
    var r := CandidateUrls(hall);
    assert |r[0]| == |r[1]| == |MenusRoot| + |hall|;
    assert |r[2]| == |r[3]| == |SiteRoot| + |hall|;
    SlugsDifferIffSpace(hall);
    assert r[0][|MenusRoot|..] == Slug(hall, '-') && r[1][|MenusRoot|..] == Slug(hall, '_');
    assert r[2][|SiteRoot|..] == Slug(hall, '-') && r[3][|SiteRoot|..] == Slug(hall, '_');
  }

  // ---------------------------------------------------------------------
  // get_known_purdue_dining_halls
  // ---------------------------------------------------------------------

  datatype HallPage = HallPage(name: string, url: string, status: string)

  /** The first URL that answers 200, or none. */
  function FirstWorking(urls: seq<string>, probe: Probe): (r: Option<string>)
    ensures r.None? <==> forall k :: 0 <= k < |urls| ==> probe(urls[k]) != Some(200)
    ensures r.Some? ==> exists k :: 0 <= k < |urls| && urls[k] == r.value && probe(urls[k]) == Some(200)
                          && forall j :: 0 <= j < k ==> probe(urls[j]) != Some(200)
    decreases |urls|
  {
    if urls == [] then None
    else if probe(urls[0]) == Some(200) then Some(urls[0])
    else
      var r := FirstWorking(urls[1..], probe);
      assert forall k :: 0 < k < |urls| ==> urls[k] == urls[1..][k - 1];
      r
  }

  /** The page entry a hall contributes: none, or its first working URL. */
  function ProbeHall(hall: string, probe: Probe): (r: seq<HallPage>)
    ensures |r| <= 1
    ensures r == [] <==> FirstWorking(CandidateUrls(hall), probe).None?
    ensures forall e :: e in r ==>
              e.name == hall && e.status == Working && FirstWorking(CandidateUrls(hall), probe) == Some(e.url)
  {
    match FirstWorking(CandidateUrls(hall), probe)
    case None => []
    case Some(url) => [HallPage(hall, url, Working)]
  }

  /** The working pages of `halls`, in the order of `halls`. */
  function Probed(halls: seq<string>, probe: Probe): seq<HallPage> {
    if halls == [] then []
    else Probed(halls[..|halls| - 1], probe) + ProbeHall(halls[|halls| - 1], probe)
  }

  /** The inner loop of `get_known_purdue_dining_halls`: try the candidates until one answers 200. */
  method ProbeCandidates(hall: string, probe: Probe) returns (pages: seq<HallPage>)
    ensures pages == ProbeHall(hall, probe)
  {
    var urls := CandidateUrls(hall);
    pages := [];
    var j := 0;
    while j < |urls|
      invariant 0 <= j <= |urls|
      invariant forall k :: 0 <= k < j ==> probe(urls[k]) != Some(200)
    {
      var status := probe(urls[j]);
      if status == Some(200) {
        pages := [HallPage(hall, urls[j], Working)];
        assert FirstWorking(urls, probe) == Some(urls[j]);
        return;
      }
      j := j + 1;
    }
  }

  /** The outer loop of `get_known_purdue_dining_halls`, over any list of names. */
  method ProbeHalls(halls: seq<string>, probe: Probe) returns (working: seq<HallPage>)
    ensures working == Probed(halls, probe)
  {
    working := [];
    var i := 0;
    while i < |halls|
      invariant 0 <= i <= |halls|
      invariant working == Probed(halls[..i], probe)
    {
      assert halls[..i + 1][..i] == halls[..i];
      var pages := ProbeCandidates(halls[i], probe);
      working := working + pages;
      i := i + 1;
    }
    assert halls[..i] == halls;
  }

  /** `get_known_purdue_dining_halls`: probe the fixed list of names. */
  method GetKnownPurdueDiningHalls(probe: Probe) returns (working: seq<HallPage>)
    ensures working == Probed(KnownDiningHalls, probe)
  {
    working := ProbeHalls(KnownDiningHalls, probe);
  }

  lemma {:induction false} ProbedAppend(a: seq<string>, b: seq<string>, probe: Probe)
    ensures Probed(a + b, probe) == Probed(a, probe) + Probed(b, probe)
    decreases |b|
  {
    if b == [] {
      assert a + b == a;
    } else {
      assert (a + b)[..|a + b| - 1] == a + b[..|b| - 1];
      ProbedAppend(a, b[..|b| - 1], probe);
    }
  }



  /**
   * Each entry is a hall of the list with status `working` and the first of
   * its candidates that answered 200; a hall has an entry exactly when one of
   * its candidates answered 200; there are at most as many entries as halls.
   */
  lemma {:induction false} ProbedMeaning(halls: seq<string>, probe: Probe)
    ensures |Probed(halls, probe)| <= |halls|
    ensures forall e :: e in Probed(halls, probe) ==>
              && e.name in halls && e.status == Working
              && FirstWorking(CandidateUrls(e.name), probe) == Some(e.url)
    ensures forall h :: h in halls && FirstWorking(CandidateUrls(h), probe).Some? ==>
              exists e :: e in Probed(halls, probe) && e.name == h
  {
    if halls != [] {
      var init := halls[..|halls| - 1];
      var last := halls[|halls| - 1];
      assert halls == init + [last];
      ProbedMeaning(init, probe);
      forall h | h in halls && FirstWorking(CandidateUrls(h), probe).Some?
        ensures exists e :: e in Probed(halls, probe) && e.name == h
      {
        if h == last {
          assert ProbeHall(last, probe)[0] in Probed(halls, probe);
        } else {
          assert h in init;
          var e :| e in Probed(init, probe) && e.name == h;
          assert e in Probed(halls, probe);
        }
      }
    }
  }

  /** A list of distinct hall names gives entries with distinct names. */
  lemma {:induction false} ProbedDistinctNames(halls: seq<string>, probe: Probe)
    requires forall i, j :: 0 <= i < j < |halls| ==> halls[i] != halls[j]
    ensures forall i, j :: 0 <= i < j < |Probed(halls, probe)| ==>
              Probed(halls, probe)[i].name != Probed(halls, probe)[j].name
  {
    if halls != [] {
      var n := |halls| - 1;
      var init, last := halls[..n], halls[n];
      ProbedDistinctNames(init, probe);
      ProbedMeaning(init, probe);
      var p: seq<HallPage>, q: seq<HallPage> := Probed(init, probe), ProbeHall(last, probe);
      assert Probed(halls, probe) == p + q;
      assert last !in init;
      forall i, j | 0 <= i < j < |p + q|
        ensures (p + q)[i].name != (p + q)[j].name
      {
        if j < |p| {
          assert (p + q)[i] == p[i] && (p + q)[j] == p[j];
        } else {
          assert (p + q)[i] == p[i] && p[i] in p;
          assert (p + q)[j] in q;
        }
      }
    }
  }

  // ---------------------------------------------------------------------
  // try_api_endpoints
  // ---------------------------------------------------------------------

  /** A status code, the body decoded as JSON when it decodes, and the raw text. */
  datatype Response = Response(status: int, json: Option<Json>, text: string)

  type ApiFetch = string -> Option<Response>

  datatype ApiData = ApiJson(data: Json) | ApiText(text: string)

  predicate Answered(fetch: ApiFetch, endpoint: string) {
    fetch(endpoint).Some? && fetch(endpoint).value.status == 200
  }

  /** The payload of a 200 response: its JSON if it decodes, else its text. */
  function Payload(r: Response): ApiData {
    match r.json
    case Some(j) => ApiJson(j)
    case None => ApiText(r.text)
  }

  /** The payload of the first endpoint that answers 200, or none. */
  function FirstApiData(endpoints: seq<string>, fetch: ApiFetch): (r: Option<ApiData>)
    ensures r.None? <==> forall k :: 0 <= k < |endpoints| ==> !Answered(fetch, endpoints[k])
    ensures r.Some? ==> exists k :: 0 <= k < |endpoints| && Answered(fetch, endpoints[k])
                          && (forall j :: 0 <= j < k ==> !Answered(fetch, endpoints[j]))
                          && r.value == Payload(fetch(endpoints[k]).value)
    decreases |endpoints|
  {
    if endpoints == [] then None
    else if Answered(fetch, endpoints[0]) then Some(Payload(fetch(endpoints[0]).value))
    else
      var rest := endpoints[1..];
      var r := FirstApiData(rest, fetch);
      assert forall k :: 0 < k < |endpoints| ==> endpoints[k] == rest[k - 1];
      assert !Answered(fetch, endpoints[0]);
      assert r.Some? ==> exists k :: 0 <= k < |rest| && Answered(fetch, rest[k])
                          && (forall j :: 0 <= j < k ==> !Answered(fetch, rest[j]))
                          && r.value == Payload(fetch(rest[k]).value);
      r
  }

  /** The loop of `try_api_endpoints`, over any list of endpoints. */
  method QueryEndpoints(endpoints: seq<string>, fetch: ApiFetch) returns (r: Option<ApiData>)
    ensures r == FirstApiData(endpoints, fetch)
  {
    var i := 0;
    while i < |endpoints|
      invariant 0 <= i <= |endpoints|
      invariant FirstApiData(endpoints, fetch) == FirstApiData(endpoints[i..], fetch)
    {
      assert endpoints[i..][0] == endpoints[i] && endpoints[i..][1..] == endpoints[i + 1..];
      var response := fetch(endpoints[i]);
      if response.Some? && response.value.status == 200 {
        if response.value.json.Some? {
          return Some(ApiJson(response.value.json.value));
        }
        return Some(ApiText(response.value.text));
      }
      i := i + 1;
    }
    return None;
  }

  /** `try_api_endpoints`: query the fixed list of endpoints. */
  method TryApiEndpoints(fetch: ApiFetch) returns (r: Option<ApiData>)
    ensures r == FirstApiData(ApiEndpoints, fetch)
  {
    r := QueryEndpoints(ApiEndpoints, fetch);
  }

  /** `if api_data:`: a JSON value by Python truthiness, a text when non-empty. */
  predicate ApiTruthy(d: ApiData): (b: bool)
    ensures b <==> Truthy(match d case ApiJson(j) => j case ApiText(t) => JStr(t))
  {
    match d
    case ApiJson(j) => Truthy(j)
    case ApiText(t) => t != ""
  }

  // ---------------------------------------------------------------------
  // The main menu page: link filter and order-preserving de-duplication
  // ---------------------------------------------------------------------

  /** A link as (stripped text, href). */
  datatype Link = Link(text: string, href: string)

  predicate StartsWith(s: string, prefix: string) {
    |prefix| <= |s| && s[..|prefix|] == prefix
  }

  /** The filter applied to each link of the page. */
  predicate IsHallLink(l: Link): (b: bool)
    ensures b <==> |l.text| > 2 && !StartsWith(l.text, "http")
  {
    l.text != "" && |l.text| > 2 && !StartsWith(l.text, "http")
  }

  /** The links that pass the filter, in page order. */
  function HallLinks(links: seq<Link>): (r: seq<Link>)
    ensures |r| <= |links|
    ensures forall i :: 0 <= i < |r| ==> IsHallLink(r[i]) && r[i] in links
  {
    if links == [] then []
    else HallLinks(links[..|links| - 1]) + (if IsHallLink(links[|links| - 1]) then [links[|links| - 1]] else [])
  }

  method FilterLinks(links: seq<Link>) returns (kept: seq<Link>)
    ensures kept == HallLinks(links)
  {
    kept := [];
    var i := 0;
    while i < |links|
      invariant 0 <= i <= |links|
      invariant kept == HallLinks(links[..i])
    {
      var link := links[i];
      assert links[..i + 1][..i] == links[..i];
      if link.text != "" && |link.text| > 2 && !StartsWith(link.text, "http") {
        kept := kept + [link];
      }
      i := i + 1;
    }
    assert links[..i] == links;
  }

  /** Every kept link passes the filter, and every passing link is kept. */
  lemma {:induction false} HallLinksMeaning(links: seq<Link>)
    ensures |HallLinks(links)| <= |links|
    ensures forall l :: l in HallLinks(links) <==> l in links && IsHallLink(l)
  {
    if links != [] {
      var init := links[..|links| - 1];
      assert links == init + [links[|links| - 1]];
      HallLinksMeaning(init);
    }
  }

  function Names(ls: seq<Link>): set<string> {
    set i | 0 <= i < |ls| :: ls[i].text
  }

  /** No earlier link has the same name. */
  predicate IsFirst(ls: seq<Link>, i: int)
    requires 0 <= i < |ls|
  {
    forall k :: 0 <= k < i ==> ls[k].text != ls[i].text
  }

  /** The links that are the first of their name, in order. */
  function FirstOccurrences(ls: seq<Link>): (r: seq<Link>)
    ensures |r| <= |ls|
    ensures forall i :: 0 <= i < |r| ==> r[i] in ls
  {
    if ls == [] then []
    else FirstOccurrences(ls[..|ls| - 1]) + (if IsFirst(ls, |ls| - 1) then [ls[|ls| - 1]] else [])
  }

  lemma NamesSnoc(ls: seq<Link>, l: Link)
    ensures Names(ls + [l]) == Names(ls) + {l.text}
  {
    var s := ls + [l];
    forall n | n in Names(s) ensures n in Names(ls) + {l.text} {
      var i :| 0 <= i < |s| && s[i].text == n;
      if i < |ls| {
        assert s[i] == ls[i];
      }
    }
    forall n | n in Names(ls) ensures n in Names(s) {
      var i :| 0 <= i < |ls| && ls[i].text == n;
      assert s[i] == ls[i];
    }
    assert s[|ls|] == l;
  }

  /** Dropping repeats keeps every name. */
  lemma {:induction false} FirstOccurrencesNames(ls: seq<Link>)
    ensures Names(FirstOccurrences(ls)) == Names(ls)
  {
    if ls != [] {
      var init := ls[..|ls| - 1];
      var last := ls[|ls| - 1];
      assert ls == init + [last];
      FirstOccurrencesNames(init);
      NamesSnoc(init, last);
      var u := FirstOccurrences(init);
      if IsFirst(ls, |ls| - 1) {
        NamesSnoc(u, last);
      } else {
        var k :| 0 <= k < |ls| - 1 && ls[k].text == last.text;
        assert init[k] == ls[k];
        assert last.text in Names(init);
        assert FirstOccurrences(ls) == u + [] == u;
      }
    }
  }

  /** A link is the first of its name exactly when its name is new so far. */
  lemma IsFirstIffNew(ls: seq<Link>, i: nat)
    requires i < |ls|
    ensures IsFirst(ls, i) <==> ls[i].text !in Names(ls[..i])
  {
    if !IsFirst(ls, i) {
      var k :| 0 <= k < i && ls[k].text == ls[i].text;
      assert ls[..i][k] == ls[k];
    }
  }

  /** The de-duplicated list has pairwise distinct names and is no longer than its input. */
  lemma {:induction false} FirstOccurrencesDistinct(ls: seq<Link>)
    ensures |FirstOccurrences(ls)| <= |ls|
    ensures forall i, j :: 0 <= i < j < |FirstOccurrences(ls)| ==>
              FirstOccurrences(ls)[i].text != FirstOccurrences(ls)[j].text
  {
    if ls != [] {
      var init := ls[..|ls| - 1];
      var last := ls[|ls| - 1];
      var u := FirstOccurrences(init);
      FirstOccurrencesDistinct(init);
      if IsFirst(ls, |ls| - 1) {
        FirstOccurrencesNames(init);
        IsFirstIffNew(ls, |ls| - 1);
        assert ls[..|ls| - 1] == init;
        forall i | 0 <= i < |u| ensures u[i].text != last.text {
          assert u[i].text in Names(u);
        }
      }
    }
  }

  /** Being the first of its name depends only on the links before it. */
  lemma IsFirstInPrefix(ls: seq<Link>, n: nat, i: nat)
    requires i < n <= |ls|
    ensures IsFirst(ls[..n], i) <==> IsFirst(ls, i)
  {
    assert forall k :: 0 <= k <= i ==> ls[..n][k] == ls[k];
  }

  /** Each kept link is the first link of its name in the input; each such first link is kept. */
  lemma {:induction false} FirstOccurrencesAreFirsts(ls: seq<Link>)
    ensures forall e :: e in FirstOccurrences(ls) ==> exists i :: 0 <= i < |ls| && ls[i] == e && IsFirst(ls, i)
    ensures forall i :: 0 <= i < |ls| && IsFirst(ls, i) ==> ls[i] in FirstOccurrences(ls)
  {
    if ls != [] {
      var n := |ls| - 1;
      var init := ls[..n];
      var u := FirstOccurrences(init);
      var tail: seq<Link> := if IsFirst(ls, n) then [ls[n]] else [];
      assert FirstOccurrences(ls) == u + tail;
      FirstOccurrencesAreFirsts(init);
      forall e | e in FirstOccurrences(ls)
        ensures exists i :: 0 <= i < |ls| && ls[i] == e && IsFirst(ls, i)
      {
        if e in u {
          var i :| 0 <= i < |init| && init[i] == e && IsFirst(init, i);
          IsFirstInPrefix(ls, n, i);
          assert ls[i] == e;
        } else {
          assert e in tail;
          assert ls[n] == e && IsFirst(ls, n);
        }
      }
      forall i | 0 <= i < |ls| && IsFirst(ls, i)
        ensures ls[i] in FirstOccurrences(ls)
      {
        if i < n {
          IsFirstInPrefix(ls, n, i);
          assert init[i] == ls[i];
          assert ls[i] in u;
        } else {
          assert ls[i] in tail;
        }
      }
    }
  }

  /** One more link: it is kept exactly when its name is new, and its name joins the names seen. */
  lemma FirstOccurrencesSnoc(ls: seq<Link>, i: nat)
    requires i < |ls|
    ensures FirstOccurrences(ls[..i + 1]) ==
              FirstOccurrences(ls[..i]) + (if ls[i].text in Names(ls[..i]) then [] else [ls[i]])
    ensures Names(ls[..i + 1]) == Names(ls[..i]) + {ls[i].text}
  {
    var prefix := ls[..i + 1];
    assert prefix[..i] == ls[..i] && prefix[i] == ls[i];
    IsFirstIffNew(ls, i);
    IsFirstInPrefix(ls, i + 1, i);
    assert prefix == ls[..i] + [ls[i]];
    NamesSnoc(ls[..i], ls[i]);
  }

  /** The order-preserving de-duplication by name. */
  method RemoveDuplicates(halls: seq<Link>) returns (unique: seq<Link>)
    ensures unique == FirstOccurrences(halls)
  {
    var seen: set<string> := {};
    unique := [];
    var i := 0;
    while i < |halls|
      invariant 0 <= i <= |halls|
      invariant unique == FirstOccurrences(halls[..i])
      invariant seen == Names(halls[..i])
    {
      var hall := halls[i];
      FirstOccurrencesSnoc(halls, i);
      if hall.text !in seen {
        seen := seen + {hall.text};
        unique := unique + [hall];
      }
      i := i + 1;
    }
    assert halls[..i] == halls;
  }

  // ---------------------------------------------------------------------
  // scrape_purdue_dining_halls: the fallback order
  // ---------------------------------------------------------------------

  datatype Discovery =
    | KnownPages(pages: seq<HallPage>)
    | ApiResult(data: ApiData)
    | MenuLinks(links: seq<Link>)

  /** What the main-page path returns: the de-duplicated hall links, or `[]` when it raised. */
  function MainPageLinks(mainPage: Option<seq<Link>>): (r: seq<Link>)
    ensures mainPage.None? ==> r == []
    ensures mainPage.Some? ==> forall i :: 0 <= i < |r| ==> IsHallLink(r[i]) && r[i] in mainPage.value
  {
    match mainPage
    case None => []
    case Some(links) => FirstOccurrences(HallLinks(links))
  }

  /**
   * `scrape_purdue_dining_halls`: the known-hall probe if it found anything
   * (the API and the main page are then not consulted), else truthy API
   * data, else the main page's links.
   */
  method ScrapePurdueDiningHalls(probe: Probe, fetch: ApiFetch, mainPage: Option<seq<Link>>) returns (d: Discovery)
    ensures Probed(KnownDiningHalls, probe) != [] ==> d == KnownPages(Probed(KnownDiningHalls, probe))
    ensures Probed(KnownDiningHalls, probe) == [] && FirstApiData(ApiEndpoints, fetch).Some?
            && ApiTruthy(FirstApiData(ApiEndpoints, fetch).value) ==>
              d == ApiResult(FirstApiData(ApiEndpoints, fetch).value)
    ensures Probed(KnownDiningHalls, probe) == []
            && !(FirstApiData(ApiEndpoints, fetch).Some? && ApiTruthy(FirstApiData(ApiEndpoints, fetch).value)) ==>
              d == MenuLinks(MainPageLinks(mainPage))
  {
    var known := GetKnownPurdueDiningHalls(probe);
    if known != [] {
      return KnownPages(known);
    }
    var api := TryApiEndpoints(fetch);
    if api.Some? && ApiTruthy(api.value) {
      return ApiResult(api.value);
    }
    if mainPage.None? {
      return MenuLinks([]);
    }
    var filtered := FilterLinks(mainPage.value);
    var unique := RemoveDuplicates(filtered);
    return MenuLinks(unique);
  }

  /**
   * The main-page result: every link passes the filter and comes from the
   * page, no two share a name, every name of a passing link appears, and it
   * is never longer than the filtered list.
   */
  lemma MainPageLinksMeaning(links: seq<Link>)
    ensures var r := MainPageLinks(Some(links));
            && |r| <= |HallLinks(links)|
            && (forall l :: l in r ==> l in links && IsHallLink(l))
            && (forall i, j :: 0 <= i < j < |r| ==> r[i].text != r[j].text)
            && Names(r) == Names(HallLinks(links))
  {
    var kept := HallLinks(links);
    HallLinksMeaning(links);
    FirstOccurrencesDistinct(kept);
    FirstOccurrencesNames(kept);
    FirstOccurrencesAreFirsts(kept);
    forall l | l in FirstOccurrences(kept) ensures l in links && IsHallLink(l) {
      var i :| 0 <= i < |kept| && kept[i] == l && IsFirst(kept, i);
      assert l in kept;
    }
  }
}
