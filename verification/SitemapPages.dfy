/**
 What the pages of `collectSitemapUrls` contribute, as functions of the pages fetched. Page contents,
 fetch results and the regular expressions over URLs are arbitrary functions; since no URL is fetched
 twice, a function of the URL is as general as any network.
 */
module SitemapPages {
  import opened Common

  /** A link as found on a page, with the site root of its host unless it does not parse. */
  datatype Link = Link(text: string, site: Option<string>)

  /** `locs` are the https `<loc>` entries, `anchors` the distinct https links of the page. */
  datatype Page = Page(locs: seq<Link>, anchors: seq<Link>)

  datatype Site = Site(
    root: string,
    sitemapXml: Link,
    sitemapPhp: Link,
    fetch: Link -> Option<Page>,
    score: Link -> int,
    nonProduct: Link -> bool,
    directoryLike: Link -> bool,
    namesXml: Link -> bool,          // names an XML file, query allowed
    isXmlChild: Link -> bool,        // ends in .xml or .xml.gz
    isXmlEntry: Link -> bool,        // ends in /sitemap.xml
    isPhpEntry: Link -> bool,        // ends in sitemap.php
    segment: Link -> Option<string>) // first path segment, unless empty or a content hub

  const MAX_SEEN := 20
  const MAX_DISCOVERY_FETCHES := 20
  const MAX_URLS := 600
  const MAX_CANDIDATES := 400
  const MAX_CHILDREN := 15
  const DENSE_COHORT := 200
  const MAX_POOL := 1000

  predicate OnSite(site: Site, link: Link) {
    link.site == Some(site.root)
  }

  ghost predicate AllOnSite(site: Site, links: seq<Link>) {
    forall l :: l in links ==> OnSite(site, l)
  }

  /** Both entry points are built from the seed's own domain, under the names the crawl tests for. */
  predicate Seeded(site: Site) {
    && OnSite(site, site.sitemapXml) && OnSite(site, site.sitemapPhp)
    && site.isXmlEntry(site.sitemapXml) && site.isPhpEntry(site.sitemapPhp)
  }

  /** `[...new Set(links)]`. */
  function Dedupe(links: seq<Link>): seq<Link> {
    if links == [] then []
    else
      var n := |links| - 1;
      var earlier := Dedupe(links[..n]);
      if links[n] in earlier then earlier else earlier + [links[n]]
  }

  lemma {:induction false} DedupeMeans(links: seq<Link>)
    ensures |Dedupe(links)| <= |links| && NoTwice(Dedupe(links))
    ensures forall l :: l in Dedupe(links) <==> l in links
  {
    if links != [] {
      var n := |links| - 1;
      DedupeMeans(links[..n]);
      assert links == links[..n] + [links[n]];
    }
  }

  /** The links a test keeps, in order. */
  function Keep(links: seq<Link>, test: Link -> bool): seq<Link> {
    if links == [] then []
    else Keep(links[..|links| - 1], test) + (if test(links[|links| - 1]) then [links[|links| - 1]] else [])
  }

  lemma {:induction false} KeepMeans(links: seq<Link>, test: Link -> bool)
    ensures forall l :: l in Keep(links, test) <==> l in links && test(l)
  {
    if links != [] {
      var n := |links| - 1;
      KeepMeans(links[..n], test);
      assert links == links[..n] + [links[n]];
    }
  }

  /** The first `room` links. */
  function Limit(links: seq<Link>, room: int): (r: seq<Link>)
    ensures |r| <= |links| && (0 <= room ==> |r| <= room)
    ensures |links| <= room ==> r == links
  {
    if |links| <= room then links else if room <= 0 then [] else links[..room]
  }

  lemma KeepStep(links: seq<Link>, n: nat, test: Link -> bool)
    requires n < |links|
    ensures Keep(links[..n + 1], test) == Keep(links[..n], test) + (if test(links[n]) then [links[n]] else [])
  {
    assert links[..n + 1][..n] == links[..n];
  }

  lemma {:induction false} KeepPrefix(links: seq<Link>, n: nat, test: Link -> bool)
    requires n <= |links|
    ensures Keep(links[..n], test) <= Keep(links, test)
    decreases |links|
  {
    if n < |links| {
      var m := |links| - 1;
      KeepPrefix(links[..m], n, test);
      assert links[..m][..n] == links[..n];
    } else {
      assert links[..n] == links;
    }
  }

  lemma LimitStep(links: seq<Link>, link: Link, room: nat)
    ensures Limit(links + [link], room) == Limit(links, room) + (if |links| < room then [link] else [])
    ensures |Limit(links, room)| == if |links| < room then |links| else room
  {
  }

  /** Taking one more link after `start`, which then has room for `room` links in all. */
  lemma TakeStep(start: seq<Link>, links: seq<Link>, n: nat, test: Link -> bool, room: nat)
    requires n < |links|
    ensures var taken := start + Limit(Keep(links[..n], test), room);
            && start + Limit(Keep(links[..n + 1], test), room) ==
                 taken + (if test(links[n]) && |taken| < |start| + room then [links[n]] else [])
  {
    KeepStep(links, n, test);
    LimitStep(Keep(links[..n], test), links[n], room);
  }

  lemma TakenStep(site: Site, locs: seq<Link>, n: nat, room: nat)
    requires n < |locs|
    ensures var before := Limit(Keep(locs[..n], IsOnSite(site)), room);
            var more := if OnSite(site, locs[n]) && |before| < room then [locs[n]] else [];
            && Limit(Keep(locs[..n + 1], IsOnSite(site)), room) == before + more
            && |Keep(before + more, IsProduct(site))| ==
                 |Keep(before, IsProduct(site))| + (if more != [] && site.score(locs[n]) >= 3 then 1 else 0)
  {
    var before := Limit(Keep(locs[..n], IsOnSite(site)), room);
    TakeStep([], locs, n, IsOnSite(site), room);
    assert [] + before == before;
    if OnSite(site, locs[n]) && |before| < room {
      assert (before + [locs[n]])[..|before|] == before;
    } else {
      assert before + [] == before;
    }
  }

  lemma AppendOne(start: seq<Link>, links: seq<Link>, link: Link)
    ensures start + links + [link] == start + (links + [link])
  {
  }

  lemma KeepMore(start: seq<Link>, links: seq<Link>, n: nat, test: Link -> bool)
    requires n < |links|
    ensures start + Keep(links[..n + 1], test) ==
            start + Keep(links[..n], test) + (if test(links[n]) then [links[n]] else [])
  {
    KeepStep(links, n, test);
  }

  /** Once the room is used up, nothing further changes what was taken. */
  lemma LimitFull(links: seq<Link>, more: seq<Link>, room: nat)
    requires links <= more && |links| >= room
    ensures Limit(more, room) == Limit(links, room)
  {
    assert more == links + more[|links|..];
  }

  // ---------------------------------------------------------------- what a page contributes

  function IsOnSite(site: Site): Link -> bool {
    (l: Link) => OnSite(site, l)
  }

  /** A link that passes the product floor. */
  function IsProduct(site: Site): Link -> bool {
    (l: Link) => OnSite(site, l) && site.score(l) >= 3
  }

  /** A directory-like link below the floor: a page to visit, or a candidate, depending on the page. */
  function IsLead(site: Site, seen: set<Link>): Link -> bool {
    (l: Link) => OnSite(site, l) && site.score(l) < 3 && !site.nonProduct(l) && l !in seen
                 && !site.isPhpEntry(l) && site.directoryLike(l)
  }

  function IsListing(site: Site, seen: set<Link>): Link -> bool {
    (l: Link) => l !in seen && !site.nonProduct(l) && site.directoryLike(l) && OnSite(site, l)
  }

  /** The tests of a listing, its site aside. */
  function LooksListing(site: Site, seen: set<Link>): Link -> bool {
    (l: Link) => l !in seen && !site.nonProduct(l) && site.directoryLike(l)
  }

  function IsMember(site: Site, segment: string): Link -> bool {
    (l: Link) => OnSite(site, l) && site.score(l) < 3 && !site.nonProduct(l) && site.segment(l) == Some(segment)
  }

  function Children(site: Site, locs: seq<Link>): seq<Link> {
    Keep(Limit(Keep(locs, site.isXmlChild), MAX_CHILDREN), IsOnSite(site))
  }

  function CohortOf(cohorts: map<string, seq<Link>>, segment: string): seq<Link> {
    if segment in cohorts then cohorts[segment] else []
  }

  /** The cohorts of at least 200 links, one after the other. */
  function DenseLinks(order: seq<string>, cohorts: map<string, seq<Link>>): seq<Link> {
    if order == [] then []
    else
      var n := |order| - 1;
      var cohort := CohortOf(cohorts, order[n]);
      DenseLinks(order[..n], cohorts) + (if |cohort| < DENSE_COHORT then [] else cohort)
  }

  predicate IsHtml(site: Site, url: Link, page: Page) {
    page.locs == [] && (site.isPhpEntry(url) || !site.namesXml(url))
  }

  predicate IsIndex(site: Site, url: Link, page: Page) {
    !IsHtml(site, url, page) && exists l :: l in page.locs && site.isXmlChild(l)
  }

  /**
   The page has given the crawl all it has to give, up to the caps: its product links (or, for a
   leaf sitemap, its URLs) are collected, its further pages visited or queued, its candidates kept, and
   the listings of a leaf without any product link visited or queued instead.
   */
  ghost predicate Harvested(site: Site, url: Link, page: Page, urls: seq<Link>, candidates: seq<Link>,
                            queue: seq<Link>, seen: set<Link>)
  {
    if IsHtml(site, url, page) then
      && (forall l :: l in page.anchors && IsProduct(site)(l) ==> l in urls || |urls| >= MAX_URLS)
      && (forall l :: l in page.anchors && IsLead(site, seen)(l) ==>
            if site.isPhpEntry(url) then l in queue || |seen| >= MAX_SEEN
            else l in candidates || |candidates| >= MAX_CANDIDATES)
    else if IsIndex(site, url, page) then
      forall l :: l in Children(site, page.locs) ==> l in seen || l in queue
    else
      && (forall l :: l in page.locs && OnSite(site, l) ==> l in urls || |urls| >= MAX_URLS)
      && ((forall l :: l in page.locs ==> !IsProduct(site)(l)) ==>
            forall l :: l in page.locs && IsListing(site, seen)(l) ==> l in queue || |seen| >= MAX_SEEN)
  }

  // ---------------------------------------------------------------- cohorts by size

  /** Places a segment after every segment whose cohort is at least as long. */
  function Place(segment: string, sorted: seq<string>, cohorts: map<string, seq<Link>>): (r: seq<string>)
    requires segment in cohorts && forall s :: s in sorted ==> s in cohorts
    ensures forall s :: s in r ==> s in cohorts
  {
    if sorted == [] then [segment]
    else if |cohorts[sorted[0]]| < |cohorts[segment]| then [segment] + sorted
    else [sorted[0]] + Place(segment, sorted[1..], cohorts)
  }

  /** The stable sort by decreasing cohort size. */
  function Densest(segments: seq<string>, cohorts: map<string, seq<Link>>): (r: seq<string>)
    requires forall s :: s in segments ==> s in cohorts
    ensures forall s :: s in r ==> s in cohorts
  {
    if segments == [] then []
    else Place(segments[|segments| - 1], Densest(segments[..|segments| - 1], cohorts), cohorts)
  }

  lemma {:induction false} PlacePermutes(segment: string, sorted: seq<string>, cohorts: map<string, seq<Link>>)
    requires segment in cohorts && forall s :: s in sorted ==> s in cohorts
    ensures multiset(Place(segment, sorted, cohorts)) == multiset(sorted) + multiset{segment}
  {
    if sorted != [] && |cohorts[sorted[0]]| >= |cohorts[segment]| {
      assert sorted == [sorted[0]] + sorted[1..];
      PlacePermutes(segment, sorted[1..], cohorts);
    }
  }

  lemma {:induction false} DensestPermutes(segments: seq<string>, cohorts: map<string, seq<Link>>)
    requires forall s :: s in segments ==> s in cohorts
    ensures multiset(Densest(segments, cohorts)) == multiset(segments)
  {
    if segments != [] {
      var n := |segments| - 1;
      assert segments == segments[..n] + [segments[n]];
      DensestPermutes(segments[..n], cohorts);
      PlacePermutes(segments[n], Densest(segments[..n], cohorts), cohorts);
    }
  }

  ghost predicate SizesDescend(order: seq<string>, cohorts: map<string, seq<Link>>)
    requires forall s :: s in order ==> s in cohorts
  {
    forall i, j :: 0 <= i < j < |order| ==> |cohorts[order[i]]| >= |cohorts[order[j]]|
  }

  lemma {:induction false} PlaceDescends(segment: string, sorted: seq<string>, cohorts: map<string, seq<Link>>)
    requires segment in cohorts && (forall s :: s in sorted ==> s in cohorts) && SizesDescend(sorted, cohorts)
    ensures SizesDescend(Place(segment, sorted, cohorts), cohorts)
    ensures forall s :: s in Place(segment, sorted, cohorts) ==> s in sorted || s == segment
  {
    if sorted != [] && |cohorts[sorted[0]]| >= |cohorts[segment]| {
      PlaceDescends(segment, sorted[1..], cohorts);
      forall s | s in Place(segment, sorted[1..], cohorts) ensures |cohorts[s]| <= |cohorts[sorted[0]]| {
        if s != segment {
          var k :| 0 <= k < |sorted[1..]| && sorted[1..][k] == s;
          assert sorted[k + 1] == s;
        }
      }
    }
  }

  /** The segments whose cohort has `size` links. */
  function OfSize(segments: seq<string>, cohorts: map<string, seq<Link>>, size: nat): seq<string>
    requires forall s :: s in segments ==> s in cohorts
  {
    if segments == [] then []
    else (if |cohorts[segments[0]]| == size then [segments[0]] else []) + OfSize(segments[1..], cohorts, size)
  }

  lemma {:induction false} OfSizeSnoc(segments: seq<string>, last: string, cohorts: map<string, seq<Link>>, size: nat)
    requires last in cohorts && forall s :: s in segments ==> s in cohorts
    ensures OfSize(segments + [last], cohorts, size) ==
            OfSize(segments, cohorts, size) + (if |cohorts[last]| == size then [last] else [])
  {
    if segments != [] {
      OfSizeSnoc(segments[1..], last, cohorts, size);
      assert (segments + [last])[0] == segments[0] && (segments + [last])[1..] == segments[1..] + [last];
    } else {
      assert segments + [last] == [last] && [last][1..] == [];
    }
  }

  lemma OfSizeLast(segments: seq<string>, cohorts: map<string, seq<Link>>, size: nat)
    requires segments != [] && forall s :: s in segments ==> s in cohorts
    ensures var n := |segments| - 1;
            OfSize(segments, cohorts, size) ==
            OfSize(segments[..n], cohorts, size) + (if |cohorts[segments[n]]| == size then [segments[n]] else [])
  {
    var n := |segments| - 1;
    OfSizeSnoc(segments[..n], segments[n], cohorts, size);
    assert segments == segments[..n] + [segments[n]];
  }

  lemma {:induction false} NoneSmaller(sorted: seq<string>, cohorts: map<string, seq<Link>>, size: nat)
    requires (forall s :: s in sorted ==> s in cohorts) && SizesDescend(sorted, cohorts)
    requires sorted == [] || |cohorts[sorted[0]]| < size
    ensures OfSize(sorted, cohorts, size) == []
  {
    if |sorted| > 1 {
      NoneSmaller(sorted[1..], cohorts, size);
    }
  }

  lemma {:induction false} PlaceStable(segment: string, sorted: seq<string>, cohorts: map<string, seq<Link>>, size: nat)
    requires segment in cohorts && (forall s :: s in sorted ==> s in cohorts) && SizesDescend(sorted, cohorts)
    ensures OfSize(Place(segment, sorted, cohorts), cohorts, size) ==
            OfSize(sorted, cohorts, size) + (if |cohorts[segment]| == size then [segment] else [])
  {
    if sorted == [] {
      assert [segment][1..] == [];
    } else if |cohorts[sorted[0]]| < |cohorts[segment]| {
      assert ([segment] + sorted)[1..] == sorted;
      if |cohorts[segment]| == size {
        NoneSmaller(sorted, cohorts, size);
      }
    } else {
      var rest := Place(segment, sorted[1..], cohorts);
      assert ([sorted[0]] + rest)[1..] == rest;
      PlaceStable(segment, sorted[1..], cohorts, size);
    }
  }

  lemma {:induction false} DensestDescends(segments: seq<string>, cohorts: map<string, seq<Link>>)
    requires forall s :: s in segments ==> s in cohorts
    ensures SizesDescend(Densest(segments, cohorts), cohorts)
  {
    if segments != [] {
      var n := |segments| - 1;
      DensestDescends(segments[..n], cohorts);
      PlaceDescends(segments[n], Densest(segments[..n], cohorts), cohorts);
    }
  }

  lemma {:induction false} DensestStable(segments: seq<string>, cohorts: map<string, seq<Link>>, size: nat)
    requires forall s :: s in segments ==> s in cohorts
    ensures OfSize(Densest(segments, cohorts), cohorts, size) == OfSize(segments, cohorts, size)
  {
    if segments != [] {
      var n := |segments| - 1;
      var sorted := Densest(segments[..n], cohorts);
      DensestStable(segments[..n], cohorts, size);
      DensestDescends(segments[..n], cohorts);
      PlaceStable(segments[n], sorted, cohorts, size);
      OfSizeLast(segments, cohorts, size);
    }
  }

  /** Largest first: a permutation of the segments, sizes not increasing, equal sizes in their old order. */
  lemma DensestSorts(segments: seq<string>, cohorts: map<string, seq<Link>>)
    requires forall s :: s in segments ==> s in cohorts
    ensures multiset(Densest(segments, cohorts)) == multiset(segments)
    ensures SizesDescend(Densest(segments, cohorts), cohorts)
    ensures forall size: nat ::
              OfSize(Densest(segments, cohorts), cohorts, size) == OfSize(segments, cohorts, size)
  {
    DensestPermutes(segments, cohorts);
    DensestDescends(segments, cohorts);
    forall size: nat ensures OfSize(Densest(segments, cohorts), cohorts, size) == OfSize(segments, cohorts, size) {
      DensestStable(segments, cohorts, size);
    }
  }

  // ---------------------------------------------------------------- what the fetched pages add up to

  /** The lists of the crawl. */
  datatype Lists = Lists(urls: seq<Link>, queue: seq<Link>, candidates: seq<Link>)

  /** What the anchors of an HTML page add to the lists. */
  ghost function Gathered(site: Site, seen: set<Link>, start: Lists, anchors: seq<Link>, isPhp: bool): Lists {
    var products, leads := Keep(anchors, IsProduct(site)), Keep(anchors, IsLead(site, seen));
    Lists(start.urls + Limit(products, MAX_URLS - |start.urls|),
          start.queue + (if isPhp && |seen| < MAX_SEEN then leads else []),
          start.candidates + (if isPhp then [] else Limit(leads, MAX_CANDIDATES - |start.candidates|)))
  }

  lemma GatherNext(site: Site, seen: set<Link>, start: Lists, anchors: seq<Link>, n: nat, isPhp: bool)
    requires n < |anchors| && |start.urls| <= MAX_URLS && |start.candidates| <= MAX_CANDIDATES
    ensures var before, after :=
              Gathered(site, seen, start, anchors[..n], isPhp), Gathered(site, seen, start, anchors[..n + 1], isPhp);
            var u, lead := anchors[n], IsLead(site, seen)(anchors[n]);
            && after.urls == before.urls + (if IsProduct(site)(u) && |before.urls| < MAX_URLS then [u] else [])
            && after.queue == before.queue + (if isPhp && |seen| < MAX_SEEN && lead then [u] else [])
            && after.candidates ==
               before.candidates + (if !isPhp && lead && |before.candidates| < MAX_CANDIDATES then [u] else [])
  {
    TakeStep(start.urls, anchors, n, IsProduct(site), MAX_URLS - |start.urls|);
    KeepMore(start.queue, anchors, n, IsLead(site, seen));
    TakeStep(start.candidates, anchors, n, IsLead(site, seen), MAX_CANDIDATES - |start.candidates|);
  }

  /**
   The listings of a leaf, to be visited as pages. With 20 URLs seen the loop still pushes, at most, the
   first one that looks like a listing, and none of them is ever visited.
   */
  function Requeued(site: Site, seen: set<Link>, locs: seq<Link>): seq<Link> {
    if |seen| < MAX_SEEN then Keep(locs, IsListing(site, seen))
    else Keep(Limit(Keep(locs, LooksListing(site, seen)), 1), IsOnSite(site))
  }

  /** The first link that looks like a listing decides when no more URLs may be seen. */
  lemma FirstLooks(site: Site, seen: set<Link>, locs: seq<Link>, n: nat)
    requires |seen| >= MAX_SEEN && n < |locs|
    requires Keep(locs[..n], LooksListing(site, seen)) == [] && LooksListing(site, seen)(locs[n])
    ensures Requeued(site, seen, locs) == if OnSite(site, locs[n]) then [locs[n]] else []
  {
    var looks := Keep(locs, LooksListing(site, seen));
    KeepStep(locs, n, LooksListing(site, seen));
    KeepPrefix(locs, n + 1, LooksListing(site, seen));
    assert looks[..1] == [locs[n]];
    assert Limit(looks, 1) == [locs[n]];
    KeepOne(locs[n], IsOnSite(site));
  }

  lemma KeepOne(link: Link, test: Link -> bool)
    ensures Keep([link], test) == if test(link) then [link] else []
  {
    assert [link][..0] == [];
  }

  lemma NoneLooks(site: Site, seen: set<Link>, locs: seq<Link>)
    requires |seen| >= MAX_SEEN && Keep(locs, LooksListing(site, seen)) == []
    ensures Requeued(site, seen, locs) == []
  {
  }

  /** What one page adds to the lists of a crawl that has seen `seen`, this page included. */
  ghost function Absorbed(site: Site, url: Link, page: Page, seen: set<Link>, start: Lists): Lists {
    if IsHtml(site, url, page) then Gathered(site, seen, start, page.anchors, site.isPhpEntry(url))
    else if IsIndex(site, url, page) then start.(queue := start.queue + Children(site, page.locs))
    else
      var taken := Limit(Keep(page.locs, IsOnSite(site)), MAX_URLS - |start.urls|);
      Lists(start.urls + taken,
            start.queue + (if Keep(taken, IsProduct(site)) == [] then Requeued(site, seen, page.locs) else []),
            start.candidates)
  }

  function SetOf(links: seq<Link>): set<Link> {
    set l | l in links
  }

  /** The first XML entry that could not be fetched, which has the PHP entry tried instead. */
  ghost predicate FallsBack(site: Site, fetched: seq<Link>)
    requires fetched != []
  {
    var n := |fetched| - 1;
    && site.fetch(fetched[n]).None? && site.isXmlEntry(fetched[n]) && !MissedXml(site, fetched[..n])
  }

  ghost predicate MissedXml(site: Site, fetched: seq<Link>) {
    exists i :: 0 <= i < |fetched| && site.isXmlEntry(fetched[i]) && site.fetch(fetched[i]).None?
  }

  /** What a crawl that has fetched these pages, in this order, has collected; `queue` is all it ever queued. */
  ghost function Collected(site: Site, fetched: seq<Link>): Lists {
    if fetched == [] then Lists([], [site.sitemapXml], [])
    else
      var n := |fetched| - 1;
      var earlier, page := Collected(site, fetched[..n]), site.fetch(fetched[n]);
      if page.Some? then Absorbed(site, fetched[n], page.value, SetOf(fetched), earlier)
      else if FallsBack(site, fetched) then earlier.(queue := earlier.queue + [site.sitemapPhp])
      else earlier
  }

  /** The cohorts, and their segments in the order first met. */
  datatype Cohorts = Cohorts(order: seq<string>, of: map<string, seq<Link>>)

  /** A sub-floor URL joins the cohort of its first path segment. */
  function GroupOne(site: Site, c: Cohorts, u: Link): Cohorts {
    var segment := site.segment(u);
    if !OnSite(site, u) || site.score(u) >= 3 || site.nonProduct(u) || segment.None? then c
    else Cohorts(if segment.value in c.of then c.order else c.order + [segment.value],
                 c.of[segment.value := CohortOf(c.of, segment.value) + [u]])
  }

  function GroupAll(site: Site, c: Cohorts, locs: seq<Link>): Cohorts {
    if locs == [] then c else GroupOne(site, GroupAll(site, c, locs[..|locs| - 1]), locs[|locs| - 1])
  }

  /** Only the URLs of a leaf sitemap are grouped. */
  function PageCohorts(site: Site, url: Link, page: Page, c: Cohorts): Cohorts {
    if IsHtml(site, url, page) || IsIndex(site, url, page) then c else GroupAll(site, c, page.locs)
  }

  /** The cohorts of a crawl that has fetched these pages. */
  ghost function CohortsOf(site: Site, fetched: seq<Link>): Cohorts {
    if fetched == [] then Cohorts([], map[])
    else
      var n := |fetched| - 1;
      var earlier, page := CohortsOf(site, fetched[..n]), site.fetch(fetched[n]);
      if page.Some? then PageCohorts(site, fetched[n], page.value, earlier) else earlier
  }

  lemma GroupNext(site: Site, c: Cohorts, locs: seq<Link>, n: nat)
    requires n < |locs|
    ensures GroupAll(site, c, locs[..n + 1]) == GroupOne(site, GroupAll(site, c, locs[..n]), locs[n])
  {
    assert locs[..n + 1][..n] == locs[..n];
  }

  lemma GroupOneMeans(site: Site, c: Cohorts, u: Link, segment: string)
    ensures CohortOf(GroupOne(site, c, u).of, segment) ==
            CohortOf(c.of, segment) + (if IsMember(site, segment)(u) then [u] else [])
  {
  }

  /** Each cohort gains exactly its members, in order. */
  lemma {:induction false} GroupAllMeans(site: Site, c: Cohorts, locs: seq<Link>, segment: string)
    ensures CohortOf(GroupAll(site, c, locs).of, segment) ==
            CohortOf(c.of, segment) + Keep(locs, IsMember(site, segment))
  {
    if locs != [] {
      var n := |locs| - 1;
      GroupAllMeans(site, c, locs[..n], segment);
      GroupOneMeans(site, GroupAll(site, c, locs[..n]), locs[n], segment);
    }
  }

  /** The members of a cohort among the URLs of the leaf sitemaps fetched. */
  ghost function CohortFrom(site: Site, fetched: seq<Link>, segment: string): seq<Link> {
    if fetched == [] then []
    else
      var n := |fetched| - 1;
      var page := site.fetch(fetched[n]);
      CohortFrom(site, fetched[..n], segment) +
      (if page.Some? && !IsHtml(site, fetched[n], page.value) && !IsIndex(site, fetched[n], page.value)
       then Keep(page.value.locs, IsMember(site, segment)) else [])
  }

  /** The cohort of a segment holds its members among all the leaf sitemaps fetched. */
  lemma {:induction false} CohortsMean(site: Site, fetched: seq<Link>, segment: string)
    ensures CohortOf(CohortsOf(site, fetched).of, segment) == CohortFrom(site, fetched, segment)
  {
    if fetched != [] {
      var n := |fetched| - 1;
      var page := site.fetch(fetched[n]);
      CohortsMean(site, fetched[..n], segment);
      if page.Some? {
        GroupAllMeans(site, CohortsOf(site, fetched[..n]), page.value.locs, segment);
      }
    }
  }

  /** What the page adds goes to the end of the queue, whatever the queue holds. */
  lemma AbsorbedQueue(site: Site, url: Link, page: Page, seen: set<Link>, start: Lists, queue: seq<Link>)
    ensures var a, b := Absorbed(site, url, page, seen, start), Absorbed(site, url, page, seen, start.(queue := queue));
            && a.urls == b.urls && a.candidates == b.candidates
            && start.queue <= a.queue && b.queue == queue + a.queue[|start.queue|..]
  {
  }

  ghost predicate AllHarvested(site: Site, fetched: seq<Link>, urls: seq<Link>, candidates: seq<Link>,
                               queue: seq<Link>, seen: set<Link>)
  {
    forall u :: u in fetched && site.fetch(u).Some? ==>
      Harvested(site, u, site.fetch(u).value, urls, candidates, queue, seen)
  }

  /** Collecting more, and moving URLs from the queue to the visited set, keeps pages harvested. */
  lemma StillHarvested(site: Site, fetched: seq<Link>,
                       urls: seq<Link>, candidates: seq<Link>, queue: seq<Link>, seen: set<Link>,
                       urls': seq<Link>, candidates': seq<Link>, queue': seq<Link>, seen': set<Link>)
    requires AllHarvested(site, fetched, urls, candidates, queue, seen)
    requires urls <= urls' && candidates <= candidates' && seen <= seen' && |seen| <= |seen'|
    requires forall l :: l in queue ==> l in queue' || l in seen'
    ensures AllHarvested(site, fetched, urls', candidates', queue', seen')
  {
    forall l | l in urls ensures l in urls' { assert urls' == urls + urls'[|urls|..]; }
    forall l | l in candidates ensures l in candidates' {
      assert candidates' == candidates + candidates'[|candidates|..];
    }
  }

  /** What is kept but not taken finds the room used up. */
  lemma {:induction false} TakenOrFull(start: seq<Link>, links: seq<Link>, test: Link -> bool, max: nat)
    requires |start| <= max
    ensures var r := start + Limit(Keep(links, test), max - |start|);
            start <= r && forall l :: l in links && test(l) ==> l in r || |r| >= max
  {
    KeepMeans(links, test);
  }

  lemma AnchorsHarvested(site: Site, seen: set<Link>, url: Link, page: Page, start: Lists)
    requires IsHtml(site, url, page) && |start.urls| <= MAX_URLS && |start.candidates| <= MAX_CANDIDATES
    ensures var r := Gathered(site, seen, start, page.anchors, site.isPhpEntry(url));
            && start.urls <= r.urls && start.queue <= r.queue && start.candidates <= r.candidates
            && Harvested(site, url, page, r.urls, r.candidates, r.queue, seen)
  {
    TakenOrFull(start.urls, page.anchors, IsProduct(site), MAX_URLS);
    TakenOrFull(start.candidates, page.anchors, IsLead(site, seen), MAX_CANDIDATES);
    KeepMeans(page.anchors, IsLead(site, seen));
  }

  lemma {:induction false} NothingKept(links: seq<Link>, test: Link -> bool)
    requires forall l :: l in links ==> !test(l)
    ensures Keep(links, test) == []
  {
    if links != [] {
      NothingKept(links[..|links| - 1], test);
    }
  }

  lemma NoneTaken(site: Site, locs: seq<Link>, room: int)
    requires forall l :: l in locs ==> !IsProduct(site)(l)
    ensures Keep(Limit(Keep(locs, IsOnSite(site)), room), IsProduct(site)) == []
  {
    var onSite := Keep(locs, IsOnSite(site));
    KeepMeans(locs, IsOnSite(site));
    assert forall l :: l in Limit(onSite, room) ==> l in onSite;
    NothingKept(Limit(onSite, room), IsProduct(site));
  }

  lemma LeafHarvested(site: Site, seen: set<Link>, url: Link, page: Page, start: Lists)
    requires !IsHtml(site, url, page) && !IsIndex(site, url, page) && |start.urls| <= MAX_URLS
    ensures var r := Absorbed(site, url, page, seen, start);
            && start.urls <= r.urls && start.queue <= r.queue && start.candidates <= r.candidates
            && Harvested(site, url, page, r.urls, r.candidates, r.queue, seen)
  {
    TakenOrFull(start.urls, page.locs, IsOnSite(site), MAX_URLS);
    KeepMeans(page.locs, IsListing(site, seen));
    if forall l :: l in page.locs ==> !IsProduct(site)(l) {
      NoneTaken(site, page.locs, MAX_URLS - |start.urls|);
    }
  }

  /** What a page adds harvests it. */
  lemma PageHarvested(site: Site, seen: set<Link>, url: Link, page: Page, start: Lists)
    requires |start.urls| <= MAX_URLS && |start.candidates| <= MAX_CANDIDATES
    ensures var r := Absorbed(site, url, page, seen, start);
            && start.urls <= r.urls && start.queue <= r.queue && start.candidates <= r.candidates
            && |r.urls| <= MAX_URLS && |r.candidates| <= MAX_CANDIDATES
            && Harvested(site, url, page, r.urls, r.candidates, r.queue, seen)
  {
    if IsHtml(site, url, page) {
      AnchorsHarvested(site, seen, url, page, start);
    } else if !IsIndex(site, url, page) {
      LeafHarvested(site, seen, url, page, start);
    }
  }

  lemma CollectedStep(site: Site, fetched: seq<Link>)
    requires fetched != []
    requires var c := Collected(site, fetched[..|fetched| - 1]);
             |c.urls| <= MAX_URLS && |c.candidates| <= MAX_CANDIDATES
    ensures var b, c := Collected(site, fetched[..|fetched| - 1]), Collected(site, fetched);
            && b.urls <= c.urls && b.queue <= c.queue && b.candidates <= c.candidates
            && |c.urls| <= MAX_URLS && |c.candidates| <= MAX_CANDIDATES
            && (site.fetch(fetched[|fetched| - 1]).Some? ==>
                  Harvested(site, fetched[|fetched| - 1], site.fetch(fetched[|fetched| - 1]).value,
                            c.urls, c.candidates, c.queue, SetOf(fetched)))
  {
    var n := |fetched| - 1;
    if site.fetch(fetched[n]).Some? {
      PageHarvested(site, SetOf(fetched), fetched[n], site.fetch(fetched[n]).value, Collected(site, fetched[..n]));
    }
  }

  lemma SubsetSize(a: set<Link>, b: set<Link>)
    requires a <= b
    ensures |a| <= |b|
  {
    assert b == a + (b - a);
  }

  /** Every page fetched has been harvested: what it offers is collected, or queued, up to the caps. */
  lemma {:induction false} CollectedHarvests(site: Site, fetched: seq<Link>)
    ensures var c := Collected(site, fetched);
            && |c.urls| <= MAX_URLS && |c.candidates| <= MAX_CANDIDATES
            && AllHarvested(site, fetched, c.urls, c.candidates, c.queue, SetOf(fetched))
  {
    if fetched != [] {
      var n := |fetched| - 1;
      var init, b, c := fetched[..n], Collected(site, fetched[..n]), Collected(site, fetched);
      CollectedHarvests(site, init);
      CollectedStep(site, fetched);
      assert fetched == init + [fetched[n]];
      SubsetSize(SetOf(init), SetOf(fetched));
      forall l | l in b.queue ensures l in c.queue { assert c.queue == b.queue + c.queue[|b.queue|..]; }
      StillHarvested(site, init, b.urls, b.candidates, b.queue, SetOf(init),
                     c.urls, c.candidates, c.queue, SetOf(fetched));
    }
  }

  /** What was queued is taken from the front: the queue is the rest, and each URL is fetched when first met. */
  ghost predicate InOrder(queued: seq<Link>, taken: nat, fetched: seq<Link>, queue: seq<Link>) {
    taken <= |queued| && queue == queued[taken..] && fetched == Dedupe(queued[..taken])
  }

  lemma DedupeNext(links: seq<Link>, n: nat)
    requires n < |links|
    ensures Dedupe(links[..n + 1]) ==
            Dedupe(links[..n]) + (if links[n] in Dedupe(links[..n]) then [] else [links[n]])
  {
    assert links[..n + 1][..n] == links[..n];
  }

  /** A URL met again is dropped. */
  lemma SkipInOrder(queued: seq<Link>, taken: nat, fetched: seq<Link>, queue: seq<Link>)
    requires InOrder(queued, taken, fetched, queue) && queue != [] && queue[0] in fetched
    ensures InOrder(queued, taken + 1, fetched, queue[1..])
  {
    DedupeNext(queued, taken);
  }

  /** A URL met for the first time is fetched, and what follows from it is queued at the end. */
  lemma FetchInOrder(queued: seq<Link>, taken: nat, fetched: seq<Link>, queue: seq<Link>, more: seq<Link>)
    requires InOrder(queued, taken, fetched, queue) && queue != [] && queue[0] !in fetched
    ensures InOrder(queued + more, taken + 1, fetched + [queue[0]], queue[1..] + more)
  {
    DedupeNext(queued, taken);
    assert (queued + more)[..taken + 1] == queued[..taken + 1];
    assert (queued + more)[taken + 1..] == queued[taken + 1..] + more;
  }

  /** Everything queued has been visited or waits in the queue. */
  lemma NothingDropped(queued: seq<Link>, taken: nat, fetched: seq<Link>, queue: seq<Link>)
    requires InOrder(queued, taken, fetched, queue)
    ensures forall l :: l in queued <==> l in fetched || l in queue
  {
    DedupeMeans(queued[..taken]);
    assert queued == queued[..taken] + queued[taken..];
  }

  /**
   A crawl that has come to its end: it began with the XML entry, fetched what was queued in its order and
   no URL twice, and stopped because a fetch failed for good, nothing was left or 20 URLs had been seen.
   */
  ghost predicate Finished(site: Site, fetched: seq<Link>, taken: nat, l: Lists, cohorts: Cohorts) {
    && fetched != [] && fetched[0] == site.sitemapXml && |fetched| <= MAX_SEEN && NoTwice(fetched)
    && AddsUp(site, fetched, taken, l) && cohorts == CohortsOf(site, fetched)
    && (GaveUp(site, fetched) || (Survives(site, fetched) && (l.queue == [] || |fetched| == MAX_SEEN)))
  }

  /**
   What a finished crawl has done: everything queued was visited or is still queued, the PHP entry too if
   the XML entry was missed, and every page fetched has been harvested up to the caps.
   */
  lemma FinishedMeans(site: Site, fetched: seq<Link>, taken: nat, l: Lists, cohorts: Cohorts)
    requires Seeded(site) && Finished(site, fetched, taken, l, cohorts)
    ensures forall x :: x in Collected(site, fetched).queue <==> x in fetched || x in l.queue
    ensures site.fetch(site.sitemapXml).None? ==> site.sitemapPhp in fetched || site.sitemapPhp in l.queue
    ensures AllHarvested(site, fetched, l.urls, l.candidates, l.queue, SetOf(fetched))
    ensures forall s :: CohortOf(cohorts.of, s) == CohortFrom(site, fetched, s)
  {
    EntriesQueued(site, fetched);
    NothingDropped(Collected(site, fetched).queue, taken, fetched, l.queue);
    OrderHarvests(site, fetched, taken, l.queue);
    assert site.fetch(site.sitemapXml).None? ==> MissedXml(site, fetched);
    forall s ensures CohortOf(cohorts.of, s) == CohortFrom(site, fetched, s) {
      CohortsMean(site, fetched, s);
    }
  }

  /** In the end every page fetched is harvested by what was collected and what is still queued. */
  lemma OrderHarvests(site: Site, fetched: seq<Link>, taken: nat, queue: seq<Link>)
    requires InOrder(Collected(site, fetched).queue, taken, fetched, queue)
    ensures var c := Collected(site, fetched);
            AllHarvested(site, fetched, c.urls, c.candidates, queue, SetOf(fetched))
  {
    var c := Collected(site, fetched);
    CollectedHarvests(site, fetched);
    NothingDropped(c.queue, taken, fetched, queue);
    StillHarvested(site, fetched, c.urls, c.candidates, c.queue, SetOf(fetched),
                   c.urls, c.candidates, queue, SetOf(fetched));
  }

  lemma DedupeFirst(links: seq<Link>)
    requires links != []
    ensures Dedupe(links) != [] && Dedupe(links)[0] == links[0]
  {
    if |links| > 1 {
      DedupeFirst(links[..|links| - 1]);
    }
  }

  /** The XML entry is the first URL queued, and the PHP entry is queued once an XML entry has been missed. */
  lemma {:induction false} EntriesQueued(site: Site, fetched: seq<Link>)
    ensures var q := Collected(site, fetched).queue;
            q != [] && q[0] == site.sitemapXml && (MissedXml(site, fetched) ==> site.sitemapPhp in q)
  {
    if fetched != [] {
      var n := |fetched| - 1;
      EntriesQueued(site, fetched[..n]);
      CollectedHarvests(site, fetched[..n]);
      CollectedStep(site, fetched);
      var b, c := Collected(site, fetched[..n]).queue, Collected(site, fetched).queue;
      assert c == b + c[|b|..];
      MissedStep(site, fetched[..n], fetched[n]);
      assert fetched == fetched[..n] + [fetched[n]];
    }
  }

  lemma XmlFirst(site: Site, fetched: seq<Link>, taken: nat, queue: seq<Link>)
    requires InOrder(Collected(site, fetched).queue, taken, fetched, queue) && (fetched == [] ==> queue == [])
    ensures fetched != [] && fetched[0] == site.sitemapXml
  {
    var q := Collected(site, fetched).queue;
    EntriesQueued(site, fetched);
    assert q[0..] == q && q[..0] == [];
    DedupeFirst(q[..taken]);
  }

  lemma MissedStep(site: Site, fetched: seq<Link>, url: Link)
    ensures MissedXml(site, fetched + [url]) <==>
            MissedXml(site, fetched) || (site.isXmlEntry(url) && site.fetch(url).None?)
  {
    var more := fetched + [url];
    if MissedXml(site, fetched) {
      var i :| 0 <= i < |fetched| && site.isXmlEntry(fetched[i]) && site.fetch(fetched[i]).None?;
      assert more[i] == fetched[i];
    }
    if site.isXmlEntry(url) && site.fetch(url).None? {
      assert more[|fetched|] == url;
    }
  }

  /** Every fetch that failed was answered by falling back to the PHP entry. */
  ghost predicate Survives(site: Site, fetched: seq<Link>) {
    forall i :: 0 <= i < |fetched| && site.fetch(fetched[i]).None? ==> FallsBack(site, fetched[..i + 1])
  }

  /** The last fetch failed and there was nothing to fall back to. */
  ghost predicate GaveUp(site: Site, fetched: seq<Link>) {
    && fetched != [] && Survives(site, fetched[..|fetched| - 1])
    && site.fetch(fetched[|fetched| - 1]).None? && !FallsBack(site, fetched)
  }

  lemma SurvivesStep(site: Site, fetched: seq<Link>, url: Link)
    requires Survives(site, fetched) && (site.fetch(url).Some? || FallsBack(site, fetched + [url]))
    ensures Survives(site, fetched + [url])
  {
    var more := fetched + [url];
    forall i | 0 <= i < |more| && site.fetch(more[i]).None? ensures FallsBack(site, more[..i + 1]) {
      if i < |fetched| {
        assert more[..i + 1] == fetched[..i + 1];
      } else {
        assert more[..i + 1] == more;
      }
    }
  }

  /** The lists are what these pages add up to, `taken` URLs having been taken off the queue. */
  ghost predicate AddsUp(site: Site, fetched: seq<Link>, taken: nat, l: Lists) {
    var c := Collected(site, fetched);
    l.urls == c.urls && l.candidates == c.candidates && InOrder(c.queue, taken, fetched, l.queue)
  }

  // ---------------------------------------------------------------- fetch by fetch

  /** The state of the crawl, its `queue` being all that was ever queued. */
  datatype Total = Total(lists: Lists, cohorts: Cohorts, fellBack: bool)

  /** One fetch: what its page adds, or the fallback if there is no page and it is still to be used. */
  ghost function AfterFetch(site: Site, url: Link, seen: set<Link>, t: Total): Total {
    var page := site.fetch(url);
    if page.Some?
    then
      Total(Absorbed(site, url, page.value, seen, t.lists), PageCohorts(site, url, page.value, t.cohorts), t.fellBack)
    else if !t.fellBack && site.isXmlEntry(url)
    then Total(t.lists.(queue := t.lists.queue + [site.sitemapPhp]), t.cohorts, true)
    else t
  }

  ghost predicate StepAt(site: Site, fetched: seq<Link>, totals: seq<Total>, i: nat)
    requires i < |fetched| && |totals| == |fetched| + 1
  {
    totals[i + 1] == AfterFetch(site, fetched[i], SetOf(fetched[..i + 1]), totals[i])
  }

  /** The states of the crawl before each of these fetches and after the last. */
  ghost predicate Steps(site: Site, fetched: seq<Link>, totals: seq<Total>) {
    && |totals| == |fetched| + 1
    && totals[0] == Total(Lists([], [site.sitemapXml], []), Cohorts([], map[]), false)
    && forall i {:trigger StepAt(site, fetched, totals, i)} :: 0 <= i < |fetched| ==> StepAt(site, fetched, totals, i)
  }

  lemma StepsMore(site: Site, fetched: seq<Link>, totals: seq<Total>, url: Link)
    requires Steps(site, fetched, totals)
    ensures Steps(site, fetched + [url],
                  totals + [AfterFetch(site, url, SetOf(fetched + [url]), totals[|fetched|])])
  {
    var f := fetched + [url];
    var t := totals + [AfterFetch(site, url, SetOf(f), totals[|fetched|])];
    forall i | 0 <= i < |f| ensures StepAt(site, f, t, i) {
      if i < |fetched| {
        assert StepAt(site, fetched, totals, i);
        assert f[..i + 1] == fetched[..i + 1];
      } else {
        assert f[..i + 1] == f;
      }
    }
  }

  /** The last state is what the fetched pages add up to. */
  lemma {:induction false} StepsMean(site: Site, fetched: seq<Link>, totals: seq<Total>)
    requires Steps(site, fetched, totals)
    ensures totals[|fetched|] == Total(Collected(site, fetched), CohortsOf(site, fetched), MissedXml(site, fetched))
    decreases |fetched|
  {
    if fetched != [] {
      var n := |fetched| - 1;
      var init, before := fetched[..n], totals[..n + 1];
      forall i | 0 <= i < n ensures StepAt(site, init, before, i) {
        assert StepAt(site, fetched, totals, i);
        assert init[..i + 1] == fetched[..i + 1];
      }
      StepsMean(site, init, before);
      assert StepAt(site, fetched, totals, n) && fetched[..n + 1] == fetched && fetched == init + [fetched[n]];
      MissedStep(site, init, fetched[n]);
    }
  }

  /** After a miss the crawl goes on only if it falls back. */
  lemma MissMeans(site: Site, fetched: seq<Link>, totals: seq<Total>, url: Link)
    requires Steps(site, fetched, totals) && Survives(site, fetched) && site.fetch(url).None?
    ensures if !totals[|fetched|].fellBack && site.isXmlEntry(url) then Survives(site, fetched + [url])
            else GaveUp(site, fetched + [url])
  {
    StepsMean(site, fetched, totals);
    assert (fetched + [url])[..|fetched|] == fetched;
    if !totals[|fetched|].fellBack && site.isXmlEntry(url) {
      SurvivesStep(site, fetched, url);
    }
  }

  /** The page of the front of the queue has arrived. */
  lemma PageOrder(site: Site, fetched: seq<Link>, url: Link, page: Page, seen: set<Link>, start: Lists, taken: nat,
                  queue: seq<Link>)
    requires InOrder(start.queue, taken, fetched, [url] + queue) && url !in fetched
    ensures var all := Absorbed(site, url, page, seen, start);
            var now := Absorbed(site, url, page, seen, start.(queue := queue));
            && now.urls == all.urls && now.candidates == all.candidates
            && InOrder(all.queue, taken + 1, fetched + [url], now.queue)
  {
    assert ([url] + queue)[1..] == queue;
    AbsorbedQueue(site, url, page, seen, start, queue);
    var more := Absorbed(site, url, page, seen, start).queue[|start.queue|..];
    FetchInOrder(start.queue, taken, fetched, [url] + queue, more);
  }

  /** It has not arrived. */
  lemma MissOrder(queued: seq<Link>, fetched: seq<Link>, url: Link, taken: nat, queue: seq<Link>, more: seq<Link>)
    requires InOrder(queued, taken, fetched, [url] + queue) && url !in fetched
    ensures InOrder(queued + more, taken + 1, fetched + [url], queue + more)
    ensures InOrder(queued, taken + 1, fetched + [url], queue)
  {
    assert ([url] + queue)[1..] == queue && queued + [] == queued && queue + [] == queue;
    FetchInOrder(queued, taken, fetched, [url] + queue, more);
    FetchInOrder(queued, taken, fetched, [url] + queue, []);
  }

  /** The URL was visited before. */
  lemma SkipOrder(queued: seq<Link>, fetched: seq<Link>, url: Link, taken: nat, queue: seq<Link>)
    requires InOrder(queued, taken, fetched, [url] + queue) && url in fetched
    ensures InOrder(queued, taken + 1, fetched, queue)
  {
    assert ([url] + queue)[1..] == queue;
    SkipInOrder(queued, taken, fetched, [url] + queue);
  }

  lemma DenseStep(start: seq<Link>, order: seq<string>, n: nat, cohorts: map<string, seq<Link>>, room: nat)
    requires n < |order|
    ensures var before, cohort := DenseLinks(order[..n], cohorts), CohortOf(cohorts, order[n]);
            start + Limit(DenseLinks(order[..n + 1], cohorts), room) ==
              if |cohort| < DENSE_COHORT then start + Limit(before, room)
              else start + Limit(before, room) + Limit(cohort, room - |Limit(before, room)|)
  {
    assert order[..n + 1][..n] == order[..n];
    AppendLimit(start, DenseLinks(order[..n], cohorts), CohortOf(cohorts, order[n]), room);
  }

  lemma AppendLimit(start: seq<Link>, before: seq<Link>, cohort: seq<Link>, room: nat)
    ensures start + Limit(before + cohort, room) ==
            start + Limit(before, room) + Limit(cohort, room - |Limit(before, room)|)
  {
  }

  ghost function Elements(log: seq<Link>): set<Link> {
    if log == [] then {} else Elements(log[..|log| - 1]) + {log[|log| - 1]}
  }

  lemma {:induction false} ElementsOf(log: seq<Link>)
    ensures |Elements(log)| <= |log| && Elements(log) == set l | l in log
  {
    if log != [] {
      var n := |log| - 1;
      ElementsOf(log[..n]);
      assert log == log[..n] + [log[n]];
    }
  }

  lemma PresentAddsNothing(some: set<Link>, l: Link)
    ensures l in some ==> some + {l} == some
  {
  }

  ghost predicate NoTwice(log: seq<Link>) {
    forall i, j :: 0 <= i < j < |log| ==> log[i] != log[j]
  }

  lemma LastIsNew(log: seq<Link>)
    requires log != [] && log[|log| - 1] !in log[..|log| - 1] && NoTwice(log[..|log| - 1])
    ensures NoTwice(log)
  {
    var init := log[..|log| - 1];
    assert log == init + [log[|log| - 1]];
  }

  /** A list as long as the set of its elements has no repeats. */
  lemma {:induction false} DistinctElements(log: seq<Link>)
    requires |Elements(log)| == |log|
    ensures NoTwice(log)
  {
    if log != [] {
      var n := |log| - 1;
      ElementsOf(log[..n]);
      PresentAddsNothing(Elements(log[..n]), log[n]);
      assert log[n] !in Elements(log[..n]);
      DistinctElements(log[..n]);
      LastIsNew(log);
    }
  }

  lemma LogGrows(log: seq<Link>, elements: set<Link>, link: Link)
    requires elements == (set l | l in log) && link !in elements
    ensures elements + {link} == (set l | l in log + [link]) && |elements + {link}| == |elements| + 1
  {
  }

  lemma DistinctLog(log: seq<Link>, elements: set<Link>)
    requires elements == (set l | l in log) && |elements| == |log|
    ensures NoTwice(log)
  {
    ElementsOf(log);
    DistinctElements(log);
  }
}
