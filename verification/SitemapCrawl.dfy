/**
 `collectSitemapUrls`: a crawl whose queue grows while it runs, proved against what `SitemapPages` says
 the pages it fetched contribute.
 */
module SitemapCrawl {
  import opened Common
  import opened SitemapPages

  class Crawler {
    const site: Site
    var queue: seq<Link>
    var seen: set<Link>
    var fetched: seq<Link>
    var urls: seq<Link>
    var candidates: seq<Link>
    var prequalified: set<Link>
    var segments: seq<string>
    var cohorts: map<string, seq<Link>>
    var htmlFallbackDone: bool
    var discoveryFetches: nat
    ghost var shifted: nat          // how many URLs have been taken off the queue
    ghost var totals: seq<Total>    // the states before each fetch and after the last

    /** What holds before and after every step of the crawl. */
    ghost predicate Valid()
      reads this
    {
      && Seeded(site)
      && AllOnSite(site, queue) && AllOnSite(site, fetched) && AllOnSite(site, urls) && AllOnSite(site, candidates)
      && Fetches()
      && |urls| <= MAX_URLS && |candidates| <= MAX_CANDIDATES
      && prequalified == SetOf(candidates)
      && CohortsOnSite() && SegmentsDistinct()
    }

    ghost predicate SegmentsDistinct()
      reads this
    {
      forall i, j :: 0 <= i < j < |segments| ==> segments[i] != segments[j]
    }

    /** The log of fetches is the set of URLs seen, each once. */
    ghost predicate Fetches()
      reads this
    {
      && seen == SetOf(fetched)
      && |seen| == |fetched| <= MAX_SEEN
      && discoveryFetches <= |fetched|
    }

    ghost predicate CohortsOnSite()
      reads this
    {
      && (forall s :: s in segments <==> s in cohorts)
      && (forall s :: s in cohorts ==> AllOnSite(site, cohorts[s]))
    }

    ghost function Groups(): Cohorts
      reads this
    {
      Cohorts(segments, cohorts)
    }

    /** Lists, cohorts and fallback are those of the last state; `pending` is its queue now. */
    ghost predicate Shows(t: Total, fetched: seq<Link>, taken: nat, pending: seq<Link>)
      reads this
    {
      && urls == t.lists.urls && candidates == t.lists.candidates && Groups() == t.cohorts
      && htmlFallbackDone == t.fellBack && InOrder(t.lists.queue, taken, fetched, pending)
    }

    /** The crawl has come here fetch by fetch, and the queue is what is left of all that was queued. */
    ghost predicate Tracked()
      reads this
    {
      Steps(site, fetched, totals) && Shows(totals[|fetched|], fetched, shifted, queue)
    }

    /** The same before `url` was taken off the queue, with these pages fetched. */
    ghost predicate TrackedBefore(earlier: seq<Link>, url: Link)
      reads this
    {
      shifted > 0 && Steps(site, earlier, totals) && Shows(totals[|earlier|], earlier, shifted - 1, [url] + queue)
    }

    /** `url` has been taken off the queue and fetched, and its answer is still to be used. */
    ghost predicate Awaits(earlier: seq<Link>, url: Link)
      reads this
    {
      fetched == earlier + [url] && url !in earlier && seen == SetOf(fetched) && TrackedBefore(earlier, url)
    }

    constructor (site: Site)
      requires Seeded(site)
      ensures Valid() && Tracked() && this.site == site && fetched == []
    {
      this.site := site;
      queue := [site.sitemapXml];
      seen, fetched, urls, candidates, prequalified := {}, [], [], [], {};
      segments, cohorts := [], map[];
      htmlFallbackDone, discoveryFetches, shifted := false, 0, 0;
      totals := [Total(Lists([], [site.sitemapXml], []), Cohorts([], map[]), false)];
    }

    /** An HTML sitemap or listing page: product links, further pages to visit, candidates. */
    method HarvestAnchors(anchors: seq<Link>, isPhp: bool)
      requires Valid()
      modifies this`urls, this`queue, this`candidates, this`prequalified
      ensures Valid()
      ensures Lists(urls, queue, candidates) ==
              Gathered(site, seen, Lists(old(urls), old(queue), old(candidates)), anchors, isPhp)
    {
      ghost var start := Lists(urls, queue, candidates);
      assert anchors[..0] == [];
      for n := 0 to |anchors|
        invariant Valid()
        invariant Lists(urls, queue, candidates) == Gathered(site, seen, start, anchors[..n], isPhp)
      {
        GatherNext(site, seen, start, anchors, n, isPhp);
        HarvestAnchor(anchors[n], isPhp);
      }
      assert anchors[..|anchors|] == anchors;
    }

    /** One anchor. */
    method HarvestAnchor(u: Link, isPhp: bool)
      requires Valid()
      modifies this`urls, this`queue, this`candidates, this`prequalified
      ensures Valid()
      ensures urls == old(urls) + (if IsProduct(site)(u) && |old(urls)| < MAX_URLS then [u] else [])
      ensures queue == old(queue) + (if isPhp && |seen| < MAX_SEEN && IsLead(site, seen)(u) then [u] else [])
      ensures candidates == old(candidates) +
                            (if !isPhp && IsLead(site, seen)(u) && |old(candidates)| < MAX_CANDIDATES then [u] else [])
    {
      if !OnSite(site, u) { return; }
      if site.score(u) >= 3 {
        if |urls| < MAX_URLS {
          urls := urls + [u];
        }
        return;
      }
      if site.nonProduct(u) || u in seen { return; }
      if site.isPhpEntry(u) || !site.directoryLike(u) { return; }
      if isPhp {
        if |seen| < MAX_SEEN {
          queue := queue + [u];
        }
      } else if |candidates| < MAX_CANDIDATES {
        prequalified := prequalified + {u};
        candidates := candidates + [u];
      }
    }

    /** The index of a sitemap: its first children are queued. */
    method QueueChildren(locs: seq<Link>)
      requires Valid()
      modifies this`queue
      ensures Valid()
      ensures queue == old(queue) + Children(site, locs)
    {
      var children := Limit(Keep(locs, site.isXmlChild), MAX_CHILDREN);
      assert children[..0] == [];
      for n := 0 to |children|
        invariant Valid()
        invariant queue == old(queue) + Keep(children[..n], IsOnSite(site))
      {
        KeepMore(old(queue), children, n, IsOnSite(site));
        if OnSite(site, children[n]) {
          Queue(children[n]);
        }
      }
      assert children[..|children|] == children;
    }

    /** The URLs of a leaf sitemap; `floorHits` counts those that pass the product floor. */
    method TakeUrls(locs: seq<Link>) returns (floorHits: nat)
      requires Valid()
      modifies this`urls
      ensures Valid()
      ensures var taken := Limit(Keep(locs, IsOnSite(site)), MAX_URLS - |old(urls)|);
              urls == old(urls) + taken && floorHits == |Keep(taken, IsProduct(site))|
    {
      ghost var room: nat := MAX_URLS - |urls|;
      ghost var taken: seq<Link> := [];
      floorHits := 0;
      assert locs[..0] == [];
      for n := 0 to |locs|
        invariant Valid()
        invariant taken == Limit(Keep(locs[..n], IsOnSite(site)), room)
        invariant urls == old(urls) + taken && floorHits == |Keep(taken, IsProduct(site))|
      {
        if |urls| >= MAX_URLS {
          KeepPrefix(locs, n, IsOnSite(site));
          LimitFull(Keep(locs[..n], IsOnSite(site)), Keep(locs, IsOnSite(site)), room);
          return;
        }
        TakenStep(site, locs, n, room);
        if !OnSite(site, locs[n]) { continue; }
        AppendOne(old(urls), taken, locs[n]);
        TakeUrl(locs[n]);
        taken := taken + [locs[n]];
        if site.score(locs[n]) >= 3 {
          floorHits := floorHits + 1;
        }
      }
      assert locs[..|locs|] == locs;
    }

    method TakeUrl(u: Link)
      requires Valid() && OnSite(site, u) && |urls| < MAX_URLS
      modifies this`urls
      ensures Valid() && urls == old(urls) + [u]
    {
      urls := urls + [u];
    }

    method Queue(u: Link)
      requires Valid() && OnSite(site, u)
      modifies this`queue
      ensures Valid() && queue == old(queue) + [u]
    {
      queue := queue + [u];
    }

    /** Sub-floor URLs are grouped by their first path segment. */
    method GroupCohorts(locs: seq<Link>)
      requires Valid()
      modifies this`segments, this`cohorts
      ensures Valid() && Groups() == GroupAll(site, old(Groups()), locs)
      ensures forall s :: CohortOf(cohorts, s) == CohortOf(old(cohorts), s) + Keep(locs, IsMember(site, s))
    {
      assert locs[..0] == [];
      for n := 0 to |locs|
        invariant Valid() && Groups() == GroupAll(site, old(Groups()), locs[..n])
      {
        GroupNext(site, old(Groups()), locs, n);
        GroupLink(locs[n]);
      }
      assert locs[..|locs|] == locs;
      forall s ensures CohortOf(cohorts, s) == CohortOf(old(cohorts), s) + Keep(locs, IsMember(site, s)) {
        GroupAllMeans(site, old(Groups()), locs, s);
      }
    }

    /** One URL. */
    method GroupLink(u: Link)
      requires Valid()
      modifies this`segments, this`cohorts
      ensures Valid() && Groups() == GroupOne(site, old(Groups()), u)
    {
      if !OnSite(site, u) || site.score(u) >= 3 || site.nonProduct(u) { return; }
      var segment := site.segment(u);
      if segment.None? { return; }
      if segment.value !in cohorts {
        segments := segments + [segment.value];
      }
      cohorts := cohorts[segment.value := CohortOf(cohorts, segment.value) + [u]];
    }

    /** No URL passed the floor: listing-like URLs are visited as pages instead. */
    method RequeueListings(locs: seq<Link>)
      requires Valid()
      modifies this`queue
      ensures Valid()
      ensures queue == old(queue) + Requeued(site, seen, locs)
    {
      assert locs[..0] == [];
      for n := 0 to |locs|
        invariant Valid()
        invariant if |seen| < MAX_SEEN then queue == old(queue) + Keep(locs[..n], IsListing(site, seen))
                  else queue == old(queue) && Keep(locs[..n], LooksListing(site, seen)) == []
      {
        var u := locs[n];
        KeepMore(old(queue), locs, n, IsListing(site, seen));
        KeepStep(locs, n, LooksListing(site, seen));
        if u in seen || site.nonProduct(u) { continue; }
        if !site.directoryLike(u) { continue; }
        if OnSite(site, u) {
          Queue(u);
        }
        if |seen| >= MAX_SEEN {
          FirstLooks(site, seen, locs, n);
          return;
        }
      }
      assert locs[..|locs|] == locs;
      if |seen| >= MAX_SEEN {
        NoneLooks(site, seen, locs);
      }
    }

    /**
     The crawl itself; it terminates although its body adds to the queue. What it has collected is what
     the pages it fetched add up to, and it ends as `Finished` says.
     */
    method Crawl()
      requires Valid() && Tracked() && fetched == []
      modifies this
      ensures Valid() && Finished(site, fetched, shifted, Lists(urls, queue, candidates), Groups())
    {
      var goOn := true;
      while goOn && queue != [] && |seen| < MAX_SEEN && discoveryFetches <= MAX_DISCOVERY_FETCHES
        invariant Valid() && Tracked()
        invariant if goOn then Survives(site, fetched) else GaveUp(site, fetched)
        decreases MAX_SEEN - |seen|, |queue|
      {
        goOn := Turn();
      }
      DistinctLog(fetched, seen);
      StepsMean(site, fetched, totals);
      XmlFirst(site, fetched, shifted, queue);
    }

    /** One turn of the loop; it is the last if a fetch failed for good. */
    method Turn() returns (goOn: bool)
      requires Valid() && Tracked() && Survives(site, fetched) && queue != [] && |seen| < MAX_SEEN
      modifies this
      ensures Valid() && Tracked()
      ensures if goOn then Survives(site, fetched) else GaveUp(site, fetched)
      ensures |seen| > |old(seen)| || (|seen| == |old(seen)| && |queue| < |old(queue)|)
    {
      ghost var earlier := fetched;
      var url, unseen := Advance();
      if !unseen { return true; }
      var page := site.fetch(url);
      if page.None? {
        goOn := Miss(earlier, url);
      } else {
        UsePage(earlier, url, page.value);
        goOn := true;
      }
    }

    /** A fetch that failed: the PHP entry is tried after the first miss of an XML entry, and nothing else. */
    method Miss(ghost earlier: seq<Link>, url: Link) returns (goOn: bool)
      requires Valid() && Awaits(earlier, url) && site.fetch(url).None? && Survives(site, earlier)
      modifies this`queue, this`htmlFallbackDone, this`totals
      ensures Valid() && Tracked()
      ensures if goOn then Survives(site, fetched) else GaveUp(site, fetched)
    {
      ghost var t := totals[|earlier|];
      StepsMore(site, earlier, totals, url);
      MissOrder(t.lists.queue, earlier, url, shifted - 1, queue, [site.sitemapPhp]);
      MissMeans(site, earlier, totals, url);
      goOn := !htmlFallbackDone && site.isXmlEntry(url);
      if goOn {
        FallBack();
      }
      totals := totals + [AfterFetch(site, url, seen, t)];
    }

    method UsePage(ghost earlier: seq<Link>, url: Link, page: Page)
      requires Valid() && Awaits(earlier, url) && site.fetch(url) == Some(page) && Survives(site, earlier)
      requires discoveryFetches < |fetched|
      modifies this`queue, this`urls, this`candidates, this`prequalified, this`segments, this`cohorts,
               this`discoveryFetches, this`totals
      ensures Valid() && Tracked() && Survives(site, fetched)
    {
      ghost var t := totals[|earlier|];
      StepsMore(site, earlier, totals, url);
      PageOrder(site, earlier, url, page, seen, t.lists, shifted - 1, queue);
      SurvivesStep(site, earlier, url);
      Digest(url, page);
      totals := totals + [AfterFetch(site, url, seen, t)];
    }

    /** Takes the next URL off the queue, and fetches it unless it has been seen. */
    method Advance() returns (url: Link, unseen: bool)
      requires Valid() && Tracked() && queue != [] && |seen| < MAX_SEEN
      modifies this`queue, this`seen, this`fetched, this`shifted
      ensures Valid()
      ensures !unseen ==> Tracked() && fetched == old(fetched) && seen == old(seen) && |queue| < |old(queue)|
      ensures unseen ==> Awaits(old(fetched), url) && |seen| == |old(seen)| + 1 && discoveryFetches < |fetched|
    {
      url := Shift();
      unseen := url !in seen;
      if unseen {
        Visit(url);
      } else {
        SkipOrder(totals[|fetched|].lists.queue, fetched, url, shifted - 1, queue);
      }
    }

    method Shift() returns (url: Link)
      requires Valid() && Tracked() && queue != []
      modifies this`queue, this`shifted
      ensures Valid() && TrackedBefore(fetched, url) && OnSite(site, url) && |queue| < |old(queue)|
    {
      url := queue[0];
      assert queue == [url] + queue[1..];
      queue := queue[1..];
      shifted := shifted + 1;
    }

    /** Marks a URL as seen; `fetched` records that it is fetched now. */
    method Visit(url: Link)
      requires Valid() && OnSite(site, url) && url !in seen && |seen| < MAX_SEEN
      modifies this`seen, this`fetched
      ensures Valid() && fetched == old(fetched) + [url] && seen == SetOf(fetched) && |seen| == |old(seen)| + 1
      ensures discoveryFetches < |fetched|
    {
      LogGrows(fetched, seen, url);
      seen := seen + {url};
      fetched := fetched + [url];
    }

    method FallBack()
      requires Valid()
      modifies this`queue, this`htmlFallbackDone
      ensures Valid() && queue == old(queue) + [site.sitemapPhp] && htmlFallbackDone
    {
      htmlFallbackDone := true;
      queue := queue + [site.sitemapPhp];
    }

    /** What one fetched page adds. */
    method Digest(url: Link, page: Page)
      requires Valid() && discoveryFetches < |fetched|
      modifies this`queue, this`urls, this`candidates, this`prequalified, this`segments, this`cohorts,
               this`discoveryFetches
      ensures Valid()
      ensures Lists(urls, queue, candidates) ==
              Absorbed(site, url, page, seen, Lists(old(urls), old(queue), old(candidates)))
      ensures Groups() == PageCohorts(site, url, page, old(Groups()))
    {
      if page.locs == [] {
        discoveryFetches := discoveryFetches + 1;
      }
      Absorb(url, page);
    }

    /** The four ways to use a page. */
    method Absorb(url: Link, page: Page)
      requires Valid()
      modifies this`queue, this`urls, this`candidates, this`prequalified, this`segments, this`cohorts
      ensures Valid()
      ensures Lists(urls, queue, candidates) ==
              Absorbed(site, url, page, seen, Lists(old(urls), old(queue), old(candidates)))
      ensures Groups() == PageCohorts(site, url, page, old(Groups()))
    {
      if page.locs == [] && (site.isPhpEntry(url) || !site.namesXml(url)) {
        HarvestAnchors(page.anchors, site.isPhpEntry(url));
        return;
      }
      if exists l :: l in page.locs && site.isXmlChild(l) {
        QueueChildren(page.locs);
      } else {
        AbsorbLeaf(url, page);
      }
    }

    /** A leaf sitemap. */
    method AbsorbLeaf(url: Link, page: Page)
      requires Valid() && !IsHtml(site, url, page) && !IsIndex(site, url, page)
      modifies this`queue, this`urls, this`segments, this`cohorts
      ensures Valid()
      ensures Lists(urls, queue, candidates) ==
              Absorbed(site, url, page, seen, Lists(old(urls), old(queue), old(candidates)))
      ensures Groups() == PageCohorts(site, url, page, old(Groups()))
    {
      var floorHits := TakeUrls(page.locs);
      if page.locs != [] {
        GroupCohorts(page.locs);
        if floorHits == 0 {
          RequeueListings(page.locs);
        }
      }
    }

    /** After the crawl, the cohorts of 200 and more join the candidates, up to the pool's limit. */
    method AdmitCohorts()
      requires Valid()
      modifies this`candidates, this`prequalified
      ensures AllOnSite(site, candidates) && prequalified == SetOf(candidates)
      ensures candidates == old(candidates) +
                Limit(DenseLinks(Densest(segments, cohorts), cohorts), MAX_POOL - |urls| - |old(candidates)|)
    {
      var order := Densest(segments, cohorts);
      ghost var room: nat := MAX_POOL - |urls| - |candidates|;
      assert order[..0] == [];
      for n := 0 to |order|
        invariant CohortsOnSite() && AllOnSite(site, candidates)
        invariant prequalified == SetOf(candidates)
        invariant candidates == old(candidates) + Limit(DenseLinks(order[..n], cohorts), room)
      {
        AdmitNext(order, n, old(candidates), room);
      }
      assert order[..|order|] == order;
    }

    method AdmitNext(order: seq<string>, n: nat, ghost start: seq<Link>, ghost room: nat)
      requires n < |order| && order[n] in cohorts && AllOnSite(site, cohorts[order[n]]) && AllOnSite(site, candidates)
      requires prequalified == SetOf(candidates)
      requires |urls| + |start| + room == MAX_POOL
      requires candidates == start + Limit(DenseLinks(order[..n], cohorts), room)
      modifies this`candidates, this`prequalified
      ensures AllOnSite(site, candidates) && prequalified == SetOf(candidates)
      ensures candidates == start + Limit(DenseLinks(order[..n + 1], cohorts), room)
    {
      var cohort := cohorts[order[n]];
      DenseStep(start, order, n, cohorts, room);
      if |cohort| >= DENSE_COHORT {
        AdmitCohort(cohort, DenseLinks(order[..n], cohorts), room);
      }
    }

    /** One dense cohort; `before` are the dense links offered so far and `room` the room there was. */
    method AdmitCohort(cohort: seq<Link>, ghost before: seq<Link>, ghost room: nat)
      requires AllOnSite(site, cohort) && AllOnSite(site, candidates)
      requires prequalified == SetOf(candidates)
      requires |urls| + |candidates| == MAX_POOL - room + |Limit(before, room)|
      modifies this`candidates, this`prequalified
      ensures AllOnSite(site, candidates) && prequalified == SetOf(candidates)
      ensures candidates == old(candidates) + Limit(cohort, room - |Limit(before, room)|)
    {
      ghost var left: nat := room - |Limit(before, room)|;
      for k := 0 to |cohort|
        invariant AllOnSite(site, candidates) && prequalified == SetOf(candidates)
        invariant k <= left && candidates == old(candidates) + cohort[..k]
      {
        if |urls| + |candidates| >= MAX_POOL { break; }
        prequalified := prequalified + {cohort[k]};
        candidates := candidates + [cohort[k]];
      }
      assert cohort[..|cohort|] == cohort;
    }

    /**
     The whole collection: at most 20 fetches, of distinct URLs of the seed's own site, in the order they
     were queued; at most 1000 distinct URLs returned, all of that site, exactly those the fetched pages
     add up to, with every prequalified URL among them; and nothing missing that a fetched page offered,
     unless a cap was reached. The discovery guard of the loop never decides, because it counts a subset
     of the URLs seen.
     */
    method Collect() returns (r: seq<Link>, ghost found: seq<Link>)
      requires Valid() && Tracked() && fetched == []
      modifies this
      ensures CohortsOnSite() && AllOnSite(site, fetched)
      ensures Finished(site, fetched, shifted, Lists(urls, queue, found), Groups())
      ensures candidates == found +
                Limit(DenseLinks(Densest(segments, cohorts), cohorts), MAX_POOL - |urls| - |found|)
      ensures r == Dedupe(urls + candidates) && |r| <= MAX_POOL && AllOnSite(site, r) && NoTwice(r)
      ensures prequalified == SetOf(candidates) && forall l :: l in r <==> l in urls || l in candidates
      ensures discoveryFetches <= MAX_DISCOVERY_FETCHES
    {
      Crawl();
      found := candidates;
      r := Pool();
    }

    /** Everything collected, each URL once. */
    method Pool() returns (r: seq<Link>)
      requires Valid()
      modifies this`candidates, this`prequalified
      ensures CohortsOnSite()
      ensures candidates == old(candidates) +
                Limit(DenseLinks(Densest(segments, cohorts), cohorts), MAX_POOL - |urls| - |old(candidates)|)
      ensures r == Dedupe(urls + candidates) && |r| <= MAX_POOL && AllOnSite(site, r) && NoTwice(r)
      ensures prequalified == SetOf(candidates) && forall l :: l in r <==> l in urls || l in candidates
    {
      AdmitCohorts();
      DedupeMeans(urls + candidates);
      r := Dedupe(urls + candidates);
    }
  }
}
