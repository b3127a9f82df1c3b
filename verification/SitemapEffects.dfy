/**
 What a finished crawl holds, link by link: which links of which fetched pages are collected, visited or
 grouped, under which caps, and that nothing else is.
 */
module SitemapEffects {
  import opened Common
  import opened SitemapPages

  // ---------------------------------------------------------------- the pages

  /** A page without `<loc>` entries that is not an XML file. */
  ghost predicate HtmlPage(site: Site, url: Link, page: Page) {
    site.fetch(url) == Some(page) && page.locs == [] && (site.isPhpEntry(url) || !site.namesXml(url))
  }

  ghost predicate IndexPage(site: Site, url: Link, page: Page) {
    && site.fetch(url) == Some(page) && !HtmlPage(site, url, page)
    && exists k :: 0 <= k < |page.locs| && site.isXmlChild(page.locs[k])
  }

  ghost predicate LeafPage(site: Site, url: Link, page: Page) {
    site.fetch(url) == Some(page) && !HtmlPage(site, url, page) && !IndexPage(site, url, page)
  }

  lemma KindsExactly(site: Site, url: Link, page: Page)
    requires site.fetch(url) == Some(page)
    ensures HtmlPage(site, url, page) <==> IsHtml(site, url, page)
    ensures IndexPage(site, url, page) <==> IsIndex(site, url, page)
  {
    if k :| 0 <= k < |page.locs| && site.isXmlChild(page.locs[k]) {
      assert page.locs[k] in page.locs;
    }
    if l :| l in page.locs && site.isXmlChild(l) {
      var k :| 0 <= k < |page.locs| && page.locs[k] == l;
    }
  }

  /** On the site, below the product floor and like a directory: a listing, or a candidate. */
  ghost predicate DirectoryBelowFloor(site: Site, l: Link) {
    && l.site == Some(site.root) && site.score(l) < 3 && !site.nonProduct(l) && !site.isPhpEntry(l)
    && site.directoryLike(l)
  }

  // ---------------------------------------------------------------- nothing is missed

  /** Every product link of a fetched page is collected while there are fewer than 600. */
  lemma ProductsCollected(site: Site, fetched: seq<Link>, taken: nat, l: Lists, cohorts: Cohorts, url: Link, page: Page,
                          link: Link)
    requires Seeded(site) && Finished(site, fetched, taken, l, cohorts) && url in fetched
    requires link.site == Some(site.root)
    requires (HtmlPage(site, url, page) && link in page.anchors && site.score(link) >= 3)
             || (LeafPage(site, url, page) && link in page.locs)
    ensures link in l.urls || |l.urls| >= 600
  {
    FinishedMeans(site, fetched, taken, l, cohorts);
    KindsExactly(site, url, page);
    assert Harvested(site, url, page, l.urls, l.candidates, l.queue, SetOf(fetched));
    if HtmlPage(site, url, page) {
      assert IsProduct(site)(link);
    }
  }

  /** A directory link below the floor is visited, or waits, if a PHP sitemap shows it, else it is a candidate. */
  lemma DirectoriesFollowed(site: Site, fetched: seq<Link>, taken: nat, l: Lists, cohorts: Cohorts, url: Link,
                            page: Page, link: Link)
    requires Seeded(site) && Finished(site, fetched, taken, l, cohorts) && url in fetched
    requires HtmlPage(site, url, page) && link in page.anchors && DirectoryBelowFloor(site, link)
    requires link !in fetched
    ensures site.isPhpEntry(url) ==> link in l.queue || |fetched| >= 20
    ensures !site.isPhpEntry(url) ==> link in l.candidates || |l.candidates| >= 400
  {
    FinishedMeans(site, fetched, taken, l, cohorts);
    KindsExactly(site, url, page);
    SeenSize(fetched);
    assert Harvested(site, url, page, l.urls, l.candidates, l.queue, SetOf(fetched));
    assert IsLead(site, SetOf(fetched))(link);
  }

  lemma SeenSize(fetched: seq<Link>)
    ensures |SetOf(fetched)| <= |fetched|
  {
    ElementsOf(fetched);
  }

  /** The number of XML files among the first `k` entries. */
  ghost function XmlBefore(site: Site, locs: seq<Link>, k: nat): set<nat> {
    set j: nat | j < k && j < |locs| && site.isXmlChild(locs[j])
  }

  lemma XmlStep(site: Site, locs: seq<Link>, k: nat)
    requires k < |locs|
    ensures |XmlBefore(site, locs, k + 1)| == |XmlBefore(site, locs, k)| + (if site.isXmlChild(locs[k]) then 1 else 0)
  {
    var before, after := XmlBefore(site, locs, k), XmlBefore(site, locs, k + 1);
    if site.isXmlChild(locs[k]) {
      assert after == before + {k};
      assert k !in before;
    } else {
      assert after == before;
    }
  }

  lemma {:induction false} KeptCount(site: Site, locs: seq<Link>, k: nat)
    requires k <= |locs|
    ensures |Keep(locs[..k], site.isXmlChild)| == |XmlBefore(site, locs, k)|
  {
    if k == 0 {
      assert XmlBefore(site, locs, 0) == {};
    } else {
      KeptCount(site, locs, k - 1);
      KeepStep(locs, k - 1, site.isXmlChild);
      XmlStep(site, locs, k - 1);
    }
  }

  lemma FirstKept(site: Site, locs: seq<Link>, k: nat)
    requires k < |locs| && site.isXmlChild(locs[k]) && |XmlBefore(site, locs, k)| < 15
    ensures locs[k] in Limit(Keep(locs, site.isXmlChild), 15)
  {
    var all, before := Keep(locs, site.isXmlChild), Keep(locs[..k], site.isXmlChild);
    KeptCount(site, locs, k);
    KeepStep(locs, k, site.isXmlChild);
    KeepPrefix(locs, k + 1, site.isXmlChild);
    assert all[|before|] == (before + [locs[k]])[|before|] == locs[k];
    var limit := Limit(all, 15);
    assert limit[|before|] == locs[k];
  }

  /** The first fifteen XML files of a sitemap index that are on the site are visited, or wait. */
  lemma ChildrenFollowed(site: Site, fetched: seq<Link>, taken: nat, l: Lists, cohorts: Cohorts, url: Link, page: Page,
                         k: nat)
    requires Seeded(site) && Finished(site, fetched, taken, l, cohorts) && url in fetched
    requires IndexPage(site, url, page) && k < |page.locs| && site.isXmlChild(page.locs[k])
    requires page.locs[k].site == Some(site.root) && |XmlBefore(site, page.locs, k)| < 15
    ensures page.locs[k] in fetched || page.locs[k] in l.queue
  {
    FinishedMeans(site, fetched, taken, l, cohorts);
    KindsExactly(site, url, page);
    FirstKept(site, page.locs, k);
    KeepMeans(Limit(Keep(page.locs, site.isXmlChild), 15), IsOnSite(site));
    assert page.locs[k] in Children(site, page.locs);
    assert Harvested(site, url, page, l.urls, l.candidates, l.queue, SetOf(fetched));
  }

  /** A leaf sitemap without a product link has its listings visited instead, while fewer than 20 URLs are seen. */
  lemma ListingsFollowed(site: Site, fetched: seq<Link>, taken: nat, l: Lists, cohorts: Cohorts, url: Link, page: Page,
                         link: Link)
    requires Seeded(site) && Finished(site, fetched, taken, l, cohorts) && url in fetched
    requires LeafPage(site, url, page) && link in page.locs && link.site == Some(site.root) && link !in fetched
    requires !site.nonProduct(link) && site.directoryLike(link)
    requires forall x :: x in page.locs && x.site == Some(site.root) ==> site.score(x) < 3
    ensures link in l.queue || |fetched| >= 20
  {
    FinishedMeans(site, fetched, taken, l, cohorts);
    KindsExactly(site, url, page);
    SeenSize(fetched);
    assert Harvested(site, url, page, l.urls, l.candidates, l.queue, SetOf(fetched));
    assert forall x :: x in page.locs ==> !IsProduct(site)(x);
    assert IsListing(site, SetOf(fetched))(link);
  }

  // ---------------------------------------------------------------- nothing else is taken

  ghost predicate OffersUrl(site: Site, url: Link, link: Link) {
    && site.fetch(url).Some? && link.site == Some(site.root)
    && var page := site.fetch(url).value;
    || (HtmlPage(site, url, page) && link in page.anchors && site.score(link) >= 3)
    || (LeafPage(site, url, page) && link in page.locs)
  }

  ghost predicate OffersCandidate(site: Site, url: Link, link: Link) {
    && site.fetch(url).Some? && !site.isPhpEntry(url) && DirectoryBelowFloor(site, link)
    && HtmlPage(site, url, site.fetch(url).value) && link in site.fetch(url).value.anchors
  }

  lemma LimitIsPrefix(links: seq<Link>, room: int)
    ensures Limit(links, room) <= links
    ensures |Limit(links, room)| == if |links| <= room then |links| else if room <= 0 then 0 else room
    ensures forall l :: l in Limit(links, room) ==> l in links
  {
  }

  /** What one page adds was offered by it. */
  lemma PageAdds(site: Site, url: Link, page: Page, seen: set<Link>, start: Lists, link: Link)
    requires site.fetch(url) == Some(page)
    ensures var r := Absorbed(site, url, page, seen, start);
            && (link in r.urls ==> link in start.urls || OffersUrl(site, url, link))
            && (link in r.candidates ==> link in start.candidates || OffersCandidate(site, url, link))
  {
    KindsExactly(site, url, page);
    KeepMeans(page.anchors, IsProduct(site));
    KeepMeans(page.anchors, IsLead(site, seen));
    KeepMeans(page.locs, IsOnSite(site));
    LimitIsPrefix(Keep(page.anchors, IsProduct(site)), MAX_URLS - |start.urls|);
    LimitIsPrefix(Keep(page.anchors, IsLead(site, seen)), MAX_CANDIDATES - |start.candidates|);
    LimitIsPrefix(Keep(page.locs, IsOnSite(site)), MAX_URLS - |start.urls|);
  }

  /** Every collected URL, and every candidate, was offered by a page that was fetched. */
  lemma {:induction false} CollectedOffered(site: Site, fetched: seq<Link>, link: Link)
    ensures link in Collected(site, fetched).urls ==> exists u :: u in fetched && OffersUrl(site, u, link)
    ensures link in Collected(site, fetched).candidates ==> exists u :: u in fetched && OffersCandidate(site, u, link)
  {
    if fetched != [] {
      var n := |fetched| - 1;
      CollectedOffered(site, fetched[..n], link);
      if site.fetch(fetched[n]).Some? {
        PageAdds(site, fetched[n], site.fetch(fetched[n]).value, SetOf(fetched), Collected(site, fetched[..n]), link);
      }
      assert fetched == fetched[..n] + [fetched[n]];
    }
  }

  /** The lists hold at most 600 URLs and 400 candidates, all of them offered by a fetched page. */
  lemma ListsExactly(site: Site, fetched: seq<Link>, taken: nat, l: Lists, cohorts: Cohorts)
    requires Finished(site, fetched, taken, l, cohorts)
    ensures |fetched| <= 20 && fetched[0] == site.sitemapXml
    ensures forall i, j :: 0 <= i < j < |fetched| ==> fetched[i] != fetched[j]
    ensures |l.urls| <= 600 && |l.candidates| <= 400
    ensures forall x :: x in l.urls ==> exists u :: u in fetched && OffersUrl(site, u, x)
    ensures forall x :: x in l.candidates ==> exists u :: u in fetched && OffersCandidate(site, u, x)
  {
    CollectedHarvests(site, fetched);
    forall x | x in l.urls ensures exists u :: u in fetched && OffersUrl(site, u, x) {
      CollectedOffered(site, fetched, x);
    }
    forall x | x in l.candidates ensures exists u :: u in fetched && OffersCandidate(site, u, x) {
      CollectedOffered(site, fetched, x);
    }
  }

  // ---------------------------------------------------------------- cohorts and the pool

  ghost predicate OffersMember(site: Site, url: Link, segment: string, link: Link) {
    && site.fetch(url).Some? && LeafPage(site, url, site.fetch(url).value) && link in site.fetch(url).value.locs
    && link.site == Some(site.root) && site.score(link) < 3 && !site.nonProduct(link)
    && site.segment(link) == Some(segment)
  }

  /** What the page at `url` adds to a cohort. */
  ghost function Joins(site: Site, url: Link, segment: string): seq<Link> {
    var page := site.fetch(url);
    if page.Some? && !IsHtml(site, url, page.value) && !IsIndex(site, url, page.value)
    then Keep(page.value.locs, IsMember(site, segment)) else []
  }

  lemma JoinsExactly(site: Site, url: Link, segment: string, link: Link)
    ensures link in Joins(site, url, segment) <==> OffersMember(site, url, segment, link)
  {
    var page := site.fetch(url);
    if page.Some? {
      KindsExactly(site, url, page.value);
      KeepMeans(page.value.locs, IsMember(site, segment));
    }
  }

  lemma {:induction false} JoinedExactly(site: Site, fetched: seq<Link>, segment: string, link: Link)
    ensures link in CohortFrom(site, fetched, segment) <==>
            exists u :: u in fetched && link in Joins(site, u, segment)
  {
    if fetched != [] {
      var n := |fetched| - 1;
      JoinedExactly(site, fetched[..n], segment, link);
      assert CohortFrom(site, fetched, segment) ==
             CohortFrom(site, fetched[..n], segment) + Joins(site, fetched[n], segment);
      assert forall u :: u in fetched <==> u in fetched[..n] || u == fetched[n];
    }
  }

  /** A cohort is the sub-floor URLs of the fetched leaf sitemaps under one first path segment. */
  lemma CohortExactly(site: Site, fetched: seq<Link>, segment: string, link: Link)
    ensures link in CohortOf(CohortsOf(site, fetched).of, segment) <==>
            exists u :: u in fetched && OffersMember(site, u, segment, link)
  {
    CohortsMean(site, fetched, segment);
    JoinedExactly(site, fetched, segment, link);
    forall u ensures link in Joins(site, u, segment) <==> OffersMember(site, u, segment, link) {
      JoinsExactly(site, u, segment, link);
    }
  }

  ghost predicate DenseMember(order: seq<string>, cohorts: map<string, seq<Link>>, link: Link) {
    exists s :: s in order && s in cohorts && |cohorts[s]| >= 200 && link in cohorts[s]
  }

  /** The links admitted after the crawl are those of the cohorts with at least 200. */
  lemma {:induction false} DenseExactly(order: seq<string>, cohorts: map<string, seq<Link>>, link: Link)
    ensures link in DenseLinks(order, cohorts) <==> DenseMember(order, cohorts, link)
  {
    if order != [] {
      var n := |order| - 1;
      DenseExactly(order[..n], cohorts, link);
      assert order == order[..n] + [order[n]];
      if s :| s in order[..n] && s in cohorts && |cohorts[s]| >= 200 && link in cohorts[s] {
        assert s in order;
      }
    }
  }

  /** They join the candidates until URLs and candidates together are a thousand. */
  lemma PoolExactly(urls: seq<Link>, found: seq<Link>, segments: seq<string>, cohorts: map<string, seq<Link>>,
                    candidates: seq<Link>)
    requires (forall s :: s in segments ==> s in cohorts) && |urls| <= 600 && |found| <= 400
    requires candidates == found + Limit(DenseLinks(Densest(segments, cohorts), cohorts), 1000 - |urls| - |found|)
    ensures |urls| + |candidates| <= 1000 && found <= candidates
    ensures forall l :: l in candidates ==> l in found || DenseMember(segments, cohorts, l)
    ensures forall l :: DenseMember(segments, cohorts, l) ==> l in candidates || |urls| + |candidates| == 1000
  {
    var order := Densest(segments, cohorts);
    var dense, room := DenseLinks(order, cohorts), 1000 - |urls| - |found|;
    LimitIsPrefix(dense, room);
    DensestSorts(segments, cohorts);
    forall l ensures l in dense <==> DenseMember(segments, cohorts, l) {
      DenseExactly(order, cohorts, l);
      forall s ensures s in order <==> s in segments {
        assert s in order <==> s in multiset(order);
        assert s in segments <==> s in multiset(segments);
      }
    }
  }

  /** Repeats are dropped, the first of them stays in its place. */
  lemma DedupeExactly(links: seq<Link>, link: Link)
    ensures Dedupe([]) == []
    ensures Dedupe(links + [link]) == if link in links then Dedupe(links) else Dedupe(links) + [link]
  {
    assert (links + [link])[..|links|] == links;
    DedupeMeans(links);
  }

  /** A kept link stays in its place. */
  lemma KeepExactly(links: seq<Link>, link: Link, test: Link -> bool)
    ensures Keep([], test) == []
    ensures Keep(links + [link], test) == if test(link) then Keep(links, test) + [link] else Keep(links, test)
  {
    assert (links + [link])[..|links|] == links;
  }
}
