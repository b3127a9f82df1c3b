/**
 The product identity of a URL: the pairwise test `sameProductUrl` and the key
 `canonicalProductUrlKey` that replaces it in set lookups. Parsing is not modelled: an
 unparseable URL is `None`.
 */
module UrlIdentity {
  import opened Common

  datatype Url = Url(scheme: string, host: string, path: string)

  function LowerChar(c: char): char {
    if 'A' <= c <= 'Z' then c + 32 as char else c
  }

  function Lower(s: string): (r: string)
    ensures |r| == |s|
  {
    seq(|s|, i requires 0 <= i < |s| => LowerChar(s[i]))
  }

  /** Apex and `www.` spellings of a host are one site. */
  function SiteRoot(host: string): string {
    Lower(if |host| >= 4 && Lower(host[..4]) == "www." then host[4..] else host)
  }

  predicate SameSite(a: Url, b: Url) {
    SiteRoot(a.host) == SiteRoot(b.host)
  }

  /** `path.replace(/\/$/, '')`: one trailing slash goes, and only one. */
  function StripSlash(path: string): string {
    if path != "" && path[|path| - 1] == '/' then path[..|path| - 1] else path
  }

  predicate SameProduct(a: Option<Url>, b: Option<Url>) {
    a.Some? && b.Some? && SameSite(a.value, b.value) && StripSlash(a.value.path) == StripSlash(b.value.path)
  }

  function Key(url: Url): string {
    SiteRoot(url.host) + StripSlash(url.path)
  }

  function CanonicalKey(url: Option<Url>): Option<string> {
    if url.Some? then Some(Key(url.value)) else None
  }

  /** An unparseable URL has no key and is not excluded. */
  predicate IsExcluded(url: Option<Url>, byUrl: set<string>) {
    var key := CanonicalKey(url);
    key.Some? && key.value in byUrl
  }

  /** What the URL standard guarantees with an authority: no slash in the host; the path starts with one or is empty. */
  predicate Hierarchical(url: Url) {
    '/' !in url.host && (url.path == "" || url.path[0] == '/')
  }

  /** A URL without authority, like `mailto:name`: the host is empty and the path is anything. */
  predicate Hostless(url: Url) {
    url.host == ""
  }

  predicate Standard(url: Url) {
    Hierarchical(url) || Hostless(url)
  }

  lemma LowerKeepsSlash(s: string)
    requires '/' !in s
    ensures '/' !in Lower(s)
  {
    forall i | 0 <= i < |s| ensures Lower(s)[i] != '/' {
      assert s[i] in s;
    }
  }

  lemma RootHasNoSlash(url: Url)
    requires Hierarchical(url)
    ensures '/' !in SiteRoot(url.host)
  {
    LowerKeepsSlash(url.host);
    if |url.host| >= 4 {
      LowerKeepsSlash(url.host[4..]);
    }
  }

  /** A longer root would hold the first character of the other path, a slash. */
  lemma LongerHoldsSlash(r: string, p: string, s: string, q: string)
    requires |r| < |s| && r + p == s + q && (p == "" || p[0] == '/')
    ensures '/' in s
  {
    assert (r + p)[|r|] == (s + q)[|r|] == s[|r|];
  }

  lemma NotLonger(r: string, p: string, s: string, q: string)
    requires '/' !in s && r + p == s + q && (p == "" || p[0] == '/')
    ensures |s| <= |r|
  {
    if |r| < |s| {
      LongerHoldsSlash(r, p, s, q);
      assert false;
    }
  }

  lemma SplitUnique(r: string, p: string, s: string, q: string)
    requires '/' !in r && '/' !in s
    requires p == "" || p[0] == '/'
    requires q == "" || q[0] == '/'
    requires r + p == s + q
    ensures r == s && p == q
  {
    NotLonger(r, p, s, q);
    NotLonger(s, q, r, p);
    assert (r + p)[..|r|] == r && (s + q)[..|s|] == s;
    assert (r + p)[|r|..] == p && (s + q)[|s|..] == q;
  }

  /** An opaque path spells out the host and the path of a page. */
  predicate Spells(bare: Url, page: Url) {
    Hostless(bare) && SiteRoot(page.host) != "" && StripSlash(bare.path) == Key(page)
  }

  /** The two URLs share a key and are different products. */
  predicate Collides(a: Url, b: Url) {
    Spells(a, b) || Spells(b, a)
  }

  lemma EmptyRoot()
    ensures SiteRoot("") == ""
  {
  }

  lemma HostlessKey(url: Url)
    requires Hostless(url)
    ensures Key(url) == StripSlash(url.path) && SiteRoot(url.host) == ""
  {
    EmptyRoot();
    assert "" + StripSlash(url.path) == StripSlash(url.path);
  }

  lemma HierarchicalKey(a: Url, b: Url)
    requires Hierarchical(a) && Hierarchical(b) && Key(a) == Key(b)
    ensures SameProduct(Some(a), Some(b))
  {
    RootHasNoSlash(a);
    RootHasNoSlash(b);
    SplitUnique(SiteRoot(a.host), StripSlash(a.path), SiteRoot(b.host), StripSlash(b.path));
  }

  /** A hostless URL against any other: the same site exactly when the other has no site either. */
  lemma HostlessAgainst(a: Url, b: Url)
    requires Hostless(a)
    ensures Key(a) == Key(b) <==> SameProduct(Some(a), Some(b)) || Spells(a, b)
    ensures !(SameProduct(Some(a), Some(b)) && Spells(a, b))
  {
    HostlessKey(a);
    if SiteRoot(b.host) == "" {
      assert "" + StripSlash(b.path) == StripSlash(b.path);
    }
  }

  /** What equal keys mean for any two URLs: the same product, or a collision, and never both. */
  lemma KeyExactly(a: Url, b: Url)
    requires Standard(a) && Standard(b)
    ensures Key(a) == Key(b) <==> SameProduct(Some(a), Some(b)) || Collides(a, b)
    ensures !(SameProduct(Some(a), Some(b)) && Collides(a, b))
  {
    if Hostless(a) {
      HostlessAgainst(a, b);
    }
    if Hostless(b) {
      HostlessAgainst(b, a);
    }
    if !Hostless(a) && !Hostless(b) && Key(a) == Key(b) {
      HierarchicalKey(a, b);
    }
  }

  /** For two URLs of one kind the key is exactly the pairwise identity. */
  lemma KeyIsIdentity(a: Url, b: Url)
    requires (Hierarchical(a) && Hierarchical(b)) || (Hostless(a) && Hostless(b))
    ensures Key(a) == Key(b) <==> SameProduct(Some(a), Some(b))
  {
    if Hostless(a) && Hostless(b) {
      HostlessKey(a);
      HostlessKey(b);
    } else if Key(a) == Key(b) {
      HierarchicalKey(a, b);
    }
  }

  // ---------------------------------------------------------------- the spellings of one page

  /** Capital letters become small ones, every other character stays. */
  lemma LowerMeans(s: string, i: nat)
    requires i < |s|
    ensures Lower(s)[i] == if s[i] in "ABCDEFGHIJKLMNOPQRSTUVWXYZ" then s[i] - 'A' + 'a' else s[i]
  {
    var capitals := "ABCDEFGHIJKLMNOPQRSTUVWXYZ";
    assert forall k :: 0 <= k < 26 ==> capitals[k] == 'A' + k as char;
    if 'A' <= s[i] <= 'Z' {
      assert capitals[s[i] as int - 'A' as int] == s[i];
    }
  }

  lemma LowerGlued(s: string, t: string)
    ensures Lower(s + t) == Lower(s) + Lower(t)
  {
  }

  /** The host is the root in some mix of letters, bare or with one `www.` in front. */
  predicate HostSpells(host: string, root: string) {
    Lower(host) == "www." + root || (Lower(host) == root && !("www." <= root))
  }

  /** The path is this one, with or without one last slash. */
  predicate PathSpells(path: string, rest: string) {
    path == rest + "/" || (path == rest && (rest == "" || rest[|rest| - 1] != '/'))
  }

  /** The root of a host is exactly what the host spells. */
  lemma RootExactly(host: string, root: string)
    ensures SiteRoot(host) == root <==> HostSpells(host, root)
  {
    if |host| >= 4 {
      assert host == host[..4] + host[4..];
      LowerGlued(host[..4], host[4..]);
      if Lower(host) == "www." + root || "www." <= Lower(host) {
        assert Lower(host)[..4] == "www." && Lower(host)[..4] == Lower(host[..4]);
      }
      assert Lower(host)[4..] == Lower(host[4..]);
      assert ("www." + root)[4..] == root;
    } else {
      assert |Lower(host)| < 4;
    }
  }

  lemma PathExactly(path: string, rest: string)
    ensures StripSlash(path) == rest <==> PathSpells(path, rest)
  {
    if path == rest + "/" {
      assert path[..|path| - 1] == rest;
    }
  }

  /** Two URLs are the same product exactly when they spell one host and one path. */
  lemma SameProductExactly(a: Url, b: Url)
    ensures SameProduct(Some(a), Some(b)) <==>
            exists root, rest ::
              && HostSpells(a.host, root) && HostSpells(b.host, root)
              && PathSpells(a.path, rest) && PathSpells(b.path, rest)
  {
    RootExactly(a.host, SiteRoot(a.host));
    RootExactly(b.host, SiteRoot(a.host));
    PathExactly(a.path, StripSlash(a.path));
    PathExactly(b.path, StripSlash(a.path));
    forall root, rest |
      && HostSpells(a.host, root) && HostSpells(b.host, root)
      && PathSpells(a.path, rest) && PathSpells(b.path, rest)
      ensures SameProduct(Some(a), Some(b))
    {
      RootExactly(a.host, root);
      RootExactly(b.host, root);
      PathExactly(a.path, rest);
      PathExactly(b.path, rest);
    }
    assert SameProduct(Some(a), Some(b)) ==>
        && HostSpells(a.host, SiteRoot(a.host)) && HostSpells(b.host, SiteRoot(a.host))
        && PathSpells(a.path, StripSlash(a.path)) && PathSpells(b.path, StripSlash(a.path));
  }

  /** One host, written bare or with `www.` in any mix of letters, and one path, with or without a last slash. */
  predicate Spelling(url: Url, host: string, path: string) {
    && (Lower(url.host) == Lower(host) || Lower(url.host) == "www." + Lower(host))
    && (url.path == path || url.path == path + "/")
  }

  /** All spellings of one page are one product under one key. */
  lemma SpellingsAgree(a: Url, b: Url, host: string, path: string)
    requires !("www." <= Lower(host)) && (path == "" || path[|path| - 1] != '/')
    requires Spelling(a, host, path) && Spelling(b, host, path)
    ensures SameProduct(Some(a), Some(b)) && Key(a) == Key(b) == Lower(host) + path
  {
    RootExactly(a.host, Lower(host));
    RootExactly(b.host, Lower(host));
    PathExactly(a.path, path);
    PathExactly(b.path, path);
  }

  // ---------------------------------------------------------------- which opaque paths collide

  /** The part of a string before its first slash. */
  function Head(s: string): (r: string)
    ensures '/' !in r && r <= s
    ensures |r| < |s| ==> s[|r|] == '/'
  {
    if s == "" || s[0] == '/' then "" else [s[0]] + Head(s[1..])
  }

  lemma {:induction false} HeadOfGlued(r: string, q: string)
    requires '/' !in r && (q == "" || q[0] == '/')
    ensures Head(r + q) == r
  {
    if r == "" {
      assert r + q == q;
    } else {
      assert r[0] in r && (r + q)[0] == r[0];
      assert (r + q)[1..] == r[1..] + q;
      HeadOfGlued(r[1..], q);
      assert r == [r[0]] + r[1..];
    }
  }

  /**
   Which hosts and paths the URL parser produces for pages; of these only what the standard guarantees is
   used: a lower-case host without slash, and a path that is empty or starts with one.
   */
  ghost predicate ParsesPages(parses: (string, string) -> bool) {
    forall host, path :: parses(host, path) ==>
      '/' !in host && Lower(host) == host && (path == "" || path[0] == '/')
  }

  ghost predicate IsPage(parses: (string, string) -> bool, page: Url) {
    parses(page.host, page.path)
  }

  /** The page exists and is spelled by `root + rest`. */
  predicate Serves(parses: (string, string) -> bool, host: string, path: string, root: string, rest: string) {
    parses(host, path) && SiteRoot(host) == root && StripSlash(path) == rest
  }

  /** The path starts with a site root, and one of the four pages that it can spell exists. */
  predicate CollidingPath(parses: (string, string) -> bool, path: string) {
    var stripped := StripSlash(path);
    var root := Head(stripped);
    var rest := stripped[|root|..];
    && root != ""
    && (|| Serves(parses, root, rest, root, rest) || Serves(parses, root, rest + "/", root, rest)
        || Serves(parses, "www." + root, rest, root, rest) || Serves(parses, "www." + root, rest + "/", root, rest))
  }

  /** A lower-case host is its site root, or that with `www.` in front. */
  lemma HostOfRoot(host: string)
    requires Lower(host) == host
    ensures host == SiteRoot(host) || host == "www." + SiteRoot(host)
  {
    if |host| >= 4 && Lower(host[..4]) == "www." {
      assert forall i :: 0 <= i < |host| ==> Lower(host)[i] == host[i];
      assert Lower(host[..4]) == host[..4] && Lower(host[4..]) == host[4..];
      assert host == host[..4] + host[4..];
    }
  }

  lemma PathOfStripped(path: string)
    ensures path == StripSlash(path) || path == StripSlash(path) + "/"
  {
  }

  lemma ServedIsSpelled(parses: (string, string) -> bool, scheme: string, path: string, host: string, pagePath: string,
                        root: string, rest: string)
    requires root != "" && StripSlash(path) == root + rest && Serves(parses, host, pagePath, root, rest)
    ensures IsPage(parses, Url("https", host, pagePath)) && Spells(Url(scheme, "", path), Url("https", host, pagePath))
  {
  }

  lemma ServedPage(parses: (string, string) -> bool, root: string, rest: string)
    returns (host: string, pagePath: string)
    requires || Serves(parses, root, rest, root, rest) || Serves(parses, root, rest + "/", root, rest)
             || Serves(parses, "www." + root, rest, root, rest)
             || Serves(parses, "www." + root, rest + "/", root, rest)
    ensures Serves(parses, host, pagePath, root, rest)
  {
    host := if Serves(parses, root, rest, root, rest) || Serves(parses, root, rest + "/", root, rest) then root
            else "www." + root;
    pagePath := if Serves(parses, host, rest, root, rest) then rest else rest + "/";
  }

  lemma SpelledIsServed(parses: (string, string) -> bool, scheme: string, path: string, page: Url)
    requires ParsesPages(parses) && IsPage(parses, page) && Spells(Url(scheme, "", path), page)
    ensures CollidingPath(parses, path)
  {
    var root, rest := SiteRoot(page.host), StripSlash(page.path);
    assert Hierarchical(page) && Lower(page.host) == page.host;
    RootHasNoSlash(page);
    HeadOfGlued(root, rest);
    assert (root + rest)[|root|..] == rest;
    HostOfRoot(page.host);
    PathOfStripped(page.path);
    assert Serves(parses, page.host, page.path, root, rest);
  }

  /**
   An opaque URL collides with some page exactly when its path starts with a site root and one of four
   pages, with or without `www.` and a last slash, exists.
   */
  lemma OpaqueCollidesExactly(parses: (string, string) -> bool, scheme: string, path: string)
    requires ParsesPages(parses)
    ensures CollidingPath(parses, path) <==>
            exists page :: IsPage(parses, page) && Spells(Url(scheme, "", path), page)
  {
    if CollidingPath(parses, path) {
      var root := Head(StripSlash(path));
      var rest := StripSlash(path)[|root|..];
      var host, pagePath := ServedPage(parses, root, rest);
      ServedIsSpelled(parses, scheme, path, host, pagePath, root, rest);
    }
    forall page | IsPage(parses, page) && Spells(Url(scheme, "", path), page) ensures CollidingPath(parses, path) {
      SpelledIsServed(parses, scheme, path, page);
    }
  }

  /** The mail address `mailto:name` and the page `https://name/` share a key and are different products. */
  lemma OpaqueUrlCollides(name: string)
    requires name != "" && '/' !in name && SiteRoot(name) == name
    ensures var a, b := Url("mailto", "", name), Url("https", name, "/");
            Key(a) == Key(b) && !SameProduct(Some(a), Some(b))
  {
    var a, b := Url("mailto", "", name), Url("https", name, "/");
    assert name[|name| - 1] in name;
    EmptyRoot();
    assert StripSlash("/") == "";
  }
}
