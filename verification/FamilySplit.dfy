/**
 The admission gate in front of the collector's raw rows, and the part of its `main` that groups
 them into families, drops what is already known and splits the rest into development and holdout.
 */
module FamilySplit {
  import opened Common
  import opened UrlIdentity
  import ExclusionBank

  datatype Candidate = Candidate(sku: string, brand: string, title: string, url: Option<Url>)

  datatype Side = Development | Holdout

  /**
   The functions the run calls and does not define: the frozen family grouping, SHA-256, the
   near-duplicate screen (of a group's first member), schema validation, the seeded split and the
   order by canonical URL.
   */
  datatype Callees = Callees(
    groupKey: Candidate -> string,
    familyId: string -> string,
    nearDuplicate: Candidate -> bool,
    valid: Candidate -> bool,
    side: string -> Side,
    sort: seq<Candidate> -> seq<Candidate>)

  ghost predicate Sorts(sort: seq<Candidate> -> seq<Candidate>) {
    forall s :: multiset(sort(s)) == multiset(s)
  }

  // ---------------------------------------------------------------- admission

  /** What fetching a page delivers: the final URL after redirects, and the row its proof yields. */
  datatype Fetched = Fetched(finalUrl: Option<Url>, proof: Option<Candidate>)

  /** `collectPage`: the identity gate runs on the URL before the fetch and on the final URL after it. */
  function CollectPage(url: Option<Url>, byUrl: set<string>, fetch: Option<Url> -> Option<Fetched>): Option<Candidate> {
    if IsExcluded(url, byUrl) then None
    else
      var res := fetch(url);
      if res.None? || IsExcluded(res.value.finalUrl, byUrl) || res.value.proof.None? then None
      else Some(res.value.proof.value.(url := url))
  }

  /** Whether a page of the queue yields this row. */
  ghost predicate Yields(url: Option<Url>, c: Candidate, byUrl: set<string>, fetch: Option<Url> -> Option<Fetched>) {
    CollectPage(url, byUrl, fetch) == Some(c)
  }

  /** The rows these queue entries yield, in order. */
  ghost function Yielded(queue: seq<Option<Url>>, byUrl: set<string>,
                         fetch: Option<Url> -> Option<Fetched>): seq<Candidate>
  {
    if queue == [] then []
    else
      var n := |queue| - 1;
      var c := CollectPage(queue[n], byUrl, fetch);
      Yielded(queue[..n], byUrl, fetch) + (if c.Some? then [c.value] else [])
  }

  lemma YieldNext(queue: seq<Option<Url>>, n: nat, byUrl: set<string>, fetch: Option<Url> -> Option<Fetched>)
    requires n < |queue|
    ensures var c := CollectPage(queue[n], byUrl, fetch);
            Yielded(queue[..n + 1], byUrl, fetch) ==
            Yielded(queue[..n], byUrl, fetch) + (if c.Some? then [c.value] else [])
  {
    assert queue[..n + 1][..n] == queue[..n];
  }

  /** What a yielded row is: from an entry of the queue, past the gate before the fetch and after it. */
  lemma {:induction false} YieldedMeans(queue: seq<Option<Url>>, byUrl: set<string>,
                                        fetch: Option<Url> -> Option<Fetched>)
    ensures forall c :: c in Yielded(queue, byUrl, fetch) <==>
              exists i :: 0 <= i < |queue| && Yields(queue[i], c, byUrl, fetch)
    ensures forall c :: c in Yielded(queue, byUrl, fetch) ==> Passes(c, queue, byUrl, fetch)
  {
    if queue != [] {
      var n := |queue| - 1;
      YieldedMeans(queue[..n], byUrl, fetch);
      forall c | c in Yielded(queue, byUrl, fetch)
        ensures Passes(c, queue, byUrl, fetch) && exists i :: 0 <= i < |queue| && Yields(queue[i], c, byUrl, fetch)
      {
        if c in Yielded(queue[..n], byUrl, fetch) {
          var i :| 0 <= i < n && Yields(queue[..n][i], c, byUrl, fetch);
          assert Yields(queue[i], c, byUrl, fetch);
        } else {
          assert Yields(queue[n], c, byUrl, fetch);
        }
      }
      forall i, c | 0 <= i < |queue| && Yields(queue[i], c, byUrl, fetch) ensures c in Yielded(queue, byUrl, fetch) {
        if i < n {
          assert Yields(queue[..n][i], c, byUrl, fetch);
        }
      }
    }
  }

  ghost predicate Passes(c: Candidate, queue: seq<Option<Url>>, byUrl: set<string>,
                         fetch: Option<Url> -> Option<Fetched>)
  {
    && !IsExcluded(c.url, byUrl) && c.url in queue
    && fetch(c.url).Some? && !IsExcluded(fetch(c.url).value.finalUrl, byUrl)
  }

  /** The loop goes on past the first `n` entries: there is budget left and room for a row. */
  ghost predicate GoesOn(queue: seq<Option<Url>>, n: nat, byUrl: set<string>, fetch: Option<Url> -> Option<Fetched>,
                         budgetLeft: nat -> bool)
    requires n <= |queue|
  {
    n < |queue| && budgetLeft(n) && |Yielded(queue[..n], byUrl, fetch)| < 250
  }

  /**
   The page loop of one seed: the rows are those the first `n` entries of its queue yield, in order, `n`
   being the first entry at which the queue ends, the request budget is spent or 250 rows are there.
   */
  method CollectPages(queue: seq<Option<Url>>, byUrl: set<string>, fetch: Option<Url> -> Option<Fetched>,
                      budgetLeft: nat -> bool) returns (rows: seq<Candidate>, ghost n: nat)
    ensures n <= |queue| && rows == Yielded(queue[..n], byUrl, fetch)
    ensures !GoesOn(queue, n, byUrl, fetch, budgetLeft)
    ensures forall m :: 0 <= m < n ==> GoesOn(queue, m, byUrl, fetch, budgetLeft)
    ensures |rows| <= 250 && forall c :: c in rows ==> Passes(c, queue, byUrl, fetch)
    ensures (forall n :: 0 <= n < |queue| ==> budgetLeft(n)) && |rows| < 250 ==>
              forall i, c :: 0 <= i < |queue| && Yields(queue[i], c, byUrl, fetch) ==> c in rows
  {
    rows := [];
    var k := 0;
    while k < |queue| && budgetLeft(k) && |rows| < 250
      invariant k <= |queue| && rows == Yielded(queue[..k], byUrl, fetch) && |rows| <= 250
      invariant forall m :: 0 <= m < k ==> GoesOn(queue, m, byUrl, fetch, budgetLeft)
    {
      YieldNext(queue, k, byUrl, fetch);
      var c := CollectPage(queue[k], byUrl, fetch);
      if c.Some? {
        rows := rows + [c.value];
      }
      k := k + 1;
    }
    n := k;
    YieldedMeans(queue[..n], byUrl, fetch);
    assert forall u :: u in queue[..n] ==> u in queue;
    assert n == |queue| ==> queue[..n] == queue;
  }

  /** A feed product: its handle, the URL built from it, and the row its title and body allow. */
  datatype Product = Product(handle: string, url: Option<Url>, row: Option<Candidate>)

  /** The first product of its handle. */
  ghost predicate FirstOfHandle(products: seq<Product>, i: nat)
    requires i < |products|
  {
    forall j :: 0 <= j < i ==> products[j].handle != products[i].handle
  }

  /** The first product of its handle, admitted by the gate, with a row to show. */
  ghost predicate Wanted(products: seq<Product>, i: nat, byUrl: set<string>)
    requires i < |products|
  {
    FirstOfHandle(products, i) && products[i].row.Some? && !IsExcluded(products[i].url, byUrl)
  }

  /** How many of the first `n` products the gate turns away. */
  ghost function TurnedAway(products: seq<Product>, n: nat, byUrl: set<string>): nat
    requires n <= |products|
  {
    if n == 0 then 0
    else
      TurnedAway(products, n - 1, byUrl) +
      (if FirstOfHandle(products, n - 1) && IsExcluded(products[n - 1].url, byUrl) then 1 else 0)
  }

  /** The rows are those of the picked products, in order; each handle is picked at most once. */
  ghost predicate Picked(rows: seq<Candidate>, picks: seq<nat>, products: seq<Product>, n: nat, byUrl: set<string>)
    requires n <= |products|
  {
    && |rows| == |picks|
    && (forall k :: 0 <= k < |picks| ==> picks[k] < n && Wanted(products, picks[k], byUrl))
    && (forall k :: 0 <= k < |picks| ==> products[picks[k]].row == Some(rows[k]))
    && (forall k, m :: 0 <= k < m < |picks| ==> picks[k] < picks[m])
    && (forall i :: 0 <= i < n && Wanted(products, i, byUrl) ==> i in picks)
  }

  /** The handles of the first `n` products. */
  ghost function Handles(products: seq<Product>, n: nat): set<string>
    requires n <= |products|
  {
    set k | 0 <= k < n :: products[k].handle
  }

  lemma FeedNext(products: seq<Product>, n: nat, byUrl: set<string>)
    requires n < |products|
    ensures var p := products[n]; var first := p.handle !in Handles(products, n);
            && Handles(products, n + 1) == Handles(products, n) + {p.handle}
            && (Wanted(products, n, byUrl) <==> first && p.row.Some? && !IsExcluded(p.url, byUrl))
            && TurnedAway(products, n + 1, byUrl) ==
               TurnedAway(products, n, byUrl) + (if first && IsExcluded(p.url, byUrl) then 1 else 0)
  {
  }

  lemma PickedOnce(rows: seq<Candidate>, picks: seq<nat>, products: seq<Product>, byUrl: set<string>)
    requires Picked(rows, picks, products, |products|, byUrl)
    ensures forall k, m :: 0 <= k < m < |picks| ==> products[picks[k]].handle != products[picks[m]].handle
  {
    forall k, m | 0 <= k < m < |picks| ensures products[picks[k]].handle != products[picks[m]].handle {
      assert FirstOfHandle(products, picks[m]);
    }
  }

  lemma PickedPass(rows: seq<Candidate>, picks: seq<nat>, products: seq<Product>, byUrl: set<string>)
    requires forall p :: p in products && p.row.Some? ==> p.row.value.url == p.url
    requires Picked(rows, picks, products, |products|, byUrl)
    ensures forall c :: c in rows ==> !IsExcluded(c.url, byUrl)
  {
    forall k | 0 <= k < |rows| ensures !IsExcluded(rows[k].url, byUrl) {
      assert Wanted(products, picks[k], byUrl) && products[picks[k]] in products;
    }
  }

  lemma PickNext(rows: seq<Candidate>, picks: seq<nat>, products: seq<Product>, n: nat, byUrl: set<string>)
    requires n < |products| && Picked(rows, picks, products, n, byUrl)
    ensures !Wanted(products, n, byUrl) ==> Picked(rows, picks, products, n + 1, byUrl)
    ensures Wanted(products, n, byUrl) ==>
              Picked(rows + [products[n].row.value], picks + [n], products, n + 1, byUrl)
  {
    forall i | 0 <= i < n && Wanted(products, i, byUrl) ensures i in picks + [n] {
      assert i in picks;
    }
    assert n in picks + [n];
  }

  /**
   The feed loop. The rows are exactly those of the first products of their handles that pass the gate
   and have something to show, in order, and no handle yields two.
   */
  method CollectFeed(products: seq<Product>, byUrl: set<string>)
    returns (rows: seq<Candidate>, excluded: nat, ghost picks: seq<nat>)
    requires forall p :: p in products && p.row.Some? ==> p.row.value.url == p.url
    ensures Picked(rows, picks, products, |products|, byUrl)
    ensures forall k, m :: 0 <= k < m < |picks| ==> products[picks[k]].handle != products[picks[m]].handle
    ensures forall c :: c in rows ==> !IsExcluded(c.url, byUrl)
    ensures excluded == TurnedAway(products, |products|, byUrl)
  {
    rows, excluded, picks := [], 0, [];
    var seen: set<string> := {};
    for n := 0 to |products|
      invariant Picked(rows, picks, products, n, byUrl)
      invariant seen == Handles(products, n)
      invariant excluded == TurnedAway(products, n, byUrl)
    {
      var p := products[n];
      PickNext(rows, picks, products, n, byUrl);
      FeedNext(products, n, byUrl);
      if p.handle in seen { continue; }
      seen := seen + {p.handle};
      if IsExcluded(p.url, byUrl) {
        excluded := excluded + 1;
        continue;
      }
      if p.row.Some? {
        rows := rows + [p.row.value];
        picks := picks + [n];
      }
    }
    PickedOnce(rows, picks, products, byUrl);
    PickedPass(rows, picks, products, byUrl);
  }

  /** No admitted row is the same product as any sealed row, whatever the spelling of its URL. */
  lemma {:induction false} AdmittedIsNew(c: Candidate, prior: seq<ExclusionBank.Prior>)
    requires !IsExcluded(c.url, ExclusionBank.Keys(prior))
    ensures forall p :: p in prior ==> !SameProduct(c.url, Some(p.url))
  {
    ExclusionBank.SetsMean(prior);
    forall p | p in prior && c.url.Some? ensures Key(c.url.value) != Key(p.url) {
    }
  }

  // ---------------------------------------------------------------- grouping

  datatype Group = Group(key: string, members: seq<Candidate>)

  function Members(groups: seq<Group>): seq<Candidate> {
    if groups == [] then [] else Members(groups[..|groups| - 1]) + groups[|groups| - 1].members
  }

  function OfKey(raw: seq<Candidate>, key: string, o: Callees): (r: seq<Candidate>)
  {
    if raw == [] then []
    else
      var n := |raw| - 1;
      OfKey(raw[..n], key, o) + (if o.groupKey(raw[n]) == key then [raw[n]] else [])
  }

  /** The groups partition the rows: distinct keys, each group all rows of its key in their order. */
  ghost predicate Grouped(groups: seq<Group>, raw: seq<Candidate>, o: Callees) {
    && (forall i, j :: 0 <= i < j < |groups| ==> groups[i].key != groups[j].key)
    && (forall g :: g in groups ==> g.members == OfKey(raw, g.key, o) && g.members != [])
    && (forall c :: c in raw ==> exists i :: 0 <= i < |groups| && groups[i].key == o.groupKey(c))
  }

  lemma LastMembers(groups: seq<Group>)
    requires groups != []
    ensures var n := |groups| - 1;
            multiset(Members(groups)) == multiset(Members(groups[..n])) + multiset(groups[n].members)
  {
  }

  lemma AddInside(a: multiset<Candidate>, b: multiset<Candidate>, c: Candidate)
    ensures (a + multiset{c}) + b == (a + b) + multiset{c}
    ensures a + (b + multiset{c}) == (a + b) + multiset{c}
  {
  }

  function Larger(g: Group, c: Candidate): Group {
    Group(g.key, g.members + [c])
  }

  lemma LastUpdate(groups: seq<Group>, c: Candidate)
    requires groups != []
    ensures var n := |groups| - 1;
            multiset(Members(groups[n := Larger(groups[n], c)])) == multiset(Members(groups)) + multiset{c}
  {
    var n := |groups| - 1;
    var after := groups[n := Larger(groups[n], c)];
    assert after[..n] == groups[..n];
    LastMembers(after);
    LastMembers(groups);
    AddInside(multiset(Members(groups[..n])), multiset(groups[n].members), c);
  }

  lemma InnerUpdate(groups: seq<Group>, k: nat, larger: Group)
    requires k < |groups| - 1
    ensures var n := |groups| - 1;
            multiset(Members(groups[k := larger])) ==
            multiset(Members(groups[..n][k := larger])) + multiset(groups[n].members)
  {
    var n := |groups| - 1;
    var after := groups[k := larger];
    assert after[..n] == groups[..n][k := larger];
    LastMembers(after);
  }

  lemma {:induction false} MembersUpdate(groups: seq<Group>, k: nat, c: Candidate)
    requires k < |groups|
    ensures multiset(Members(groups[k := Larger(groups[k], c)])) == multiset(Members(groups)) + multiset{c}
  {
    var n := |groups| - 1;
    if k == n {
      LastUpdate(groups, c);
    } else {
      MembersUpdate(groups[..n], k, c);
      InnerUpdate(groups, k, Larger(groups[k], c));
      LastMembers(groups);
      AddInside(multiset(Members(groups[..n])), multiset(groups[n].members), c);
    }
  }

  lemma OfKeyStep(raw: seq<Candidate>, n: nat, key: string, o: Callees)
    requires n < |raw|
    ensures OfKey(raw[..n + 1], key, o) ==
            OfKey(raw[..n], key, o) + (if o.groupKey(raw[n]) == key then [raw[n]] else [])
  {
    assert raw[..n + 1][..n] == raw[..n];
  }

  lemma {:induction false} NoneOfKey(raw: seq<Candidate>, key: string, o: Callees)
    requires forall c :: c in raw ==> o.groupKey(c) != key
    ensures OfKey(raw, key, o) == []
  {
    if raw != [] {
      NoneOfKey(raw[..|raw| - 1], key, o);
    }
  }

  /** The map finds the group of a key. */
  ghost predicate Indexed(index: map<string, nat>, groups: seq<Group>) {
    && (forall k :: k in index ==> index[k] < |groups| && groups[index[k]].key == k)
    && (forall i :: 0 <= i < |groups| ==> groups[i].key in index && index[groups[i].key] == i)
  }

  lemma IndexNew(index: map<string, nat>, groups: seq<Group>, g: Group)
    requires Indexed(index, groups) && g.key !in index
    ensures Indexed(index[g.key := |groups|], groups + [g])
  {
    var after, wider := groups + [g], index[g.key := |groups|];
    forall i | 0 <= i < |after| ensures after[i].key in wider && wider[after[i].key] == i {
      if i < |groups| {
        assert after[i] == groups[i];
      }
    }
  }

  lemma IndexKept(index: map<string, nat>, groups: seq<Group>, k: nat, members: seq<Candidate>)
    requires Indexed(index, groups) && k < |groups|
    ensures Indexed(index, groups[k := Group(groups[k].key, members)])
  {
    var after := groups[k := Group(groups[k].key, members)];
    assert forall i :: 0 <= i < |groups| ==> after[i].key == groups[i].key;
  }

  lemma MembersAppend(groups: seq<Group>, g: Group)
    ensures Members(groups + [g]) == Members(groups) + g.members
  {
    assert (groups + [g])[..|groups|] == groups;
  }

  lemma RawStep(raw: seq<Candidate>, n: nat)
    requires n < |raw|
    ensures multiset(raw[..n + 1]) == multiset(raw[..n]) + multiset{raw[n]}
  {
    assert raw[..n + 1] == raw[..n] + [raw[n]];
  }

  lemma OpenGroup(groups: seq<Group>, raw: seq<Candidate>, n: nat, o: Callees)
    requires n < |raw| && Grouped(groups, raw[..n], o)
    requires forall i :: 0 <= i < |groups| ==> groups[i].key != o.groupKey(raw[n])
    ensures Grouped(groups + [Group(o.groupKey(raw[n]), [raw[n]])], raw[..n + 1], o)
  {
    var c, key := raw[n], o.groupKey(raw[n]);
    var after := groups + [Group(key, [c])];
    forall d | d in raw[..n] ensures o.groupKey(d) != key {
      var i :| 0 <= i < |groups| && groups[i].key == o.groupKey(d);
    }
    NoneOfKey(raw[..n], key, o);
    forall g | g in after ensures g.members == OfKey(raw[..n + 1], g.key, o) && g.members != [] {
      OfKeyStep(raw, n, g.key, o);
    }
    forall d | d in raw[..n + 1] ensures exists i :: 0 <= i < |after| && after[i].key == o.groupKey(d) {
      if d in raw[..n] {
        var i :| 0 <= i < |groups| && groups[i].key == o.groupKey(d);
        assert after[i] == groups[i];
      } else {
        assert d == c && after[|groups|].key == key;
      }
    }
  }

  lemma ExtendGroup(groups: seq<Group>, raw: seq<Candidate>, n: nat, k: nat, o: Callees)
    requires n < |raw| && Grouped(groups, raw[..n], o)
    requires k < |groups| && groups[k].key == o.groupKey(raw[n])
    ensures Grouped(groups[k := Group(groups[k].key, groups[k].members + [raw[n]])], raw[..n + 1], o)
  {
    var c, key := raw[n], groups[k].key;
    var after := groups[k := Group(key, groups[k].members + [c])];
    forall i | 0 <= i < |after|
      ensures after[i].key == groups[i].key && after[i].members == OfKey(raw[..n + 1], after[i].key, o)
              && after[i].members != []
    {
      assert groups[i] in groups;
      OfKeyStep(raw, n, groups[i].key, o);
    }
    forall d | d in raw[..n + 1] ensures exists i :: 0 <= i < |after| && after[i].key == o.groupKey(d) {
      if d in raw[..n] {
        var i :| 0 <= i < |groups| && groups[i].key == o.groupKey(d);
        assert after[i].key == groups[i].key;
      } else {
        assert d == c && after[k].key == key;
      }
    }
  }

  method GroupByFamily(raw: seq<Candidate>, o: Callees) returns (groups: seq<Group>)
    ensures Grouped(groups, raw, o)
    ensures multiset(Members(groups)) == multiset(raw)
  {
    groups := [];
    var index: map<string, nat> := map[];
    for n := 0 to |raw|
      invariant Grouped(groups, raw[..n], o)
      invariant multiset(Members(groups)) == multiset(raw[..n])
      invariant Indexed(index, groups)
    {
      groups, index := Place(groups, index, raw, n, o);
    }
    assert raw[..|raw|] == raw;
  }

  /** One row joins the group of its key, or opens one. */
  method Place(groups: seq<Group>, index: map<string, nat>, raw: seq<Candidate>, n: nat, o: Callees)
    returns (groups': seq<Group>, index': map<string, nat>)
    requires n < |raw| && Grouped(groups, raw[..n], o) && Indexed(index, groups)
    requires multiset(Members(groups)) == multiset(raw[..n])
    ensures Grouped(groups', raw[..n + 1], o) && Indexed(index', groups')
    ensures multiset(Members(groups')) == multiset(raw[..n + 1])
  {
    var c := raw[n];
    var key := o.groupKey(c);
    RawStep(raw, n);
    if key !in index {
      ghost var single := Group(key, [c]);
      OpenGroup(groups, raw, n, o);
      IndexNew(index, groups, single);
      MembersAppend(groups, single);
      index' := index[key := |groups|];
      groups' := groups + [Group(key, [c])];
    } else {
      var k := index[key];
      ExtendGroup(groups, raw, n, k, o);
      IndexKept(index, groups, k, groups[k].members + [c]);
      MembersUpdate(groups, k, c);
      groups' := groups[k := Group(key, groups[k].members + [c])];
      index' := index;
    }
  }

  // ---------------------------------------------------------------- exclusion

  datatype Family = Family(id: string, members: seq<Candidate>)

  predicate IsSealed(g: Group, sealed: set<string>, o: Callees) {
    o.familyId(g.key) in sealed
  }

  predicate IsNearDuplicate(g: Group, sealed: set<string>, o: Callees) {
    !IsSealed(g, sealed, o) && g.members != [] && o.nearDuplicate(g.members[0])
  }

  function Kept(groups: seq<Group>, sealed: set<string>, o: Callees): seq<Family> {
    if groups == [] then []
    else
      var n := |groups| - 1;
      var g := groups[n];
      Kept(groups[..n], sealed, o) +
      (if IsSealed(g, sealed, o) || IsNearDuplicate(g, sealed, o) then [] else [Family(o.familyId(g.key), g.members)])
  }

  function Rows(families: seq<Family>): seq<Candidate> {
    if families == [] then [] else Rows(families[..|families| - 1]) + families[|families| - 1].members
  }

  /** The rows of the groups that pass a test. */
  function RowsOf(groups: seq<Group>, test: Group -> bool): nat {
    if groups == [] then 0
    else
      var n := |groups| - 1;
      RowsOf(groups[..n], test) + (if test(groups[n]) then |groups[n].members| else 0)
  }

  function Sealed(sealed: set<string>, o: Callees): Group -> bool {
    (g: Group) => IsSealed(g, sealed, o)
  }

  function NearDuplicate(sealed: set<string>, o: Callees): Group -> bool {
    (g: Group) => IsNearDuplicate(g, sealed, o)
  }

  lemma NextGroupRows(groups: seq<Group>, n: nat, test: Group -> bool)
    requires n < |groups|
    ensures RowsOf(groups[..n + 1], test) ==
            RowsOf(groups[..n], test) + (if test(groups[n]) then |groups[n].members| else 0)
  {
    assert groups[..n + 1][..n] == groups[..n];
  }

  lemma NextGroupKept(groups: seq<Group>, n: nat, sealed: set<string>, o: Callees)
    requires n < |groups|
    ensures var g := groups[n];
            Kept(groups[..n + 1], sealed, o) ==
            Kept(groups[..n], sealed, o) +
            (if IsSealed(g, sealed, o) || IsNearDuplicate(g, sealed, o) then []
             else [Family(o.familyId(g.key), g.members)])
  {
    assert groups[..n + 1][..n] == groups[..n];
  }

  /** The rows of the next group go to one of the two lists. */
  lemma NextGroupConserved(groups: seq<Group>, n: nat, kept: seq<Candidate>, dropped: seq<Candidate>)
    requires n < |groups| && multiset(Members(groups[..n])) == multiset(kept) + multiset(dropped)
    ensures multiset(Members(groups[..n + 1])) == multiset(kept) + multiset(dropped + groups[n].members)
    ensures multiset(Members(groups[..n + 1])) == multiset(kept + groups[n].members) + multiset(dropped)
  {
    assert groups[..n + 1][..n] == groups[..n];
    LastMembers(groups[..n + 1]);
  }

  lemma RowsExtend(families: seq<Family>, f: Family)
    ensures Rows(families + [f]) == Rows(families) + f.members
  {
    assert (families + [f])[..|families|] == families;
  }

  /** The counters add up: every grouped row is kept, or dropped for exactly one of the two reasons. */
  method DropKnown(groups: seq<Group>, sealed: set<string>, o: Callees)
    returns (kept: seq<Family>, priorFamily: nat, nearDuplicate: nat, ghost dropped: seq<Candidate>)
    requires forall g :: g in groups ==> g.members != []
    ensures kept == Kept(groups, sealed, o)
    ensures |dropped| == priorFamily + nearDuplicate
    ensures priorFamily == RowsOf(groups, Sealed(sealed, o))
            && nearDuplicate == RowsOf(groups, NearDuplicate(sealed, o))
    ensures multiset(Members(groups)) == multiset(Rows(kept)) + multiset(dropped)
    ensures forall f :: f in kept ==> f.id !in sealed && f.members != []
  {
    kept, priorFamily, nearDuplicate, dropped := [], 0, 0, [];
    for n := 0 to |groups|
      invariant kept == Kept(groups[..n], sealed, o)
      invariant |dropped| == priorFamily + nearDuplicate
      invariant priorFamily == RowsOf(groups[..n], Sealed(sealed, o))
      invariant nearDuplicate == RowsOf(groups[..n], NearDuplicate(sealed, o))
      invariant multiset(Members(groups[..n])) == multiset(Rows(kept)) + multiset(dropped)
      invariant forall f :: f in kept ==> f.id !in sealed && f.members != []
    {
      var g := groups[n];
      assert g in groups;
      NextGroupKept(groups, n, sealed, o);
      NextGroupRows(groups, n, Sealed(sealed, o));
      NextGroupRows(groups, n, NearDuplicate(sealed, o));
      NextGroupConserved(groups, n, Rows(kept), dropped);
      if o.familyId(g.key) in sealed {
        priorFamily := priorFamily + |g.members|;
        dropped := dropped + g.members;
        continue;
      }
      if o.nearDuplicate(g.members[0]) {
        nearDuplicate := nearDuplicate + |g.members|;
        dropped := dropped + g.members;
        continue;
      }
      RowsExtend(kept, Family(o.familyId(g.key), g.members));
      kept := kept + [Family(o.familyId(g.key), g.members)];
    }
    assert groups[..|groups|] == groups;
  }

  // ---------------------------------------------------------------- the split

  datatype Row = Row(familyId: string, candidate: Candidate)

  function Labelled(id: string, members: seq<Candidate>): (r: seq<Row>)
    ensures |r| == |members|
    ensures forall i :: 0 <= i < |r| ==> r[i] == Row(id, members[i])
  {
    seq(|members|, i requires 0 <= i < |members| => Row(id, members[i]))
  }

  function Candidates(rows: seq<Row>): (r: seq<Candidate>)
    ensures |r| == |rows|
    ensures forall i :: 0 <= i < |r| ==> r[i] == rows[i].candidate
  {
    seq(|rows|, i requires 0 <= i < |rows| => rows[i].candidate)
  }

  datatype Banks = Banks(primary: seq<Row>, supplemental: seq<Row>, holdout: seq<Row>)

  function Empty(): Banks {
    Banks([], [], [])
  }

  /** One family goes to one side as a whole; a development family has one primary row. */
  function WithFamily(b: Banks, f: Family, o: Callees): Banks {
    var members := Labelled(f.id, o.sort(f.members));
    if o.side(f.id) == Holdout then b.(holdout := b.holdout + members)
    else if members == [] then b
    else Banks(b.primary + [members[0]], b.supplemental + members[1..], b.holdout)
  }

  function SplitAll(families: seq<Family>, o: Callees): Banks {
    if families == [] then Empty()
    else WithFamily(SplitAll(families[..|families| - 1], o), families[|families| - 1], o)
  }

  /** One kept family: its rows are checked against the schema, and then banked. */
  method BankFamily(banks: Banks, f: Family, o: Callees) returns (r: Option<Banks>)
    requires Sorts(o.sort) && f.members != []
    ensures r.Some? <==> forall c :: c in f.members ==> o.valid(c)
    ensures r.Some? ==> r.value == WithFamily(banks, f, o)
  {
    var members := o.sort(f.members);
    SortedMembers(f.members, o);
    if exists c :: c in members && !o.valid(c) {
      return None;
    }
    var rows := Labelled(f.id, members);
    if o.side(f.id) == Holdout {
      return Some(banks.(holdout := banks.holdout + rows));
    }
    if |members| == 1 {
      assert rows[1..] == [];
      return Some(banks.(primary := banks.primary + [rows[0]], supplemental := banks.supplemental + []));
    }
    return Some(banks.(primary := banks.primary + [rows[0]], supplemental := banks.supplemental + rows[1..]));
  }

  /** Throws exactly when some kept row fails the schema; nothing is sealed then. */
  method Split(families: seq<Family>, o: Callees) returns (r: Result<Banks>)
    requires Sorts(o.sort) && forall f :: f in families ==> f.members != []
    ensures r.Ok? <==> forall f, c :: f in families && c in f.members ==> o.valid(c)
    ensures r.Ok? ==> r.value == SplitAll(families, o)
  {
    var banks := Empty();
    for n := 0 to |families|
      invariant banks == SplitAll(families[..n], o)
      invariant forall k, c :: 0 <= k < n && c in families[k].members ==> o.valid(c)
    {
      assert families[n] in families && families[..n + 1][..n] == families[..n];
      var next := BankFamily(banks, families[n], o);
      if next.None? { return Err("schema"); }
      banks := next.value;
    }
    assert families[..|families|] == families;
    return Ok(banks);
  }

  lemma SortedMembers(members: seq<Candidate>, o: Callees)
    requires Sorts(o.sort)
    ensures |o.sort(members)| == |members|
    ensures forall c :: c in o.sort(members) <==> c in members
  {
    var sorted := o.sort(members);
    assert multiset(sorted) == multiset(members);
    assert |multiset(sorted)| == |sorted| && |multiset(members)| == |members|;
    forall c ensures c in sorted <==> c in members {
      assert c in sorted <==> c in multiset(sorted);
      assert c in members <==> c in multiset(members);
    }
  }

  // ---------------------------------------------------------------- what the split guarantees

  /** Rows on one side never carry the family id of a row on the other, even if two families collide. */
  lemma {:induction false} FamilyLocked(families: seq<Family>, o: Callees)
    ensures var b := SplitAll(families, o);
            && (forall r :: r in b.primary || r in b.supplemental ==> o.side(r.familyId) == Development)
            && (forall r :: r in b.holdout ==> o.side(r.familyId) == Holdout)
            && (forall d, h :: (d in b.primary || d in b.supplemental) && h in b.holdout ==> d.familyId != h.familyId)
  {
    if families != [] {
      FamilyLocked(families[..|families| - 1], o);
    }
  }

  function DevelopmentIds(families: seq<Family>, o: Callees): seq<string> {
    if families == [] then []
    else
      var n := |families| - 1;
      DevelopmentIds(families[..n], o) + (if o.side(families[n].id) == Development then [families[n].id] else [])
  }

  function Ids(rows: seq<Row>): (r: seq<string>)
    ensures |r| == |rows|
    ensures forall i :: 0 <= i < |r| ==> r[i] == rows[i].familyId
  {
    seq(|rows|, i requires 0 <= i < |rows| => rows[i].familyId)
  }

  /** Each development family contributes exactly one primary row. */
  lemma {:induction false} OnePrimaryEach(families: seq<Family>, o: Callees)
    requires Sorts(o.sort) && forall f :: f in families ==> f.members != []
    ensures Ids(SplitAll(families, o).primary) == DevelopmentIds(families, o)
  {
    if families != [] {
      var n := |families| - 1;
      assert families[n] in families;
      SortedMembers(families[n].members, o);
      OnePrimaryEach(families[..n], o);
    }
  }

  lemma CandidatesAppend(a: seq<Row>, b: seq<Row>)
    ensures Candidates(a + b) == Candidates(a) + Candidates(b)
  {
  }

  /** Every row of the three banks. */
  ghost function Banked(b: Banks): multiset<Candidate> {
    multiset(Candidates(b.primary)) + multiset(Candidates(b.supplemental)) + multiset(Candidates(b.holdout))
  }

  lemma CandidatesGrow(a: seq<Row>, b: seq<Row>)
    ensures multiset(Candidates(a + b)) == multiset(Candidates(a)) + multiset(Candidates(b))
  {
    CandidatesAppend(a, b);
  }

  lemma Regroup(p: multiset<Candidate>, s: multiset<Candidate>, first: multiset<Candidate>, rest: multiset<Candidate>)
    ensures (p + first) + (s + rest) == p + s + (first + rest)
  {
  }

  lemma FamilyConserved(b: Banks, f: Family, o: Callees)
    requires Sorts(o.sort)
    ensures Banked(WithFamily(b, f, o)) == Banked(b) + multiset(f.members)
  {
    var members := Labelled(f.id, o.sort(f.members));
    assert Candidates(members) == o.sort(f.members);
    if o.side(f.id) == Holdout {
      CandidatesGrow(b.holdout, members);
    } else if members != [] {
      var first, rest := [members[0]], members[1..];
      assert members == first + rest;
      CandidatesGrow(first, rest);
      CandidatesGrow(b.primary, first);
      CandidatesGrow(b.supplemental, rest);
      Regroup(multiset(Candidates(b.primary)), multiset(Candidates(b.supplemental)),
              multiset(Candidates(first)), multiset(Candidates(rest)));
    }
  }

  /** The split neither loses nor repeats a row. */
  lemma {:induction false} SplitConserves(families: seq<Family>, o: Callees)
    requires Sorts(o.sort)
    ensures Banked(SplitAll(families, o)) == multiset(Rows(families))
  {
    if families != [] {
      var n := |families| - 1;
      SplitConserves(families[..n], o);
      FamilyConserved(SplitAll(families[..n], o), families[n], o);
    }
  }

  lemma {:induction false} RowsKept(families: seq<Family>, o: Callees, sealed: set<string>)
    requires forall f :: f in families ==> f.id !in sealed
    ensures var b := SplitAll(families, o);
            forall r :: r in b.primary || r in b.supplemental || r in b.holdout ==> r.familyId !in sealed
  {
    if families != [] {
      var n := |families| - 1;
      assert families[n] in families;
      RowsKept(families[..n], o, sealed);
    }
  }

  /** The row's family is neither sealed nor, by its first row, a near duplicate of a sealed one. */
  ghost predicate Stays(raw: seq<Candidate>, c: Candidate, sealed: set<string>, o: Callees) {
    var family := OfKey(raw, o.groupKey(c), o);
    o.familyId(o.groupKey(c)) !in sealed && family != [] && !o.nearDuplicate(family[0])
  }

  lemma {:induction false} KeptFamilies(groups: seq<Group>, sealed: set<string>, o: Callees, f: Family)
    ensures f in Kept(groups, sealed, o) <==>
            exists g :: g in groups && !IsSealed(g, sealed, o) && !IsNearDuplicate(g, sealed, o)
                        && f == Family(o.familyId(g.key), g.members)
  {
    if groups != [] {
      var n := |groups| - 1;
      KeptFamilies(groups[..n], sealed, o, f);
      assert groups == groups[..n] + [groups[n]];
    }
  }

  lemma {:induction false} OfKeyMeans(raw: seq<Candidate>, key: string, o: Callees)
    ensures forall c :: c in OfKey(raw, key, o) <==> c in raw && o.groupKey(c) == key
  {
    if raw != [] {
      OfKeyMeans(raw[..|raw| - 1], key, o);
      assert raw == raw[..|raw| - 1] + [raw[|raw| - 1]];
    }
  }

  lemma KeptMember(groups: seq<Group>, raw: seq<Candidate>, sealed: set<string>, o: Callees, f: Family, c: Candidate)
    requires Grouped(groups, raw, o) && f in Kept(groups, sealed, o) && c in f.members
    ensures c in raw && Stays(raw, c, sealed, o)
  {
    KeptFamilies(groups, sealed, o, f);
    var g :| g in groups && !IsSealed(g, sealed, o) && !IsNearDuplicate(g, sealed, o)
             && f == Family(o.familyId(g.key), g.members);
    OfKeyMeans(raw, g.key, o);
  }

  lemma StayingKept(groups: seq<Group>, raw: seq<Candidate>, sealed: set<string>, o: Callees, c: Candidate)
    requires Grouped(groups, raw, o) && c in raw && Stays(raw, c, sealed, o)
    ensures exists f :: f in Kept(groups, sealed, o) && c in f.members
  {
    var i :| 0 <= i < |groups| && groups[i].key == o.groupKey(c);
    var g := groups[i];
    assert g in groups;
    OfKeyMeans(raw, g.key, o);
    KeptFamilies(groups, sealed, o, Family(o.familyId(g.key), g.members));
  }

  /** The rows of the kept families are the rows that stay. */
  lemma KeptStay(groups: seq<Group>, raw: seq<Candidate>, sealed: set<string>, o: Callees)
    requires Grouped(groups, raw, o)
    ensures (forall f, c :: f in Kept(groups, sealed, o) && c in f.members ==> o.valid(c)) <==>
            forall c :: c in raw && Stays(raw, c, sealed, o) ==> o.valid(c)
  {
    if forall c :: c in raw && Stays(raw, c, sealed, o) ==> o.valid(c) {
      forall f, c | f in Kept(groups, sealed, o) && c in f.members ensures o.valid(c) {
        KeptMember(groups, raw, sealed, o, f, c);
      }
    }
    if forall f, c :: f in Kept(groups, sealed, o) && c in f.members ==> o.valid(c) {
      forall c | c in raw && Stays(raw, c, sealed, o) ensures o.valid(c) {
        StayingKept(groups, raw, sealed, o, c);
      }
    }
  }

  /**
   Grouping, exclusion and split together: the raw rows are exactly the rows dropped and the rows
   in the three banks; the families are locked to one side; each development family has one primary
   row; and no banked row is of a sealed family or carries a sealed product identity.
   */
  method Partition(raw: seq<Candidate>, sealed: set<string>, byUrl: set<string>, o: Callees)
    returns (r: Result<Banks>, priorFamily: nat, nearDuplicate: nat)
    requires Sorts(o.sort) && forall c :: c in raw ==> !IsExcluded(c.url, byUrl)
    ensures r.Ok? ==>
              var b := r.value;
              && |raw| == priorFamily + nearDuplicate + |b.primary| + |b.supplemental| + |b.holdout|
              && Banked(b) <= multiset(raw)
              && (forall d, h :: (d in b.primary || d in b.supplemental) && h in b.holdout ==> d.familyId != h.familyId)
              && (forall x :: x in b.primary || x in b.supplemental || x in b.holdout ==>
                    x.familyId !in sealed && !IsExcluded(x.candidate.url, byUrl))
    ensures r.Ok? <==> forall c :: c in raw && Stays(raw, c, sealed, o) ==> o.valid(c)
    ensures exists groups ::
              && Grouped(groups, raw, o)
              && priorFamily == RowsOf(groups, Sealed(sealed, o))
              && nearDuplicate == RowsOf(groups, NearDuplicate(sealed, o))
              && (r.Ok? ==>
                    && r.value == SplitAll(Kept(groups, sealed, o), o)
                    && Ids(r.value.primary) == DevelopmentIds(Kept(groups, sealed, o), o))
  {
    var groups := GroupByFamily(raw, o);
    var kept;
    ghost var dropped;
    kept, priorFamily, nearDuplicate, dropped := DropKnown(groups, sealed, o);
    KeptStay(groups, raw, sealed, o);
    r := Split(kept, o);
    if r.Ok? {
      var b := r.value;
      SplitConserves(kept, o);
      FamilyLocked(kept, o);
      OnePrimaryEach(kept, o);
      RowsKept(kept, o, sealed);
      Accounted(raw, b, dropped, Rows(kept));
      forall x | x in b.primary || x in b.supplemental || x in b.holdout ensures !IsExcluded(x.candidate.url, byUrl) {
        BankedIsRaw(b, x, raw);
      }
    }
  }

  lemma Accounted(raw: seq<Candidate>, b: Banks, dropped: seq<Candidate>, rows: seq<Candidate>)
    requires multiset(raw) == multiset(rows) + multiset(dropped)
    requires Banked(b) == multiset(rows)
    ensures |raw| == |dropped| + |b.primary| + |b.supplemental| + |b.holdout|
    ensures multiset(rows) <= multiset(raw)
  {
    assert |multiset(raw)| == |raw| && |multiset(dropped)| == |dropped|;
    assert |multiset(Candidates(b.primary))| == |b.primary|;
    assert |multiset(Candidates(b.supplemental))| == |b.supplemental|;
    assert |multiset(Candidates(b.holdout))| == |b.holdout|;
  }

  lemma BankedIsRaw(b: Banks, x: Row, raw: seq<Candidate>)
    requires x in b.primary || x in b.supplemental || x in b.holdout
    requires Banked(b) <= multiset(raw)
    ensures x.candidate in raw
  {
    CandidateIn(b.primary, x);
    CandidateIn(b.supplemental, x);
    CandidateIn(b.holdout, x);
    assert x.candidate in multiset(raw);
  }

  lemma CandidateIn(rows: seq<Row>, x: Row)
    ensures x in rows ==> x.candidate in multiset(Candidates(rows))
  {
    if x in rows {
      var i :| 0 <= i < |rows| && rows[i] == x;
      assert Candidates(rows)[i] == x.candidate;
    }
  }
}
