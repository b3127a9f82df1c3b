/**
 Where every collected row ends, row by row: what a page yields, which rows are dropped and counted, and
 which bank and which place each remaining row has.
 */
module FamilyEffects {
  import opened Common
  import opened UrlIdentity
  import opened FamilySplit

  // ---------------------------------------------------------------- admission

  /** A page yields a row exactly when both gates let it pass and its proof does; the row keeps the queued URL. */
  lemma YieldsExactly(url: Option<Url>, byUrl: set<string>, fetch: Option<Url> -> Option<Fetched>, c: Candidate)
    ensures CollectPage(url, byUrl, fetch) == Some(c) <==>
            && !IsExcluded(url, byUrl) && fetch(url).Some? && !IsExcluded(fetch(url).value.finalUrl, byUrl)
            && fetch(url).value.proof.Some?
            && c == Candidate(fetch(url).value.proof.value.sku, fetch(url).value.proof.value.brand,
                              fetch(url).value.proof.value.title, url)
  {
  }

  /** One entry more adds its row, if it yields one, at the end. */
  lemma YieldedExactly(queue: seq<Option<Url>>, url: Option<Url>, byUrl: set<string>,
                       fetch: Option<Url> -> Option<Fetched>)
    ensures Yielded([], byUrl, fetch) == []
    ensures Yielded(queue + [url], byUrl, fetch) ==
            Yielded(queue, byUrl, fetch) + (if CollectPage(url, byUrl, fetch).Some?
                                            then [CollectPage(url, byUrl, fetch).value] else [])
  {
    YieldNext(queue + [url], |queue|, byUrl, fetch);
    assert (queue + [url])[..|queue|] == queue && (queue + [url])[..|queue| + 1] == queue + [url];
  }

  /** The first product of its handle, with a URL the gate excludes. */
  ghost predicate Refused(products: seq<Product>, i: nat, byUrl: set<string>) {
    && i < |products| && IsExcluded(products[i].url, byUrl)
    && forall j :: 0 <= j < i ==> products[j].handle != products[i].handle
  }

  ghost function RefusedPlaces(products: seq<Product>, n: nat, byUrl: set<string>): set<nat> {
    set i: nat | i < n && Refused(products, i, byUrl)
  }

  /** The feed's exclusion counter is the number of first products the gate refuses. */
  lemma {:induction false} TurnedAwayExactly(products: seq<Product>, n: nat, byUrl: set<string>)
    requires n <= |products|
    ensures TurnedAway(products, n, byUrl) == |RefusedPlaces(products, n, byUrl)|
  {
    if n == 0 {
      assert RefusedPlaces(products, 0, byUrl) == {};
    } else {
      TurnedAwayExactly(products, n - 1, byUrl);
      var before, after := RefusedPlaces(products, n - 1, byUrl), RefusedPlaces(products, n, byUrl);
      assert Refused(products, n - 1, byUrl) <==>
          FirstOfHandle(products, n - 1) && IsExcluded(products[n - 1].url, byUrl);
      if Refused(products, n - 1, byUrl) {
        assert after == before + {n - 1};
      } else {
        assert after == before;
      }
    }
  }

  // ---------------------------------------------------------------- families

  /** The rows of a family are the raw rows of its key, in their order. */
  lemma OfKeyExactly(raw: seq<Candidate>, c: Candidate, key: string, o: Callees)
    ensures OfKey([], key, o) == []
    ensures OfKey(raw + [c], key, o) == if o.groupKey(c) == key then OfKey(raw, key, o) + [c] else OfKey(raw, key, o)
  {
    OfKeyStep(raw + [c], |raw|, key, o);
    assert (raw + [c])[..|raw|] == raw && (raw + [c])[..|raw| + 1] == raw + [c];
  }

  ghost function PlacesOf(raw: seq<Candidate>, key: string, o: Callees): set<nat> {
    set i: nat | i < |raw| && o.groupKey(raw[i]) == key
  }

  lemma {:induction false} FamilySize(raw: seq<Candidate>, key: string, o: Callees)
    ensures |OfKey(raw, key, o)| == |PlacesOf(raw, key, o)|
  {
    if raw == [] {
      assert PlacesOf(raw, key, o) == {};
    } else {
      var n := |raw| - 1;
      FamilySize(raw[..n], key, o);
      var before, after := PlacesOf(raw[..n], key, o), PlacesOf(raw, key, o);
      if o.groupKey(raw[n]) == key {
        assert after == before + {n};
      } else {
        assert after == before;
      }
    }
  }

  /** The places of the rows whose group passes a test. */
  ghost function PlacesIn(raw: seq<Candidate>, groups: seq<Group>, test: Group -> bool, o: Callees): set<nat> {
    set i: nat | i < |raw| && InPassing(groups, test, o.groupKey(raw[i]))
  }

  ghost predicate InPassing(groups: seq<Group>, test: Group -> bool, key: string) {
    exists g :: g in groups && test(g) && g.key == key
  }

  lemma LastPlaces(raw: seq<Candidate>, groups: seq<Group>, test: Group -> bool, o: Callees)
    requires groups != [] && forall i, j :: 0 <= i < j < |groups| ==> groups[i].key != groups[j].key
    ensures var n := |groups| - 1;
            var earlier, mine := PlacesIn(raw, groups[..n], test, o), PlacesOf(raw, groups[n].key, o);
            PlacesIn(raw, groups, test, o) == (if test(groups[n]) then earlier + mine else earlier) && earlier !! mine
  {
    var n := |groups| - 1;
    assert groups == groups[..n] + [groups[n]];
    forall key ensures InPassing(groups, test, key) <==>
                       InPassing(groups[..n], test, key) || (test(groups[n]) && groups[n].key == key)
    {
      assert forall g :: g in groups <==> g in groups[..n] || g == groups[n];
    }
    forall g | g in groups[..n] ensures g.key != groups[n].key {
      var i :| 0 <= i < n && groups[..n][i] == g;
      assert groups[i] == g;
    }
  }

  lemma {:induction false} RowsCounted(raw: seq<Candidate>, groups: seq<Group>, test: Group -> bool, o: Callees)
    requires forall i, j :: 0 <= i < j < |groups| ==> groups[i].key != groups[j].key
    requires forall g :: g in groups ==> g.members == OfKey(raw, g.key, o)
    ensures RowsOf(groups, test) == |PlacesIn(raw, groups, test, o)|
  {
    if groups == [] {
      assert PlacesIn(raw, groups, test, o) == {};
    } else {
      var n := |groups| - 1;
      assert groups[n] in groups;
      RowsCounted(raw, groups[..n], test, o);
      FamilySize(raw, groups[n].key, o);
      LastPlaces(raw, groups, test, o);
      var earlier, mine := PlacesIn(raw, groups[..n], test, o), PlacesOf(raw, groups[n].key, o);
      assert |earlier + mine| == |earlier| + |mine|;
    }
  }

  /** The first raw row of the family of `c` looks like a sealed one. */
  ghost predicate FirstIsDuplicate(raw: seq<Candidate>, c: Candidate, o: Callees) {
    exists i :: && 0 <= i < |raw| && o.groupKey(raw[i]) == o.groupKey(c) && o.nearDuplicate(raw[i])
                && forall j :: 0 <= j < i ==> o.groupKey(raw[j]) != o.groupKey(c)
  }

  lemma {:induction false} FirstOfFamily(raw: seq<Candidate>, key: string, i: nat, o: Callees)
    requires i < |raw| && o.groupKey(raw[i]) == key && forall j :: 0 <= j < i ==> o.groupKey(raw[j]) != key
    ensures OfKey(raw, key, o) != [] && OfKey(raw, key, o)[0] == raw[i]
  {
    var n := |raw| - 1;
    if i < n {
      FirstOfFamily(raw[..n], key, i, o);
    } else {
      NoneOfKey(raw[..n], key, o);
    }
  }

  lemma FirstExists(raw: seq<Candidate>, c: Candidate, o: Callees) returns (i: nat)
    requires c in raw
    ensures i < |raw| && o.groupKey(raw[i]) == o.groupKey(c)
    ensures forall j :: 0 <= j < i ==> o.groupKey(raw[j]) != o.groupKey(c)
  {
    i := 0;
    while o.groupKey(raw[i]) != o.groupKey(c)
      invariant i < |raw| && forall j :: 0 <= j < i ==> o.groupKey(raw[j]) != o.groupKey(c)
      invariant exists k :: i <= k < |raw| && raw[k] == c
      decreases |raw| - i
    {
      i := i + 1;
    }
  }

  lemma DuplicateExactly(raw: seq<Candidate>, c: Candidate, o: Callees)
    requires c in raw
    ensures var family := OfKey(raw, o.groupKey(c), o);
            family != [] && (o.nearDuplicate(family[0]) <==> FirstIsDuplicate(raw, c, o))
  {
    var i := FirstExists(raw, c, o);
    FirstOfFamily(raw, o.groupKey(c), i, o);
    if FirstIsDuplicate(raw, c, o) {
      var k :| 0 <= k < |raw| && o.groupKey(raw[k]) == o.groupKey(c) && o.nearDuplicate(raw[k])
               && forall j :: 0 <= j < k ==> o.groupKey(raw[j]) != o.groupKey(c);
      assert k == i;
    }
  }

  ghost function SealedPlaces(raw: seq<Candidate>, sealed: set<string>, o: Callees): set<nat> {
    set i: nat | i < |raw| && o.familyId(o.groupKey(raw[i])) in sealed
  }

  ghost function DuplicatePlaces(raw: seq<Candidate>, sealed: set<string>, o: Callees): set<nat> {
    set i: nat | i < |raw| && o.familyId(o.groupKey(raw[i])) !in sealed && FirstIsDuplicate(raw, raw[i], o)
  }

  lemma GroupOf(groups: seq<Group>, raw: seq<Candidate>, c: Candidate, o: Callees) returns (g: Group)
    requires Grouped(groups, raw, o) && c in raw
    ensures g in groups && g.key == o.groupKey(c) && g.members == OfKey(raw, o.groupKey(c), o)
  {
    var i :| 0 <= i < |groups| && groups[i].key == o.groupKey(c);
    g := groups[i];
  }

  /** The two counters are the numbers of rows of sealed families and of families that look like sealed ones. */
  lemma DroppedExactly(groups: seq<Group>, raw: seq<Candidate>, sealed: set<string>, o: Callees)
    requires Grouped(groups, raw, o)
    ensures RowsOf(groups, Sealed(sealed, o)) == |SealedPlaces(raw, sealed, o)|
    ensures RowsOf(groups, NearDuplicate(sealed, o)) == |DuplicatePlaces(raw, sealed, o)|
  {
    RowsCounted(raw, groups, Sealed(sealed, o), o);
    RowsCounted(raw, groups, NearDuplicate(sealed, o), o);
    forall i: nat | i < |raw|
      ensures InPassing(groups, Sealed(sealed, o), o.groupKey(raw[i])) <==> o.familyId(o.groupKey(raw[i])) in sealed
      ensures InPassing(groups, NearDuplicate(sealed, o), o.groupKey(raw[i])) <==>
              o.familyId(o.groupKey(raw[i])) !in sealed && FirstIsDuplicate(raw, raw[i], o)
    {
      PassesExactly(groups, raw, sealed, o, raw[i]);
    }
    assert PlacesIn(raw, groups, Sealed(sealed, o), o) == SealedPlaces(raw, sealed, o);
    assert PlacesIn(raw, groups, NearDuplicate(sealed, o), o) == DuplicatePlaces(raw, sealed, o);
  }

  lemma PassesExactly(groups: seq<Group>, raw: seq<Candidate>, sealed: set<string>, o: Callees, c: Candidate)
    requires Grouped(groups, raw, o) && c in raw
    ensures InPassing(groups, Sealed(sealed, o), o.groupKey(c)) <==> o.familyId(o.groupKey(c)) in sealed
    ensures InPassing(groups, NearDuplicate(sealed, o), o.groupKey(c)) <==>
            o.familyId(o.groupKey(c)) !in sealed && FirstIsDuplicate(raw, c, o)
  {
    var g := GroupOf(groups, raw, c, o);
    DuplicateExactly(raw, c, o);
    if h :| h in groups && h.key == o.groupKey(c) {
      assert h.members == g.members;
    }
  }

  // ---------------------------------------------------------------- the banks

  ghost predicate IsPrimary(families: seq<Family>, x: Row, o: Callees) {
    exists f :: && f in families && f.id == x.familyId && o.side(f.id) == Development
                && o.sort(f.members) != [] && o.sort(f.members)[0] == x.candidate
  }

  ghost predicate IsSupplemental(families: seq<Family>, x: Row, o: Callees) {
    exists f, k :: && f in families && f.id == x.familyId && o.side(f.id) == Development
                   && 1 <= k < |o.sort(f.members)| && o.sort(f.members)[k] == x.candidate
  }

  ghost predicate IsHeldOut(families: seq<Family>, x: Row, o: Callees) {
    exists f :: f in families && f.id == x.familyId && o.side(f.id) == Holdout && x.candidate in f.members
  }

  lemma OneFamily(b: Banks, f: Family, o: Callees, x: Row)
    requires Sorts(o.sort)
    ensures var v := WithFamily(b, f, o);
            && (x in v.primary <==> x in b.primary || IsPrimary([f], x, o))
            && (x in v.supplemental <==> x in b.supplemental || IsSupplemental([f], x, o))
            && (x in v.holdout <==> x in b.holdout || IsHeldOut([f], x, o))
  {
    var sorted := o.sort(f.members);
    var rows := Labelled(f.id, sorted);
    SortedMembers(f.members, o);
    assert f in [f];
    forall y ensures y in rows <==> y.familyId == f.id && y.candidate in f.members {
      if y.familyId == f.id && y.candidate in f.members {
        var k :| 0 <= k < |sorted| && sorted[k] == y.candidate;
        assert rows[k] == y;
      }
    }
    if rows != [] && x in rows[1..] {
      var k :| 0 <= k < |rows[1..]| && rows[1..][k] == x;
      assert sorted[k + 1] == x.candidate;
    }
    if k :| 1 <= k < |sorted| && sorted[k] == x.candidate && x.familyId == f.id {
      assert rows[1..][k - 1] == x;
    }
  }

  lemma MoreFamilies(families: seq<Family>, x: Row, o: Callees)
    requires families != []
    ensures var n := |families| - 1;
            && (IsPrimary(families, x, o) <==> IsPrimary(families[..n], x, o) || IsPrimary([families[n]], x, o))
            && (IsSupplemental(families, x, o) <==>
                  IsSupplemental(families[..n], x, o) || IsSupplemental([families[n]], x, o))
            && (IsHeldOut(families, x, o) <==> IsHeldOut(families[..n], x, o) || IsHeldOut([families[n]], x, o))
  {
    var n := |families| - 1;
    assert forall f :: f in families <==> f in families[..n] || f in [families[n]];
  }

  /**
   The banks of a split: the first row by canonical URL of every development family is its primary one,
   its others are supplemental, and a holdout family goes there as a whole.
   */
  lemma {:induction false} BanksExactly(families: seq<Family>, o: Callees, x: Row)
    requires Sorts(o.sort)
    ensures var b := SplitAll(families, o);
            && (x in b.primary <==> IsPrimary(families, x, o))
            && (x in b.supplemental <==> IsSupplemental(families, x, o))
            && (x in b.holdout <==> IsHeldOut(families, x, o))
  {
    if families != [] {
      var n := |families| - 1;
      BanksExactly(families[..n], o, x);
      OneFamily(SplitAll(families[..n], o), families[n], o, x);
      MoreFamilies(families, x, o);
    }
  }

  /** A family is kept exactly when it is that of a raw row and neither sealed nor like a sealed one. */
  lemma KeptExactly(groups: seq<Group>, raw: seq<Candidate>, sealed: set<string>, o: Callees, f: Family)
    requires Grouped(groups, raw, o)
    ensures f in Kept(groups, sealed, o) <==>
            exists c :: && c in raw && f == Family(o.familyId(o.groupKey(c)), OfKey(raw, o.groupKey(c), o))
                        && f.id !in sealed && !FirstIsDuplicate(raw, c, o)
  {
    KeptFamilies(groups, sealed, o, f);
    if g :| g in groups && !IsSealed(g, sealed, o) && !IsNearDuplicate(g, sealed, o)
            && f == Family(o.familyId(g.key), g.members)
    {
      var c := g.members[0];
      OfKeyMeans(raw, g.key, o);
      assert c in OfKey(raw, g.key, o);
      DuplicateExactly(raw, c, o);
    }
    if c :| c in raw && f == Family(o.familyId(o.groupKey(c)), OfKey(raw, o.groupKey(c), o))
            && f.id !in sealed && !FirstIsDuplicate(raw, c, o)
    {
      var g := GroupOf(groups, raw, c, o);
      DuplicateExactly(raw, c, o);
    }
  }
}
