/**
 The shared facet profiles of a release: profiles are merged by behavioural fingerprint, named after
 their attribute set, and published with a fingerprint that comes out of a cache keyed by less than
 the fingerprint depends on. The equivalence guard makes that sound.
 */
module ProfileDedupe {
  import opened Common

  datatype AttrUse = AttrUse(attributeId: string, required: bool, cardinality: string)

  datatype Profile = Profile(id: string, attributes: seq<AttrUse>)

  datatype Def = Def(id: string, attributes: seq<AttrUse>, fingerprint: string, sources: seq<string>)

  datatype Entry = Entry(id: string, attributes: seq<AttrUse>, fingerprint: string)

  /**
   `fingerprint` is the hash of the behavioural description, which depends on every field and on the
   order of the attributes; `sortIds` the default sort; `name` the table of names with its fallback,
   which truncates; `sortById` the stable sort of the entries.
   */
  datatype Release = Release(
    fingerprint: seq<AttrUse> -> string,
    sortIds: seq<string> -> seq<string>,
    name: seq<string> -> string,
    sortById: seq<Entry> -> seq<Entry>)

  function Ids(attributes: seq<AttrUse>): (r: seq<string>)
    ensures |r| == |attributes|
    ensures forall i :: 0 <= i < |r| ==> r[i] == attributes[i].attributeId
  {
    seq(|attributes|, i requires 0 <= i < |attributes| => attributes[i].attributeId)
  }

  /** The cache key and the base of the name: the sorted attribute ids. */
  function Key(r: Release, attributes: seq<AttrUse>): seq<string> {
    r.sortIds(Ids(attributes))
  }

  function WithId(entries: seq<Entry>, id: string): seq<Entry> {
    if entries == [] then []
    else
      var n := |entries| - 1;
      WithId(entries[..n], id) + (if entries[n].id == id then [entries[n]] else [])
  }

  /** Hashes are never empty, and a stable sort keeps the order of entries with equal ids. */
  ghost predicate WellBehaved(r: Release) {
    HashesNonempty(r) && SortsStably(r)
  }

  ghost predicate HashesNonempty(r: Release) {
    forall a :: r.fingerprint(a) != ""
  }

  ghost predicate SortsStably(r: Release) {
    forall es, id :: WithId(r.sortById(es), id) == WithId(es, id)
  }

  ghost predicate DistinctIds(profiles: seq<Profile>) {
    forall i, j :: 0 <= i < j < |profiles| ==> profiles[i].id != profiles[j].id
  }

  // ---------------------------------------------------------------- merging

  /** The definition with a fingerprint, counting from the front. */
  function Find(defs: seq<Def>, fp: string): (r: Option<nat>)
    ensures r.Some? ==> r.value < |defs| && defs[r.value].fingerprint == fp
    ensures r.None? <==> forall i :: 0 <= i < |defs| ==> defs[i].fingerprint != fp
  {
    if defs == [] then None
    else
      var n := |defs| - 1;
      var earlier := Find(defs[..n], fp);
      if earlier.Some? then earlier else if defs[n].fingerprint == fp then Some(n) else None
  }

  function Fresh(r: Release, p: Profile): Def {
    Def(r.name(Key(r, p.attributes)), p.attributes, r.fingerprint(p.attributes), [p.id])
  }

  function Merge(r: Release, defs: seq<Def>, p: Profile): seq<Def> {
    match Find(defs, r.fingerprint(p.attributes))
    case None => defs + [Fresh(r, p)]
    case Some(i) => defs[i := defs[i].(sources := defs[i].sources + [p.id])]
  }

  function Merged(r: Release, profiles: seq<Profile>): seq<Def> {
    if profiles == [] then [] else Merge(r, Merged(r, profiles[..|profiles| - 1]), profiles[|profiles| - 1])
  }

  function Sharing(r: Release, profiles: seq<Profile>, fp: string): seq<string> {
    if profiles == [] then []
    else
      var n := |profiles| - 1;
      Sharing(r, profiles[..n], fp) + (if r.fingerprint(profiles[n].attributes) == fp then [profiles[n].id] else [])
  }

  ghost predicate IsDef(r: Release, d: Def) {
    d.fingerprint == r.fingerprint(d.attributes) && d.id == r.name(Key(r, d.attributes))
  }

  /** One definition per fingerprint, holding every profile with that fingerprint in order. */
  ghost predicate Partition(r: Release, defs: seq<Def>, profiles: seq<Profile>) {
    && (forall i, j :: 0 <= i < j < |defs| ==> defs[i].fingerprint != defs[j].fingerprint)
    && (forall i :: 0 <= i < |defs| ==>
          IsDef(r, defs[i]) && defs[i].sources == Sharing(r, profiles, defs[i].fingerprint))
    && (forall i :: 0 <= i < |defs| ==> defs[i].sources != [])
    && (forall p :: p in profiles ==> Find(defs, r.fingerprint(p.attributes)).Some?)
  }

  lemma SharingStep(r: Release, profiles: seq<Profile>, p: Profile, fp: string)
    ensures Sharing(r, profiles + [p], fp) ==
            Sharing(r, profiles, fp) + (if r.fingerprint(p.attributes) == fp then [p.id] else [])
  {
    assert (profiles + [p])[..|profiles|] == profiles;
  }

  lemma {:induction false} NoneSharing(r: Release, profiles: seq<Profile>, fp: string)
    requires forall p :: p in profiles ==> r.fingerprint(p.attributes) != fp
    ensures Sharing(r, profiles, fp) == []
  {
    if profiles != [] {
      NoneSharing(r, profiles[..|profiles| - 1], fp);
    }
  }

  lemma MergePartition(r: Release, defs: seq<Def>, profiles: seq<Profile>, p: Profile)
    requires Partition(r, defs, profiles)
    ensures Partition(r, Merge(r, defs, p), profiles + [p])
  {
    var fp := r.fingerprint(p.attributes);
    var found := Find(defs, fp);
    var after := Merge(r, defs, p);
    if found.None? {
      NoneSharing(r, profiles, fp);
    }
    forall i | 0 <= i < |after|
      ensures IsDef(r, after[i]) && after[i].sources == Sharing(r, profiles + [p], after[i].fingerprint)
              && after[i].sources != []
    {
      SharingStep(r, profiles, p, after[i].fingerprint);
      if i < |defs| {
        assert IsDef(r, defs[i]);
        assert found.Some? && i != found.value ==> defs[i].fingerprint != fp;
      }
    }
    assert forall i :: 0 <= i < |defs| ==> after[i].fingerprint == defs[i].fingerprint;
    forall q | q in profiles + [p] ensures Find(after, r.fingerprint(q.attributes)).Some? {
      var was := Find(defs, r.fingerprint(q.attributes));
      if q in profiles {
        assert after[was.value].fingerprint == r.fingerprint(q.attributes);
      } else if found.Some? {
        assert after[found.value].fingerprint == fp;
      } else {
        assert after[|defs|].fingerprint == fp;
      }
    }
  }

  /** Merging loses no profile, repeats none, and keeps one definition per fingerprint. */
  lemma MergedLast(r: Release, profiles: seq<Profile>)
    requires profiles != []
    ensures var n := |profiles| - 1; Merged(r, profiles) == Merge(r, Merged(r, profiles[..n]), profiles[n])
  {
  }

  lemma {:induction false} MergedPartitions(r: Release, profiles: seq<Profile>)
    ensures Partition(r, Merged(r, profiles), profiles)
  {
    if profiles != [] {
      var init, last := profiles[..|profiles| - 1], profiles[|profiles| - 1];
      assert profiles == init + [last];
      MergedPartitions(r, init);
      MergedLast(r, profiles);
      MergePartition(r, Merged(r, init), init, last);
    }
  }

  /** The shared id a profile is mapped to. */
  function AssignedId(r: Release, profiles: seq<Profile>, p: Profile): string {
    var defs := Merged(r, profiles);
    match Find(defs, r.fingerprint(p.attributes))
    case None => ""
    case Some(i) => defs[i].id
  }

  /** Merging one more profile moves and renames no definition. */
  lemma {:induction false} FindKept(r: Release, defs: seq<Def>, p: Profile, fp: string)
    requires Find(defs, fp).Some?
    requires forall i, j :: 0 <= i < j < |defs| ==> defs[i].fingerprint != defs[j].fingerprint
    ensures var after := Merge(r, defs, p);
            Find(after, fp) == Find(defs, fp) && after[Find(defs, fp).value].id == defs[Find(defs, fp).value].id
  {
    var after := Merge(r, defs, p);
    var i := Find(defs, fp).value;
    assert after[i].fingerprint == fp;
    var j := Find(after, fp).value;
    if Find(defs, r.fingerprint(p.attributes)).Some? {
      assert forall k :: 0 <= k < |defs| ==> after[k].fingerprint == defs[k].fingerprint;
    } else {
      FindAppend(defs, Fresh(r, p), fp);
    }
  }

  lemma FindAppend(defs: seq<Def>, d: Def, fp: string)
    ensures Find(defs, fp).Some? ==> Find(defs + [d], fp) == Find(defs, fp)
  {
    assert (defs + [d])[..|defs|] == defs;
  }

  /** One profile joins the definition with its fingerprint, or makes one; `id` is that definition's. */
  method MergeProfile(r: Release, defs: seq<Def>, p: Profile) returns (defs': seq<Def>, id: string)
    ensures defs' == Merge(r, defs, p)
    ensures var found := Find(defs, r.fingerprint(p.attributes));
            id == if found.Some? then defs[found.value].id else Fresh(r, p).id
  {
    var found := Find(defs, r.fingerprint(p.attributes));
    if found.Some? {
      var i := found.value;
      return defs[i := defs[i].(sources := defs[i].sources + [p.id])], defs[i].id;
    }
    var def := Fresh(r, p);
    return defs + [def], def.id;
  }

  /** The merging loop: an insertion-ordered map from fingerprint to definition, and the id map. */
  method Dedupe(r: Release, profiles: seq<Profile>) returns (defs: seq<Def>, v4Id: map<string, string>)
    requires DistinctIds(profiles)
    ensures defs == Merged(r, profiles)
    ensures forall p :: p in profiles ==> p.id in v4Id && v4Id[p.id] == AssignedId(r, profiles, p)
  {
    defs, v4Id := [], map[];
    for n := 0 to |profiles|
      invariant defs == Merged(r, profiles[..n])
      invariant forall i :: 0 <= i < n ==>
                  profiles[i].id in v4Id && v4Id[profiles[i].id] == AssignedId(r, profiles[..n], profiles[i])
    {
      MergeStep(r, profiles, n);
      var id;
      defs, id := MergeProfile(r, defs, profiles[n]);
      v4Id := v4Id[profiles[n].id := id];
    }
    assert profiles[..|profiles|] == profiles;
  }

  lemma MergedNext(r: Release, profiles: seq<Profile>, n: nat)
    requires n < |profiles|
    ensures Merged(r, profiles[..n + 1]) == Merge(r, Merged(r, profiles[..n]), profiles[n])
  {
    assert profiles[..n + 1][..n] == profiles[..n];
  }

  lemma AssignedKept(r: Release, profiles: seq<Profile>, n: nat, i: nat)
    requires i < n < |profiles|
    ensures AssignedId(r, profiles[..n + 1], profiles[i]) == AssignedId(r, profiles[..n], profiles[i])
  {
    MergedNext(r, profiles, n);
    MergedPartitions(r, profiles[..n]);
    assert profiles[i] in profiles[..n];
    FindKept(r, Merged(r, profiles[..n]), profiles[n], r.fingerprint(profiles[i].attributes));
  }

  lemma AssignedNew(r: Release, profiles: seq<Profile>, n: nat)
    requires n < |profiles|
    ensures Find(Merged(r, profiles[..n + 1]), r.fingerprint(profiles[n].attributes)).Some?
    ensures var found := Find(Merged(r, profiles[..n]), r.fingerprint(profiles[n].attributes));
            AssignedId(r, profiles[..n + 1], profiles[n]) ==
            if found.Some? then Merged(r, profiles[..n])[found.value].id else Fresh(r, profiles[n]).id
  {
    var defs, p := Merged(r, profiles[..n]), profiles[n];
    var fp := r.fingerprint(p.attributes);
    MergedNext(r, profiles, n);
    MergedPartitions(r, profiles[..n]);
    if Find(defs, fp).Some? {
      FindKept(r, defs, p, fp);
    } else {
      assert (defs + [Fresh(r, p)])[..|defs|] == defs;
    }
  }

  lemma MergeStep(r: Release, profiles: seq<Profile>, n: nat)
    requires n < |profiles|
    ensures Merged(r, profiles[..n + 1]) == Merge(r, Merged(r, profiles[..n]), profiles[n])
    ensures forall i :: 0 <= i < n ==>
              AssignedId(r, profiles[..n + 1], profiles[i]) == AssignedId(r, profiles[..n], profiles[i])
    ensures Find(Merged(r, profiles[..n + 1]), r.fingerprint(profiles[n].attributes)).Some?
    ensures var found := Find(Merged(r, profiles[..n]), r.fingerprint(profiles[n].attributes));
            AssignedId(r, profiles[..n + 1], profiles[n]) ==
            if found.Some? then Merged(r, profiles[..n])[found.value].id else Fresh(r, profiles[n]).id
  {
    MergedNext(r, profiles, n);
    AssignedNew(r, profiles, n);
    forall i | 0 <= i < n
      ensures AssignedId(r, profiles[..n + 1], profiles[i]) == AssignedId(r, profiles[..n], profiles[i])
    {
      AssignedKept(r, profiles, n, i);
    }
  }

  // ---------------------------------------------------------------- the fingerprint cache

  /** The first definition with a cache key. */
  function FindKey(r: Release, defs: seq<Def>, key: seq<string>): (n: Option<nat>)
    ensures n.Some? ==> n.value < |defs| && Key(r, defs[n.value].attributes) == key
    ensures n.None? <==> forall i :: 0 <= i < |defs| ==> Key(r, defs[i].attributes) != key
  {
    if defs == [] then None
    else
      var n := |defs| - 1;
      var earlier := FindKey(r, defs[..n], key);
      if earlier.Some? then earlier else if Key(r, defs[n].attributes) == key then Some(n) else None
  }

  ghost predicate NoBlank(cache: map<seq<string>, string>) {
    forall k :: k in cache ==> cache[k] != ""
  }

  class FingerprintCache {
    const release: Release
    var cache: map<seq<string>, string>

    constructor (release: Release)
      ensures this.release == release && cache == map[]
    {
      this.release := release;
      cache := map[];
    }

    /** Computes at most once for each key, whatever else the value depends on. */
    method Fingerprint(attributes: seq<AttrUse>) returns (fp: string)
      requires HashesNonempty(release) && NoBlank(cache)
      modifies this
      ensures var key := Key(release, attributes);
              && fp == (if key in old(cache) then old(cache)[key] else release.fingerprint(attributes))
              && cache == old(cache)[key := fp]
      ensures NoBlank(cache)
    {
      var key := Key(release, attributes);
      if key in cache && cache[key] != "" {
        fp := cache[key];
        assert cache == cache[key := fp];
        return;
      }
      fp := release.fingerprint(attributes);
      cache := cache[key := fp];
    }
  }

  /** What the cache answers for a definition: the fingerprint of the first one with its key. */
  function CachedFingerprint(r: Release, defs: seq<Def>, d: Def): string {
    match FindKey(r, defs, Key(r, d.attributes))
    case None => r.fingerprint(d.attributes)
    case Some(i) => r.fingerprint(defs[i].attributes)
  }

  function Entries(r: Release, defs: seq<Def>): (es: seq<Entry>)
    ensures |es| == |defs|
    ensures forall i :: 0 <= i < |es| ==>
              es[i] == Entry(defs[i].id, defs[i].attributes, CachedFingerprint(r, defs, defs[i]))
  {
    seq(|defs|, i requires 0 <= i < |defs| =>
          Entry(defs[i].id, defs[i].attributes, CachedFingerprint(r, defs, defs[i])))
  }

  lemma FindKeyPrefix(r: Release, defs: seq<Def>, n: nat, key: seq<string>)
    requires n <= |defs|
    ensures FindKey(r, defs[..n], key).Some? ==> FindKey(r, defs, key) == FindKey(r, defs[..n], key)
    decreases |defs|
  {
    if n < |defs| {
      var m := |defs| - 1;
      FindKeyPrefix(r, defs[..m], n, key);
      assert defs[..m][..n] == defs[..n];
    } else {
      assert defs[..n] == defs;
    }
  }

  lemma FindKeyStep(r: Release, defs: seq<Def>, n: nat, key: seq<string>)
    requires n < |defs|
    ensures FindKey(r, defs[..n + 1], key) ==
            if FindKey(r, defs[..n], key).Some? then FindKey(r, defs[..n], key)
            else if Key(r, defs[n].attributes) == key then Some(n) else None
  {
    assert defs[..n + 1][..n] == defs[..n];
  }

  /** The cache holds one value for each key met, computed from the first definition that had it. */
  ghost predicate Filled(r: Release, cache: map<seq<string>, string>, defs: seq<Def>) {
    forall key :: && (key in cache <==> FindKey(r, defs, key).Some?)
                  && (key in cache ==> cache[key] == r.fingerprint(defs[FindKey(r, defs, key).value].attributes))
  }

  lemma FilledStep(r: Release, cache: map<seq<string>, string>, defs: seq<Def>, n: nat)
    requires n < |defs| && Filled(r, cache, defs[..n])
    ensures var key := Key(r, defs[n].attributes);
            var fp := if key in cache then cache[key] else r.fingerprint(defs[n].attributes);
            Filled(r, cache[key := fp], defs[..n + 1]) && fp == CachedFingerprint(r, defs, defs[n])
  {
    var mine := Key(r, defs[n].attributes);
    var fp := if mine in cache then cache[mine] else r.fingerprint(defs[n].attributes);
    var after := cache[mine := fp];
    FindKeyStep(r, defs, n, mine);
    FindKeyPrefix(r, defs, n + 1, mine);
    forall key
      ensures key in after <==> FindKey(r, defs[..n + 1], key).Some?
      ensures key in after ==> after[key] == r.fingerprint(defs[FindKey(r, defs[..n + 1], key).value].attributes)
    {
      FindKeyStep(r, defs, n, key);
    }
  }

  /** The cached fingerprint of the next definition. */
  method FingerprintNext(c: FingerprintCache, defs: seq<Def>, n: nat) returns (fp: string)
    requires n < |defs| && HashesNonempty(c.release)
    requires NoBlank(c.cache) && Filled(c.release, c.cache, defs[..n])
    modifies c
    ensures NoBlank(c.cache) && Filled(c.release, c.cache, defs[..n + 1])
    ensures fp == CachedFingerprint(c.release, defs, defs[n])
  {
    FilledStep(c.release, c.cache, defs, n);
    fp := c.Fingerprint(defs[n].attributes);
  }

  lemma NothingFilled(r: Release, defs: seq<Def>)
    ensures Filled(r, map[], defs[..0])
  {
  }

  /** The published entries, before they are sorted. */
  method BuildEntries(r: Release, defs: seq<Def>) returns (entries: seq<Entry>)
    requires HashesNonempty(r)
    ensures entries == Entries(r, defs)
  {
    var c := new FingerprintCache(r);
    NothingFilled(r, defs);
    entries := [];
    for n := 0 to |defs|
      invariant c.release == r && |entries| == n && NoBlank(c.cache) && Filled(r, c.cache, defs[..n])
      invariant forall i :: 0 <= i < n ==> entries[i] == Entries(r, defs)[i]
    {
      var fp := FingerprintNext(c, defs, n);
      entries := entries + [Entry(defs[n].id, defs[n].attributes, fp)];
    }
  }

  // ---------------------------------------------------------------- the guard

  /** The first entry with an id. */
  function FindEntry(entries: seq<Entry>, id: string): Option<Entry> {
    if entries == [] then None
    else
      var n := |entries| - 1;
      var earlier := FindEntry(entries[..n], id);
      if earlier.Some? then earlier else if entries[n].id == id then Some(entries[n]) else None
  }

  lemma {:induction false} FindEntryIsFirst(entries: seq<Entry>, id: string)
    ensures FindEntry(entries, id) == if WithId(entries, id) == [] then None else Some(WithId(entries, id)[0])
  {
    if entries != [] {
      FindEntryIsFirst(entries[..|entries| - 1], id);
    }
  }

  /** The fingerprint published under an id. */
  function Published(r: Release, profiles: seq<Profile>, id: string): Option<Entry> {
    FindEntry(Entries(r, Merged(r, profiles)), id)
  }

  lemma SortingKeepsFirst(r: Release, entries: seq<Entry>, id: string)
    requires SortsStably(r)
    ensures FindEntry(r.sortById(entries), id) == FindEntry(entries, id)
  {
    FindEntryIsFirst(r.sortById(entries), id);
    FindEntryIsFirst(entries, id);
  }

  ghost predicate GuardPasses(r: Release, profiles: seq<Profile>) {
    forall p :: p in profiles ==>
      var e := Published(r, profiles, AssignedId(r, profiles, p));
      e.Some? && e.value.fingerprint == r.fingerprint(p.attributes)
  }

  ghost predicate SharedIdsAgree(r: Release, profiles: seq<Profile>) {
    forall p, q :: p in profiles && q in profiles && AssignedId(r, profiles, p) == AssignedId(r, profiles, q) ==>
      r.fingerprint(p.attributes) == r.fingerprint(q.attributes)
  }

  lemma {:induction false} FindEntrySome(entries: seq<Entry>, id: string)
    ensures FindEntry(entries, id).Some? ==>
              exists i :: 0 <= i < |entries| && entries[i] == FindEntry(entries, id).value && entries[i].id == id
    ensures (exists i :: 0 <= i < |entries| && entries[i].id == id) ==> FindEntry(entries, id).Some?
  {
    if entries != [] {
      var n := |entries| - 1;
      FindEntrySome(entries[..n], id);
      if i :| 0 <= i < |entries| && entries[i].id == id {
        if i < n {
          assert entries[..n][i].id == id;
        }
      }
    }
  }

  lemma {:induction false} SharingSome(r: Release, profiles: seq<Profile>, fp: string)
    requires Sharing(r, profiles, fp) != []
    ensures exists p :: p in profiles && r.fingerprint(p.attributes) == fp
  {
    var n := |profiles| - 1;
    if r.fingerprint(profiles[n].attributes) != fp {
      SharingSome(r, profiles[..n], fp);
      var p :| p in profiles[..n] && r.fingerprint(p.attributes) == fp;
      assert p in profiles;
    }
  }

  /** Each definition is one some profile is mapped to. */
  lemma DefOfProfile(r: Release, profiles: seq<Profile>, i: nat) returns (p: Profile)
    requires i < |Merged(r, profiles)|
    ensures p in profiles && r.fingerprint(p.attributes) == Merged(r, profiles)[i].fingerprint
    ensures AssignedId(r, profiles, p) == Merged(r, profiles)[i].id
  {
    MergedPartitions(r, profiles);
    var defs := Merged(r, profiles);
    assert IsDef(r, defs[i]);
    SharingSome(r, profiles, defs[i].fingerprint);
    p :| p in profiles && r.fingerprint(p.attributes) == defs[i].fingerprint;
    var j := Find(defs, defs[i].fingerprint).value;
    assert i == j;
  }

  /** Ids and fingerprints of the shared profiles correspond one to one. */
  ghost predicate OneToOne(defs: seq<Def>) {
    forall i, j :: 0 <= i < |defs| && 0 <= j < |defs| ==>
      (defs[i].id == defs[j].id <==> i == j) && (defs[i].fingerprint == defs[j].fingerprint <==> i == j)
  }

  lemma AgreeingIdsAreOneToOne(r: Release, profiles: seq<Profile>)
    requires SharedIdsAgree(r, profiles)
    ensures OneToOne(Merged(r, profiles))
  {
    var defs := Merged(r, profiles);
    MergedPartitions(r, profiles);
    forall i, j | 0 <= i < |defs| && 0 <= j < |defs| && defs[i].id == defs[j].id ensures i == j {
      var p := DefOfProfile(r, profiles, i);
      var q := DefOfProfile(r, profiles, j);
      assert defs[i].fingerprint == defs[j].fingerprint;
    }
  }

  /** With one id for each definition, two with one key are the same, so the cache is exact. */
  lemma CacheIsExact(r: Release, profiles: seq<Profile>, i: nat)
    requires OneToOne(Merged(r, profiles)) && i < |Merged(r, profiles)|
    ensures var defs := Merged(r, profiles);
            CachedFingerprint(r, defs, defs[i]) == r.fingerprint(defs[i].attributes) == defs[i].fingerprint
  {
    MergedPartitions(r, profiles);
    var defs := Merged(r, profiles);
    assert IsDef(r, defs[i]);
    var first := FindKey(r, defs, Key(r, defs[i].attributes)).value;
    assert IsDef(r, defs[first]);
  }

  lemma AssignedIsDef(r: Release, profiles: seq<Profile>, p: Profile) returns (i: nat)
    requires p in profiles
    ensures i < |Merged(r, profiles)|
    ensures Merged(r, profiles)[i].id == AssignedId(r, profiles, p)
    ensures Merged(r, profiles)[i].fingerprint == r.fingerprint(p.attributes)
  {
    MergedPartitions(r, profiles);
    i := Find(Merged(r, profiles), r.fingerprint(p.attributes)).value;
  }

  /**
   The guard passes exactly when profiles that share an id share a fingerprint; then ids and
   fingerprints correspond one to one, and every cached fingerprint is the one computed afresh.
   */
  lemma GuardExactly(r: Release, profiles: seq<Profile>)
    ensures GuardPasses(r, profiles) <==> SharedIdsAgree(r, profiles)
    ensures GuardPasses(r, profiles) ==>
              var defs := Merged(r, profiles);
              && OneToOne(defs)
              && (forall i :: 0 <= i < |defs| ==>
                  CachedFingerprint(r, defs, defs[i]) == r.fingerprint(defs[i].attributes))
  {
    if SharedIdsAgree(r, profiles) {
      var defs := Merged(r, profiles);
      AgreeingIdsAreOneToOne(r, profiles);
      forall i | 0 <= i < |defs| ensures CachedFingerprint(r, defs, defs[i]) == r.fingerprint(defs[i].attributes) {
        CacheIsExact(r, profiles, i);
      }
      forall p | p in profiles
        ensures Published(r, profiles, AssignedId(r, profiles, p)).Some?
        ensures Published(r, profiles, AssignedId(r, profiles, p)).value.fingerprint == r.fingerprint(p.attributes)
      {
        AgreeingPublishes(r, profiles, p);
      }
    }
  }

  lemma AgreeingPublishes(r: Release, profiles: seq<Profile>, p: Profile)
    requires p in profiles && OneToOne(Merged(r, profiles))
    ensures Published(r, profiles, AssignedId(r, profiles, p)).Some?
    ensures Published(r, profiles, AssignedId(r, profiles, p)).value.fingerprint == r.fingerprint(p.attributes)
  {
    var defs := Merged(r, profiles);
    var id := AssignedId(r, profiles, p);
    var i := AssignedIsDef(r, profiles, p);
    FindEntrySome(Entries(r, defs), id);
    assert Entries(r, defs)[i].id == id;
    var j :| 0 <= j < |defs| && Entries(r, defs)[j] == Published(r, profiles, id).value && Entries(r, defs)[j].id == id;
    assert defs[j].id == defs[i].id;
    CacheIsExact(r, profiles, i);
  }

  /** The entries publish a profile's own fingerprint under its id. */
  ghost predicate Publishes(r: Release, profiles: seq<Profile>, entries: seq<Entry>, p: Profile) {
    Equivalent(r, entries, AssignedId(r, profiles, p), p)
  }

  lemma GuardOnSorted(r: Release, profiles: seq<Profile>)
    requires SortsStably(r)
    ensures var entries := r.sortById(Entries(r, Merged(r, profiles)));
            GuardPasses(r, profiles) <==> forall p :: p in profiles ==> Publishes(r, profiles, entries, p)
  {
    var unsorted := Entries(r, Merged(r, profiles));
    var entries := r.sortById(unsorted);
    forall p | p in profiles
      ensures FindEntry(entries, AssignedId(r, profiles, p)) == Published(r, profiles, AssignedId(r, profiles, p))
    {
      SortingKeepsFirst(r, unsorted, AssignedId(r, profiles, p));
    }
    if forall p :: p in profiles ==> Publishes(r, profiles, entries, p) {
      forall p | p in profiles
        ensures var e := Published(r, profiles, AssignedId(r, profiles, p));
                e.Some? && e.value.fingerprint == r.fingerprint(p.attributes)
      {
        assert Publishes(r, profiles, entries, p);
      }
    }
  }

  /** The guard's test of one profile. */
  predicate Equivalent(r: Release, entries: seq<Entry>, id: string, p: Profile) {
    var e := FindEntry(entries, id);
    e.Some? && e.value.fingerprint == r.fingerprint(p.attributes)
  }

  /** The guard: the first mismatch fails the build. */
  method Guard(r: Release, profiles: seq<Profile>, entries: seq<Entry>, v4Id: map<string, string>) returns (ok: bool)
    requires forall p :: p in profiles ==> p.id in v4Id
    ensures ok <==> forall p :: p in profiles ==> Equivalent(r, entries, v4Id[p.id], p)
  {
    for n := 0 to |profiles|
      invariant forall i :: 0 <= i < n ==> Equivalent(r, entries, v4Id[profiles[i].id], profiles[i])
    {
      var p := profiles[n];
      assert p in profiles;
      if !Equivalent(r, entries, v4Id[p.id], p) {
        return false;
      }
    }
    return true;
  }

  /** The release step: it ships exactly when profiles that share an id share a fingerprint. */
  method BuildProfiles(r: Release, profiles: seq<Profile>) returns (shipped: Result<seq<Entry>>)
    requires WellBehaved(r) && DistinctIds(profiles)
    ensures shipped.Ok? <==> SharedIdsAgree(r, profiles)
    ensures shipped.Ok? ==>
              && OneToOne(Merged(r, profiles))
              && shipped.value == r.sortById(Entries(r, Merged(r, profiles)))
              && forall p :: p in profiles ==> Publishes(r, profiles, shipped.value, p)
  {
    var defs, v4Id := Dedupe(r, profiles);
    var unsorted := BuildEntries(r, defs);
    var entries := r.sortById(unsorted);
    GuardExactly(r, profiles);
    GuardOnSorted(r, profiles);
    var ok := Guard(r, profiles, entries, v4Id);
    return if ok then Ok(entries) else Err("Profile equivalence failure");
  }

  // ---------------------------------------------------------------- in terms of the profiles

  /** No earlier profile has the fingerprint of profile `i`. */
  ghost predicate FirstOfPrint(r: Release, profiles: seq<Profile>, i: nat) {
    && i < |profiles|
    && forall j :: 0 <= j < i ==> r.fingerprint(profiles[j].attributes) != r.fingerprint(profiles[i].attributes)
  }

  /** Merging keeps the attributes, too, of every definition there is. */
  lemma FoundKept(r: Release, defs: seq<Def>, p: Profile, fp: string)
    requires Find(defs, fp).Some?
    requires forall i, j :: 0 <= i < j < |defs| ==> defs[i].fingerprint != defs[j].fingerprint
    ensures var after, i := Merge(r, defs, p), Find(defs, fp).value;
            Find(after, fp) == Some(i) && after[i] == defs[i].(sources := after[i].sources)
  {
    FindKept(r, defs, p, fp);
  }

  lemma NoneFound(r: Release, profiles: seq<Profile>, fp: string)
    requires forall p :: p in profiles ==> r.fingerprint(p.attributes) != fp
    ensures Find(Merged(r, profiles), fp).None?
  {
    var defs := Merged(r, profiles);
    MergedPartitions(r, profiles);
    if Find(defs, fp).Some? {
      var i := Find(defs, fp).value;
      assert IsDef(r, defs[i]) && defs[i].sources == Sharing(r, profiles, fp);
      NoneSharing(r, profiles, fp);
    }
  }

  lemma FoundLast(r: Release, defs: seq<Def>, d: Def)
    requires Find(defs, d.fingerprint).None?
    ensures Find(defs + [d], d.fingerprint) == Some(|defs|)
  {
    assert (defs + [d])[..|defs|] == defs;
  }

  lemma NewlyFound(r: Release, profiles: seq<Profile>)
    requires profiles != [] && FirstOfPrint(r, profiles, |profiles| - 1)
    ensures var defs, a := Merged(r, profiles), profiles[|profiles| - 1].attributes;
            var found := Find(defs, r.fingerprint(a));
            found.Some? && defs[found.value].attributes == a
  {
    var n := |profiles| - 1;
    forall p | p in profiles[..n] ensures r.fingerprint(p.attributes) != r.fingerprint(profiles[n].attributes) {
      var j :| 0 <= j < n && profiles[..n][j] == p;
      assert profiles[j] == p;
    }
    NoneFound(r, profiles[..n], r.fingerprint(profiles[n].attributes));
    FoundLast(r, Merged(r, profiles[..n]), Fresh(r, profiles[n]));
  }

  lemma {:induction false} FirstAttributes(r: Release, profiles: seq<Profile>, i: nat)
    requires FirstOfPrint(r, profiles, i)
    ensures var defs, a := Merged(r, profiles), profiles[i].attributes;
            var found := Find(defs, r.fingerprint(a));
            found.Some? && defs[found.value].attributes == a
  {
    var n := |profiles| - 1;
    if i < n {
      FirstAttributes(r, profiles[..n], i);
      MergedPartitions(r, profiles[..n]);
      FoundKept(r, Merged(r, profiles[..n]), profiles[n], r.fingerprint(profiles[i].attributes));
    } else {
      NewlyFound(r, profiles);
    }
  }

  /**
   The definition of a fingerprint is made of the first profile that has it: its attributes, under the name
   of their sorted ids.
   */
  lemma DefinitionExactly(r: Release, profiles: seq<Profile>, i: nat)
    requires FirstOfPrint(r, profiles, i)
    ensures var defs, a := Merged(r, profiles), profiles[i].attributes;
            var found := Find(defs, r.fingerprint(a));
            && found.Some?
            && defs[found.value] == Def(r.name(r.sortIds(Ids(a))), a, r.fingerprint(a),
                                        Sharing(r, profiles, r.fingerprint(a)))
  {
    FirstAttributes(r, profiles, i);
    MergedPartitions(r, profiles);
    var defs := Merged(r, profiles);
    assert IsDef(r, defs[Find(defs, r.fingerprint(profiles[i].attributes)).value]);
  }

  /** Every profile gets the name that the first profile with its fingerprint gives. */
  lemma AssignedExactly(r: Release, profiles: seq<Profile>, i: nat, p: Profile)
    requires FirstOfPrint(r, profiles, i) && r.fingerprint(p.attributes) == r.fingerprint(profiles[i].attributes)
    ensures AssignedId(r, profiles, p) == r.name(r.sortIds(Ids(profiles[i].attributes)))
  {
    DefinitionExactly(r, profiles, i);
  }

  /** The sources of a definition: one more profile joins them exactly when it has the fingerprint. */
  lemma SourcesExactly(r: Release, profiles: seq<Profile>, p: Profile, fp: string)
    ensures Sharing(r, [], fp) == []
    ensures Sharing(r, profiles + [p], fp) ==
            if r.fingerprint(p.attributes) == fp then Sharing(r, profiles, fp) + [p.id] else Sharing(r, profiles, fp)
  {
    SharingStep(r, profiles, p, fp);
  }
}
