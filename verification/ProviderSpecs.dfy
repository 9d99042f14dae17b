/** Choosing provider specs (specs.go): configured ids first, then a query answered by the
    backend, then the client-side filter over its list of locations, then "best available".
    ParseId is a function from text to the canonical text of the id, if there is one. */
module ProviderSpecs {
  import opened Text

  // ---------- The query ----------

  function IndexOf(s: string, c: char): (i: int)
    ensures -1 <= i < |s|
    ensures i == -1 <==> c !in s
    ensures i >= 0 ==> s[i] == c && c !in s[..i]
  {
    if s == "" then -1
    else if s[0] == c then 0
    else
      var i := IndexOf(s[1..], c);
      assert s == [s[0]] + s[1..];
      assert i >= 0 ==> s[..i + 1] == [s[0]] + s[1..][..i];
      if i < 0 then -1 else i + 1
  }

  function ParseKV(q: string): Option<(string, string)> {
    var i := IndexOf(q, ':');
    if i < 0 then None else Some((q[..i], q[i + 1..]))
  }

  // The key never holds a colon, the value may hold any number.
  lemma ParseKVInverts(q: string, key: string, value: string)
    ensures ParseKV(q) == Some((key, value)) <==> ':' !in key && q == key + ":" + value
    ensures ParseKV(q) == None <==> ':' !in q
  {
    var i := IndexOf(q, ':');
    if ':' !in key && q == key + ":" + value {
      assert q[|key|] == ':';
      assert forall j :: 0 <= j < |key| ==> q[j] == key[j];
      assert forall j :: 0 <= j < i ==> q[..i][j] == q[j];
      assert i == |key|;
      assert q[..i] == key && q[i + 1..] == value;
    }
    if i >= 0 {
      assert q == q[..i] + ":" + q[i + 1..];
    }
  }

  // raw is the value as written, norm the value trimmed and in lower case.
  datatype Query = Query(key: string, raw: string, norm: string)

  function ReadQuery(q: string): Query {
    match ParseKV(q)
    case Some((key, value)) => Query(Lower(TrimSpace(key)), value, Lower(TrimSpace(value)))
    case None => Query("name", TrimSpace(q), Lower(TrimSpace(TrimSpace(q))))
  }

  // ---------- Matching ----------

  datatype Group = Group(id: string, name: string)

  datatype Location = Location(
    id: string, kind: string, name: string, country: string, countryCode: string, region: string,
    countryId: string, regionId: string)

  datatype Listing = Listing(groups: seq<Group>, locations: seq<Location>)

  predicate MatchValue(s: string, norm: string) {
    var t := Lower(TrimSpace(s));
    if norm == "*" then t != "" else HasSubstring(t, norm)
  }

  predicate EqualFold(s: string, t: string) { Lower(s) == Lower(t) }

  predicate MatchesGroup(q: Query, g: Group) { (q.key == "group" || q.key == "name") && MatchValue(g.name, q.norm) }

  predicate MatchesLocation(q: Query, l: Location) {
    if q.key == "country" then MatchValue(l.country, q.norm) || MatchValue(l.name, q.norm)
    else if q.key == "country_code" then EqualFold(TrimSpace(l.countryCode), q.raw)
    else if q.key == "region" then MatchValue(l.region, q.norm) || (l.kind == "region" && MatchValue(l.name, q.norm))
    else if q.key == "name" then MatchValue(l.name, q.norm)
    else MatchValue(l.name, q.norm) || MatchValue(l.country, q.norm) || MatchValue(l.region, q.norm)
  }

  // The id that stands for a matching location.
  function IdOf(q: Query, l: Location): string {
    if q.key == "country" && l.countryId != "" then l.countryId
    else if q.key == "region" && l.regionId != "" then l.regionId
    else l.id
  }

  // ---------- What a query should yield ----------

  datatype Spec = GroupSpec(id: string) | LocationSpec(id: string) | BestAvailable

  type ParseId = string -> Option<string>

  // The matching entries with an id that parses, groups before locations.
  function GroupHits(parse: ParseId, q: Query, gs: seq<Group>): seq<Spec> {
    if gs == [] then []
    else
      var n := |gs| - 1;
      var id := parse(gs[n].id);
      var front := GroupHits(parse, q, gs[..n]);
      if MatchesGroup(q, gs[n]) && id.Some? then front + [GroupSpec(id.value)] else front
  }

  function LocationHits(parse: ParseId, q: Query, ls: seq<Location>): seq<Spec> {
    if ls == [] then []
    else
      var n := |ls| - 1;
      var id := parse(IdOf(q, ls[n]));
      var front := LocationHits(parse, q, ls[..n]);
      if MatchesLocation(q, ls[n]) && id.Some? then front + [LocationSpec(id.value)] else front
  }

  function Hits(parse: ParseId, q: Query, all: Listing): seq<Spec> {
    GroupHits(parse, q, all.groups) + LocationHits(parse, q, all.locations)
  }

  predicate Identified(l: seq<Spec>) { forall s :: s in l ==> !s.BestAvailable? }

  function Ids(l: seq<Spec>): set<string>
    requires Identified(l)
  {
    set s | s in l :: s.id
  }

  // Keeping the first spec of each id, whether it names a group or a location.
  function Distinct(l: seq<Spec>): (r: seq<Spec>)
    requires Identified(l)
    ensures Identified(r) && Ids(r) == Ids(l)
  {
    if l == [] then []
    else
      var n := |l| - 1;
      var r := Distinct(l[..n]);
      assert l == l[..n] + [l[n]];
      assert Ids(l) == Ids(l[..n]) + {l[n].id};
      assert Ids(r + [l[n]]) == Ids(r) + {l[n].id};
      if l[n].id in Ids(l[..n]) then r else r + [l[n]]
  }

  lemma {:induction false} HitsAreIdentified(parse: ParseId, q: Query, all: Listing)
    ensures Identified(GroupHits(parse, q, all.groups))
    ensures Identified(LocationHits(parse, q, all.locations))
    ensures Identified(Hits(parse, q, all))
    decreases |all.groups| + |all.locations|
  {
    if all.groups != [] {
      HitsAreIdentified(parse, q, all.(groups := all.groups[..|all.groups| - 1]));
    } else if all.locations != [] {
      HitsAreIdentified(parse, q, all.(locations := all.locations[..|all.locations| - 1]));
    }
  }

  function SpecsFor(parse: ParseId, q: string, all: Listing): seq<Spec> {
    var query := ReadQuery(q);
    HitsAreIdentified(parse, query, all);
    Distinct(Hits(parse, query, all))
  }

  // Appends a spec unless its id was seen before.
  method AddNew(ghost l: seq<Spec>, specs: seq<Spec>, seen: set<string>, x: Spec)
    returns (specs': seq<Spec>, seen': set<string>)
    requires Identified(l) && !x.BestAvailable?
    requires specs == Distinct(l) && seen == Ids(specs)
    ensures Identified(l + [x]) && specs' == Distinct(l + [x]) && seen' == Ids(specs')
  {
    assert (l + [x])[..|l|] == l;
    if x.id in seen {
      return specs, seen;
    }
    assert Ids(specs + [x]) == seen + {x.id};
    return specs + [x], seen + {x.id};
  }

  // ---------- filterLocationsFallback ----------

  // The matching entries, in their order.
  function KeepGroups(q: Query, gs: seq<Group>): seq<Group> {
    if gs == [] then []
    else
      var n := |gs| - 1;
      if MatchesGroup(q, gs[n]) then KeepGroups(q, gs[..n]) + [gs[n]] else KeepGroups(q, gs[..n])
  }

  function KeepLocations(q: Query, ls: seq<Location>): seq<Location> {
    if ls == [] then []
    else
      var n := |ls| - 1;
      if MatchesLocation(q, ls[n]) then KeepLocations(q, ls[..n]) + [ls[n]] else KeepLocations(q, ls[..n])
  }

  function Kept(q: Query, all: Listing): Listing {
    Listing(KeepGroups(q, all.groups), KeepLocations(q, all.locations))
  }

  lemma {:induction false} KeptGroupsHit(parse: ParseId, q: Query, gs: seq<Group>)
    ensures GroupHits(parse, q, KeepGroups(q, gs)) == GroupHits(parse, q, gs)
    ensures forall g :: g in KeepGroups(q, gs) ==> MatchesGroup(q, g)
  {
    hide MatchesGroup;
    if gs != [] {
      var n := |gs| - 1;
      KeptGroupsHit(parse, q, gs[..n]);
      var k := KeepGroups(q, gs[..n]);
      assert (k + [gs[n]])[..|k|] == k;
    }
  }

  lemma {:induction false} KeptLocationsHit(parse: ParseId, q: Query, ls: seq<Location>)
    ensures LocationHits(parse, q, KeepLocations(q, ls)) == LocationHits(parse, q, ls)
    ensures forall l :: l in KeepLocations(q, ls) ==> MatchesLocation(q, l)
  {
    hide MatchesLocation, IdOf;
    if ls != [] {
      var n := |ls| - 1;
      KeptLocationsHit(parse, q, ls[..n]);
      var k := KeepLocations(q, ls[..n]);
      assert (k + [ls[n]])[..|k|] == k;
    }
  }

  // Filtering once or twice makes no difference to the specs.
  lemma FilteringTwiceIsOnce(parse: ParseId, q: Query, all: Listing)
    ensures Hits(parse, q, Kept(q, all)) == Hits(parse, q, all)
  {
    KeptGroupsHit(parse, q, all.groups);
    KeptLocationsHit(parse, q, all.locations);
  }

  // all is the backend's list of provider locations, None when it could not be had.
  method FilterLocations(parse: ParseId, all: Option<Listing>, q: string)
    returns (specs: seq<Spec>, out: Option<Listing>)
    ensures out == if all.Some? then Some(Kept(ReadQuery(q), all.value)) else None
    ensures specs == if all.Some? then SpecsFor(parse, q, all.value) else []
  {
    hide MatchesGroup, MatchesLocation, IdOf, Distinct, ReadQuery;
    if all.None? {
      return [], None;
    }
    var query := ReadQuery(q);
    var given := all.value;
    var groups, locations := [], [];
    if query.key == "group" || query.key == "name" {
      for i := 0 to |given.groups|
        invariant groups == KeepGroups(query, given.groups[..i])
      {
        assert given.groups[..i + 1][..i] == given.groups[..i];
        if MatchesGroup(query, given.groups[i]) {
          groups := groups + [given.groups[i]];
        }
      }
      assert given.groups[..|given.groups|] == given.groups;
    } else {
      NoGroups(query, given.groups);
    }
    for i := 0 to |given.locations|
      invariant locations == KeepLocations(query, given.locations[..i])
    {
      assert given.locations[..i + 1][..i] == given.locations[..i];
      if MatchesLocation(query, given.locations[i]) {
        locations := locations + [given.locations[i]];
      }
    }
    assert given.locations[..|given.locations|] == given.locations;
    out := Some(Listing(groups, locations));
    KeptGroupsHit(parse, query, given.groups);
    KeptLocationsHit(parse, query, given.locations);
    specs := CollectSpecs(parse, query, out.value);
  }

  lemma {:induction false} NoGroups(q: Query, gs: seq<Group>)
    requires q.key != "group" && q.key != "name"
    ensures KeepGroups(q, gs) == []
  {
    if gs != [] {
      NoGroups(q, gs[..|gs| - 1]);
    }
  }

  // The second half of the filter: every entry of kept matches already.
  method CollectSpecs(parse: ParseId, query: Query, kept: Listing) returns (specs: seq<Spec>)
    requires forall g :: g in kept.groups ==> MatchesGroup(query, g)
    requires forall l :: l in kept.locations ==> MatchesLocation(query, l)
    ensures Identified(Hits(parse, query, kept)) && specs == Distinct(Hits(parse, query, kept))
  {
    hide MatchesGroup, MatchesLocation, Distinct;
    var seen: set<string> := {};
    specs := [];
    EmptyDistinct();
    for i := 0 to |kept.groups|
      invariant Identified(GroupHits(parse, query, kept.groups[..i]))
      invariant specs == Distinct(GroupHits(parse, query, kept.groups[..i]))
      invariant seen == Ids(specs)
    {
      assert kept.groups[..i + 1][..i] == kept.groups[..i];
      var id := parse(kept.groups[i].id);
      if id.Some? {
        specs, seen := AddNew(GroupHits(parse, query, kept.groups[..i]), specs, seen, GroupSpec(id.value));
      }
    }
    assert kept.groups[..|kept.groups|] == kept.groups;
    ghost var found := GroupHits(parse, query, kept.groups);
    assert found + LocationHits(parse, query, kept.locations[..0]) == found;
    for i := 0 to |kept.locations|
      invariant Identified(found + LocationHits(parse, query, kept.locations[..i]))
      invariant specs == Distinct(found + LocationHits(parse, query, kept.locations[..i]))
      invariant seen == Ids(specs)
    {
      assert kept.locations[..i + 1][..i] == kept.locations[..i];
      ghost var before := LocationHits(parse, query, kept.locations[..i]);
      var id := parse(IdOf(query, kept.locations[i]));
      if id.Some? {
        assert found + (before + [LocationSpec(id.value)]) == found + before + [LocationSpec(id.value)];
        specs, seen := AddNew(found + before, specs, seen, LocationSpec(id.value));
      }
    }
    assert kept.locations[..|kept.locations|] == kept.locations;
  }

  lemma EmptyDistinct()
    ensures Distinct([]) == []
  {
  }

  // ---------- findSpecsByQueryFallback ----------

  // Filters what filterLocationsFallback has already filtered, with the same outcome.
  method FindSpecs(parse: ParseId, all: Option<Listing>, q: string) returns (specs: seq<Spec>)
    ensures specs == if all.Some? then SpecsFor(parse, q, all.value) else []
  {
    hide MatchesGroup, MatchesLocation, IdOf, Distinct, ReadQuery, KeepGroups, KeepLocations;
    var _, res := FilterLocations(parse, all, q);
    if res.None? {
      return [];
    }
    var query := ReadQuery(q);
    FilteringTwiceIsOnce(parse, query, all.value);
    HitsAreIdentified(parse, query, all.value);
    var seen: set<string> := {};
    specs := [];
    EmptyDistinct();
    var groups, locations := res.value.groups, res.value.locations;
    if query.key == "group" || query.key == "name" {
      for i := 0 to |groups|
        invariant Identified(GroupHits(parse, query, groups[..i]))
        invariant specs == Distinct(GroupHits(parse, query, groups[..i]))
        invariant seen == Ids(specs)
      {
        assert groups[..i + 1][..i] == groups[..i];
        if MatchesGroup(query, groups[i]) {
          var id := parse(groups[i].id);
          if id.Some? {
            specs, seen := AddNew(GroupHits(parse, query, groups[..i]), specs, seen, GroupSpec(id.value));
          }
        }
      }
      assert groups[..|groups|] == groups;
    } else {
      NoGroups(query, all.value.groups);
    }
    ghost var found := GroupHits(parse, query, groups);
    assert found + LocationHits(parse, query, locations[..0]) == found;
    for i := 0 to |locations|
      invariant Identified(found + LocationHits(parse, query, locations[..i]))
      invariant specs == Distinct(found + LocationHits(parse, query, locations[..i]))
      invariant seen == Ids(specs)
    {
      assert locations[..i + 1][..i] == locations[..i];
      ghost var before := LocationHits(parse, query, locations[..i]);
      if !MatchesLocation(query, locations[i]) {
        continue;
      }
      var id := parse(IdOf(query, locations[i]));
      if id.Some? {
        assert found + (before + [LocationSpec(id.value)]) == found + before + [LocationSpec(id.value)];
        specs, seen := AddNew(found + before, specs, seen, LocationSpec(id.value));
      }
    }
    assert locations[..|locations|] == locations;
  }

  // ---------- What the specs of a query are ----------

  // Where the first spec with this id stands.
  function FirstAt(l: seq<Spec>, id: string): (i: nat)
    requires Identified(l) && id in Ids(l)
    ensures i < |l| && l[i].id == id && id !in Ids(l[..i])
  {
    var n := |l| - 1;
    assert l == l[..n] + [l[n]];
    if id in Ids(l[..n]) then
      var i := FirstAt(l[..n], id);
      assert l[..n][..i] == l[..i];
      i
    else n
  }

  lemma FirstIsUnique(l: seq<Spec>, i: nat)
    requires Identified(l) && i < |l| && l[i].id !in Ids(l[..i])
    ensures l[i].id in Ids(l) && FirstAt(l, l[i].id) == i
  {
    assert l[i] in l;
    var k := FirstAt(l, l[i].id);
    assert forall j | 0 <= j < i :: l[j] in l[..i];
    assert forall j | 0 <= j < k :: l[j] in l[..k];
  }

  ghost predicate AreFirsts(r: seq<Spec>, l: seq<Spec>)
    requires Identified(l) && Identified(r) && Ids(r) == Ids(l)
  {
    && (forall i :: 0 <= i < |r| ==> r[i].id in Ids(r) && l[FirstAt(l, r[i].id)] == r[i])
    && (forall i, j :: 0 <= i < j < |r| ==>
          r[i].id in Ids(r) && r[j].id in Ids(r) && FirstAt(l, r[i].id) < FirstAt(l, r[j].id))
  }

  lemma FirstStays(l: seq<Spec>, x: Spec, id: string)
    requires Identified(l) && !x.BestAvailable? && id in Ids(l)
    ensures Identified(l + [x]) && id in Ids(l + [x])
    ensures FirstAt(l + [x], id) == FirstAt(l, id)
  {
    hide FirstAt;
    var k := FirstAt(l, id);
    assert (l + [x])[..k] == l[..k] && (l + [x])[k] == l[k];
    FirstIsUnique(l + [x], k);
  }

  lemma NewFirst(l: seq<Spec>, x: Spec)
    requires Identified(l) && !x.BestAvailable? && x.id !in Ids(l)
    ensures Identified(l + [x]) && x.id in Ids(l + [x])
    ensures FirstAt(l + [x], x.id) == |l|
  {
    assert (l + [x])[..|l|] == l;
    FirstIsUnique(l + [x], |l|);
  }

  lemma IdsStep(l: seq<Spec>, x: Spec)
    requires Identified(l) && !x.BestAvailable?
    ensures Identified(l + [x]) && Ids(l + [x]) == Ids(l) + {x.id}
  {
    assert forall s :: s in l + [x] <==> s in l || s == x;
  }

  lemma FirstsStep(r: seq<Spec>, l: seq<Spec>, x: Spec)
    requires Identified(l) && Identified(r) && Ids(r) == Ids(l) && AreFirsts(r, l) && !x.BestAvailable?
    ensures var r', l' := if x.id in Ids(l) then r else r + [x], l + [x];
      Identified(l') && Identified(r') && Ids(r') == Ids(l') && AreFirsts(r', l')
  {
    hide FirstAt, Ids;
    IdsStep(l, x);
    IdsStep(r, x);
    forall id | id in Ids(l) ensures FirstAt(l + [x], id) == FirstAt(l, id) < |l| {
      FirstStays(l, x, id);
    }
    if x.id !in Ids(l) {
      NewFirst(l, x);
    }
  }

  // Each id occurs once, as its first spec, and in the order of the first occurrences.
  lemma {:induction false} DistinctKeepsFirsts(l: seq<Spec>)
    requires Identified(l)
    ensures AreFirsts(Distinct(l), l)
  {
    hide AreFirsts, FirstAt;
    if l == [] {
      NoFirsts();
    } else {
      var n := |l| - 1;
      DistinctKeepsFirsts(l[..n]);
      FirstsStep(Distinct(l[..n]), l[..n], l[n]);
      assert l == l[..n] + [l[n]];
    }
  }

  lemma NoFirsts()
    ensures AreFirsts([], [])
  {
  }

  ghost predicate GroupYields(parse: ParseId, q: Query, all: Listing, id: string) {
    exists g :: g in all.groups && MatchesGroup(q, g) && parse(g.id) == Some(id)
  }

  ghost predicate LocationYields(parse: ParseId, q: Query, all: Listing, id: string) {
    exists l :: l in all.locations && MatchesLocation(q, l) && parse(IdOf(q, l)) == Some(id)
  }

  lemma {:induction false} GroupHitsAre(parse: ParseId, q: Query, all: Listing)
    ensures forall s :: s in GroupHits(parse, q, all.groups) <==>
      s.GroupSpec? && GroupYields(parse, q, all, s.id)
    decreases |all.groups|
  {
    hide MatchesGroup;
    if all.groups != [] {
      var n := |all.groups| - 1;
      var front := all.(groups := all.groups[..n]);
      GroupHitsAre(parse, q, front);
      assert all.groups == front.groups + [all.groups[n]];
      forall s: Spec | s.GroupSpec?
        ensures GroupYields(parse, q, all, s.id) <==>
          GroupYields(parse, q, front, s.id)
          || (MatchesGroup(q, all.groups[n]) && parse(all.groups[n].id) == Some(s.id))
      {
      }
    }
  }

  lemma {:induction false} LocationHitsAre(parse: ParseId, q: Query, all: Listing)
    ensures forall s :: s in LocationHits(parse, q, all.locations) <==>
      s.LocationSpec? && LocationYields(parse, q, all, s.id)
    decreases |all.locations|
  {
    hide MatchesLocation, IdOf;
    if all.locations != [] {
      var n := |all.locations| - 1;
      var front := all.(locations := all.locations[..n]);
      LocationHitsAre(parse, q, front);
      assert all.locations == front.locations + [all.locations[n]];
      forall s: Spec | s.LocationSpec?
        ensures LocationYields(parse, q, all, s.id) <==>
          LocationYields(parse, q, front, s.id)
          || (MatchesLocation(q, all.locations[n]) && parse(IdOf(q, all.locations[n])) == Some(s.id))
      {
      }
    }
  }

  predicate AllGroups(l: seq<Spec>) { forall s :: s in l ==> s.GroupSpec? }

  predicate AllLocations(l: seq<Spec>) { forall s :: s in l ==> s.LocationSpec? }

  predicate DistinctIds(l: seq<Spec>)
    requires Identified(l)
  {
    forall i, j :: 0 <= i < j < |l| ==> l[i].id != l[j].id
  }

  predicate GroupsFirst(l: seq<Spec>) { forall i, j :: 0 <= i < j < |l| && l[j].GroupSpec? ==> l[i].GroupSpec? }

  // An id that a group has stands for the group, also where a location shares it.
  lemma {:induction false} GroupsShadowLocations(gs: seq<Spec>, ls: seq<Spec>)
    requires AllGroups(gs) && AllLocations(ls)
    ensures Identified(gs + ls)
    ensures Shadowed(gs, ls)
    decreases |gs| + |ls|
  {
    if ls != [] {
      var n := |ls| - 1;
      var front, x := ls[..n], ls[n];
      assert ls == front + [x] && x in ls;
      GroupsShadowLocations(gs, front);
      OneMoreLocation(gs, front, x);
    } else if gs != [] {
      var n := |gs| - 1;
      var front, x := gs[..n], gs[n];
      assert gs == front + [x] && x in gs;
      GroupsShadowLocations(front, ls);
      assert front + ls == front && gs + ls == gs;
      OneMoreGroup(front, x);
    }
  }

  ghost predicate Shadowed(gs: seq<Spec>, ls: seq<Spec>)
    requires Identified(gs + ls)
  {
    var r := Distinct(gs + ls);
    && DistinctIds(r) && GroupsFirst(r)
    && (forall id :: GroupSpec(id) in r <==> GroupSpec(id) in gs)
    && (forall id :: LocationSpec(id) in r <==> LocationSpec(id) in ls && GroupSpec(id) !in gs)
  }

  lemma OneMoreLocation(gs: seq<Spec>, front: seq<Spec>, x: Spec)
    requires AllGroups(gs) && AllLocations(front) && x.LocationSpec?
    requires Identified(gs + front) && Shadowed(gs, front)
    ensures Identified(gs + (front + [x])) && Shadowed(gs, front + [x])
  {
    hide Distinct, DistinctIds, GroupsFirst;
    ShadowStep(gs + front, x);
    assert gs + (front + [x]) == gs + front + [x];
    IdsOfBoth(gs, front, x.id);
  }

  lemma OneMoreGroup(front: seq<Spec>, x: Spec)
    requires AllGroups(front) && x.GroupSpec?
    requires Identified(front + []) && Shadowed(front, [])
    ensures Identified(front + [x] + []) && Shadowed(front + [x], [])
  {
    hide Distinct, DistinctIds, GroupsFirst;
    OnlyGroups(front);
    ShadowStep(front, x);
    assert front + [x] + [] == front + [x];
    IdsOfBoth(front, [], x.id);
  }

  lemma OnlyGroups(gs: seq<Spec>)
    requires AllGroups(gs)
    ensures AllGroups(Distinct(gs))
    ensures gs + [] == gs
  {
  }

  lemma IdsOfBoth(gs: seq<Spec>, ls: seq<Spec>, id: string)
    requires AllGroups(gs) && AllLocations(ls)
    ensures Identified(gs + ls)
    ensures id in Ids(gs + ls) <==> GroupSpec(id) in gs || LocationSpec(id) in ls
  {
    if id in Ids(gs + ls) {
      var s :| s in gs + ls && s.id == id;
    }
  }

  lemma ShadowStep(l: seq<Spec>, x: Spec)
    requires Identified(l) && !x.BestAvailable? && DistinctIds(Distinct(l)) && GroupsFirst(Distinct(l))
    requires x.GroupSpec? ==> AllGroups(Distinct(l))
    ensures Identified(l + [x])
    ensures var r := Distinct(l + [x]);
      && DistinctIds(r) && GroupsFirst(r)
      && r == if x.id in Ids(l) then Distinct(l) else Distinct(l) + [x]
  {
    assert (l + [x])[..|l|] == l;
    if x.id !in Ids(l) {
      NewIdStaysDistinct(Distinct(l), x);
    }
  }

  lemma NewIdStaysDistinct(d: seq<Spec>, x: Spec)
    requires Identified(d) && !x.BestAvailable? && x.id !in Ids(d) && DistinctIds(d) && GroupsFirst(d)
    requires x.GroupSpec? ==> AllGroups(d)
    ensures Identified(d + [x]) && DistinctIds(d + [x]) && GroupsFirst(d + [x])
  {
    assert forall i :: 0 <= i < |d| ==> d[i] in d && d[i].id in Ids(d);
  }

  // A query yields pairwise distinct ids: those of the matching entries and no others,
  // groups before locations.
  lemma SpecsOfAQuery(parse: ParseId, q: string, all: Listing)
    ensures var query, r := ReadQuery(q), SpecsFor(parse, q, all);
      && Identified(r) && DistinctIds(r) && GroupsFirst(r)
      && (forall id :: GroupSpec(id) in r <==> GroupYields(parse, query, all, id))
      && (forall id :: LocationSpec(id) in r <==>
            LocationYields(parse, query, all, id) && !GroupYields(parse, query, all, id))
  {
    var query := ReadQuery(q);
    GroupHitsAre(parse, query, all);
    LocationHitsAre(parse, query, all);
    hide GroupYields, LocationYields, ReadQuery, GroupHits, LocationHits, Distinct;
    GroupsShadowLocations(GroupHits(parse, query, all.groups), LocationHits(parse, query, all.locations));
  }

  // ---------- buildProviderSpecs ----------

  datatype Wanted = Wanted(locationId: string, groupId: string, query: string)

  datatype Request = FindLocations(q: string) | ProviderLocations

  function Configured(parse: ParseId, w: Wanted): seq<Spec> {
    (if w.locationId != "" && parse(w.locationId).Some? then [LocationSpec(parse(w.locationId).value)] else [])
    + (if w.groupId != "" && parse(w.groupId).Some? then [GroupSpec(parse(w.groupId).value)] else [])
  }

  // Whether the backend's listing has an entry that the client-side filter can use.
  ghost predicate Yields(parse: ParseId, q: string, all: Option<Listing>) {
    all.Some? && exists id :: GroupYields(parse, ReadQuery(q), all.value, id) || LocationYields(parse, ReadQuery(q), all.value, id)
  }

  // found and all are the backend's answers should it be asked: None is an error.
  method BuildProviderSpecs(parse: ParseId, w: Wanted, found: Option<seq<Spec>>, all: Option<Listing>)
    returns (specs: seq<Spec>, requests: seq<Request>)
    ensures specs != []
    // A configured id that parses settles the matter without a request.
    ensures Configured(parse, w) != [] ==> specs == Configured(parse, w) && requests == []
    ensures Configured(parse, w) == [] && w.query == "" ==> specs == [BestAvailable] && requests == []
    // Otherwise the backend's own answer is taken if it holds a spec, and its listing is
    // asked for only if not.
    ensures Configured(parse, w) == [] && w.query != "" && found.GetOr([]) != [] ==>
      specs == found.value && requests == [FindLocations(w.query)]
    ensures Configured(parse, w) == [] && w.query != "" && found.GetOr([]) == [] ==>
      requests == [FindLocations(w.query), ProviderLocations]
    // Of the listing nothing is used only if nothing matches.
    ensures Configured(parse, w) == [] && w.query != "" && found.GetOr([]) == [] ==>
      if Yields(parse, w.query, all) then specs == SpecsFor(parse, w.query, all.value)
      else specs == [BestAvailable]
  {
    hide SpecsFor, GroupYields, LocationYields, ReadQuery;
    specs, requests := [], [];
    if w.locationId != "" {
      var id := parse(w.locationId);
      if id.Some? {
        specs := specs + [LocationSpec(id.value)];
      }
    }
    if w.groupId != "" {
      var id := parse(w.groupId);
      if id.Some? {
        specs := specs + [GroupSpec(id.value)];
      }
    }
    assert specs == Configured(parse, w);
    if |specs| == 0 && w.query != "" {
      requests := requests + [FindLocations(w.query)];
      if found.Some? && |found.value| > 0 {
        specs := found.value;
      }
      if |specs| == 0 {
        requests := requests + [ProviderLocations];
        var fallback := FindSpecs(parse, all, w.query);
        if all.Some? {
          EmptyIffNothingMatches(parse, w.query, all.value);
        }
        if |fallback| > 0 {
          specs := fallback;
        }
      }
    }
    if |specs| == 0 {
      specs := [BestAvailable];
    }
  }

  lemma EmptyIffNothingMatches(parse: ParseId, q: string, all: Listing)
    ensures SpecsFor(parse, q, all) == [] <==> !Yields(parse, q, Some(all))
  {
    SpecsOfAQuery(parse, q, all);
    hide SpecsFor, GroupYields, LocationYields, ReadQuery;
    var r := SpecsFor(parse, q, all);
    if r != [] {
      assert r[0] in r;
      assert r[0] == GroupSpec(r[0].id) || r[0] == LocationSpec(r[0].id);
    }
  }

  // Country codes are compared with the value as it was written: one with a space at
  // either end matches no location at all, whereas other keys ignore such spaces.
  lemma SpacedCountryCodeMatchesNothing(q: Query, l: Location)
    requires q.key == "country_code" && !Trimmed(q.raw)
    ensures !MatchesLocation(q, l)
  {
    TrimSpaceTrims(l.countryCode);
    if EqualFold(TrimSpace(l.countryCode), q.raw) {
      FoldKeepsTrimmed(TrimSpace(l.countryCode), q.raw);
    }
  }

  lemma FoldKeepsTrimmed(s: string, t: string)
    requires EqualFold(s, t)
    ensures Trimmed(s) <==> Trimmed(t)
  {
    assert forall c: char :: IsSpace(LowerChar(c)) <==> IsSpace(c);
    assert forall i :: 0 <= i < |s| ==> LowerChar(s[i]) == Lower(s)[i] == LowerChar(t[i]);
    assert forall i :: 0 <= i < |s| ==> (IsSpace(s[i]) <==> IsSpace(t[i]));
  }

  // The value is compared as if it had been trimmed, for every location, exactly when it
  // has no space at either end.
  lemma CountryCodeIsTrimmedIff(q: Query)
    requires q.key == "country_code"
    ensures (forall l :: MatchesLocation(q, l) <==> MatchesLocation(q.(raw := TrimSpace(q.raw)), l)) <==> Trimmed(q.raw)
  {
    TrimSpaceTrims(q.raw);
    if !Trimmed(q.raw) {
      var code := TrimSpace(q.raw);
      TrimSpaceTrims(code);
      var l := Location("", "", "", "", code, "", "", "");
      SpacedCountryCodeMatchesNothing(q, l);
      assert MatchesLocation(q.(raw := code), l);
    }
  }

  lemma CountryCodeQuery(value: string)
    ensures var q := ReadQuery("country_code:" + value); q.key == "country_code" && q.raw == value
  {
    hide TrimSpace, ParseKV, Lower;
    assert "country_code:" + value == "country_code" + ":" + value;
    ParseKVInverts("country_code:" + value, "country_code", value);
    CountryCodeKey();
  }

  lemma CountryCodeKey()
    ensures Lower(TrimSpace("country_code")) == "country_code"
  {
    TrimSpaceTrims("country_code");
    hide TrimSpace;
    assert Lower("country_code") == "country_code";
  }

  // A query that a user may well write, and the location it should find.
  lemma SpacedQueryFindsNothing(l: Location)
    requires l.countryCode == "DE"
    ensures MatchesLocation(ReadQuery("country_code:" + "de"), l)
    ensures !MatchesLocation(ReadQuery("country_code:" + " de"), l)
  {
    CountryCodeQuery("de");
    CountryCodeQuery(" de");
    TrimSpaceTrims("DE");
    hide ReadQuery, TrimSpace;
    assert Lower("DE") == "de" == Lower("de");
    SpacedCountryCodeMatchesNothing(ReadQuery("country_code:" + " de"), l);
  }

  // ---------- What each kind of query finds ----------

  // The text holds the value somewhere, without regard to case and surrounding space; "*"
  // stands for any text that is not blank.
  ghost predicate Found(s: string, v: string) {
    var t, w := Lower(TrimSpace(s)), Lower(TrimSpace(v));
    if w == "*" then t != "" else exists a, b :: t == a + w + b
  }

  lemma SubstringIff(t: string, w: string)
    ensures HasSubstring(t, w) <==> exists a, b :: t == a + w + b
  {
    if HasSubstring(t, w) {
      var i :| 0 <= i <= |t| && OccursAt(t, w, i);
      assert t == t[..i] + w + t[i + |w|..];
    }
    if a, b :| t == a + w + b {
      assert t[|a|..|a| + |w|] == w;
      assert OccursAt(t, w, |a|);
    }
  }

  lemma MatchValueFinds(s: string, v: string)
    ensures MatchValue(s, Lower(TrimSpace(v))) <==> Found(s, v)
  {
    SubstringIff(Lower(TrimSpace(s)), Lower(TrimSpace(v)));
    hide TrimSpace, Lower, HasSubstring;
  }

  // The key is read without regard to case and surrounding space, the value may hold colons.
  lemma KeyedQuery(key: string, v: string)
    requires ':' !in key
    ensures ReadQuery(key + ":" + v) == Query(Lower(TrimSpace(key)), v, Lower(TrimSpace(v)))
  {
    hide TrimSpace, Lower, ParseKV;
    ParseKVInverts(key + ":" + v, key, v);
  }

  // Without a colon the query is for a name.
  lemma PlainQuery(v: string)
    requires ':' !in v
    ensures ReadQuery(v) == Query("name", TrimSpace(v), Lower(TrimSpace(v)))
  {
    TrimSpaceTrims(v);
    TrimSpaceTrims(TrimSpace(v));
    hide TrimSpace, Lower, ParseKV;
    ParseKVInverts(v, "", "");
  }

  // country:v finds locations by country or name, and stands for the country's id if there
  // is one.
  lemma CountryFinds(parse: ParseId, q: Query, v: string, all: Listing, id: string)
    requires q.key == "country" && q.norm == Lower(TrimSpace(v))
    ensures LocationYields(parse, q, all, id) <==>
      exists l :: l in all.locations && (Found(l.country, v) || Found(l.name, v)) &&
        parse(if l.countryId != "" then l.countryId else l.id) == Some(id)
    ensures !GroupYields(parse, q, all, id)
  {
    hide MatchValue, Found;
    forall l | l in all.locations
      ensures MatchesLocation(q, l) <==> Found(l.country, v) || Found(l.name, v)
    {
      MatchValueFinds(l.country, v);
      MatchValueFinds(l.name, v);
    }
  }

  // region:v finds locations by region, and regions by name, and stands for the region's id
  // if there is one.
  lemma RegionFinds(parse: ParseId, q: Query, v: string, all: Listing, id: string)
    requires q.key == "region" && q.norm == Lower(TrimSpace(v))
    ensures LocationYields(parse, q, all, id) <==>
      exists l :: l in all.locations && (Found(l.region, v) || (l.kind == "region" && Found(l.name, v))) &&
        parse(if l.regionId != "" then l.regionId else l.id) == Some(id)
    ensures !GroupYields(parse, q, all, id)
  {
    hide MatchValue, Found;
    forall l | l in all.locations
      ensures MatchesLocation(q, l) <==> Found(l.region, v) || (l.kind == "region" && Found(l.name, v))
    {
      MatchValueFinds(l.region, v);
      MatchValueFinds(l.name, v);
    }
  }

  // name:v finds groups and locations by name.
  lemma NameFinds(parse: ParseId, q: Query, v: string, all: Listing, id: string)
    requires q.key == "name" && q.norm == Lower(TrimSpace(v))
    ensures LocationYields(parse, q, all, id) <==> exists l :: l in all.locations && Found(l.name, v) && parse(l.id) == Some(id)
    ensures GroupYields(parse, q, all, id) <==> exists g :: g in all.groups && Found(g.name, v) && parse(g.id) == Some(id)
  {
    hide MatchValue, Found;
    forall l | l in all.locations ensures MatchesLocation(q, l) <==> Found(l.name, v) {
      MatchValueFinds(l.name, v);
    }
    forall g | g in all.groups ensures MatchesGroup(q, g) <==> Found(g.name, v) {
      MatchValueFinds(g.name, v);
    }
  }

  // country_code:v finds locations by their code; any other key, group:v included, finds
  // them by name, country or region, and group:v finds groups by name as well.
  lemma OtherKeysFind(parse: ParseId, q: Query, v: string, all: Listing, id: string)
    requires q.key !in {"country", "region", "name"} && q.norm == Lower(TrimSpace(v)) && q.raw == v
    ensures LocationYields(parse, q, all, id) <==>
      exists l :: l in all.locations && parse(l.id) == Some(id) &&
        if q.key == "country_code" then Lower(TrimSpace(l.countryCode)) == Lower(v)
        else Found(l.name, v) || Found(l.country, v) || Found(l.region, v)
    ensures GroupYields(parse, q, all, id) <==>
      q.key == "group" && exists g :: g in all.groups && Found(g.name, v) && parse(g.id) == Some(id)
  {
    hide MatchValue, Found;
    forall l | l in all.locations
      ensures MatchesLocation(q, l) <==>
        if q.key == "country_code" then Lower(TrimSpace(l.countryCode)) == Lower(v)
        else Found(l.name, v) || Found(l.country, v) || Found(l.region, v)
    {
      MatchValueFinds(l.name, v);
      MatchValueFinds(l.country, v);
      MatchValueFinds(l.region, v);
    }
    forall g | g in all.groups ensures MatchesGroup(q, g) <==> q.key == "group" && Found(g.name, v) {
      MatchValueFinds(g.name, v);
    }
  }

  // Which specs configured ids amount to: the location first, then the group, each if it
  // is given and parses.
  lemma ConfiguredIs(parse: ParseId, w: Wanted)
    ensures var c := Configured(parse, w);
      && (forall id :: LocationSpec(id) in c <==> w.locationId != "" && parse(w.locationId) == Some(id))
      && (forall id :: GroupSpec(id) in c <==> w.groupId != "" && parse(w.groupId) == Some(id))
      && BestAvailable !in c && |c| <= 2 && GroupsLast(c)
  {
  }

  predicate GroupsLast(l: seq<Spec>) { forall i, j :: 0 <= i < j < |l| && l[i].GroupSpec? ==> l[j].GroupSpec? }

  // ---------- What the filter keeps ----------

  // Every matching entry is kept, in its place and as often as it occurs, and no other is.
  lemma {:induction false} KeepsMatchingGroups(q: Query, gs: seq<Group>)
    ensures (forall g :: g in gs ==> MatchesGroup(q, g)) ==> KeepGroups(q, gs) == gs
    ensures forall g :: g in KeepGroups(q, gs) <==> g in gs && MatchesGroup(q, g)
  {
    hide MatchesGroup;
    if gs != [] {
      KeepsMatchingGroups(q, gs[..|gs| - 1]);
      assert gs == gs[..|gs| - 1] + [gs[|gs| - 1]];
    }
  }

  lemma {:induction false} KeepsMatchingLocations(q: Query, ls: seq<Location>)
    ensures (forall l :: l in ls ==> MatchesLocation(q, l)) ==> KeepLocations(q, ls) == ls
    ensures forall l :: l in KeepLocations(q, ls) <==> l in ls && MatchesLocation(q, l)
  {
    hide MatchesLocation;
    if ls != [] {
      KeepsMatchingLocations(q, ls[..|ls| - 1]);
      assert ls == ls[..|ls| - 1] + [ls[|ls| - 1]];
    }
  }

  lemma {:induction false} KeepGroupsConcat(q: Query, a: seq<Group>, b: seq<Group>)
    ensures KeepGroups(q, a + b) == KeepGroups(q, a) + KeepGroups(q, b)
    decreases |b|
  {
    hide MatchesGroup;
    if b == [] {
      assert a + b == a;
    } else {
      var n := |b| - 1;
      assert (a + b)[..|a + b| - 1] == a + b[..n];
      KeepGroupsConcat(q, a, b[..n]);
    }
  }

  lemma {:induction false} KeepLocationsConcat(q: Query, a: seq<Location>, b: seq<Location>)
    ensures KeepLocations(q, a + b) == KeepLocations(q, a) + KeepLocations(q, b)
    decreases |b|
  {
    hide MatchesLocation;
    if b == [] {
      assert a + b == a;
    } else {
      var n := |b| - 1;
      assert (a + b)[..|a + b| - 1] == a + b[..n];
      KeepLocationsConcat(q, a, b[..n]);
    }
  }
}
