/**
 * The org/space/app tree of the backup metadata generator
 * (src/backup-metadata-generator/internal/cfmetadata/metadata.go:55-113): built with two maps, specified as two
 * nested filters, and counted against the totals.
 */
module BackupMetadata {
  import opened Common

  datatype Org = Org(name: string, guid: string)
  datatype Space = Space(name: string, guid: string, orgGuid: string)
  datatype App = App(name: string, spaceGuid: string)
  datatype User = User(name: string)

  datatype AppSummary = AppSummary(name: string)
  datatype SpaceSummary = SpaceSummary(name: string, apps: seq<AppSummary>)
  datatype OrgSummary = OrgSummary(name: string, spaces: seq<SpaceSummary>)
  datatype Totals = Totals(orgs: nat, spaces: nat, users: nat, apps: nat)
  datatype Metadata = Metadata(totals: Totals, orgs: seq<OrgSummary>)

  // ---- The specification: nested filters in input order ------------------------------------------------------

  function AppsIn(apps: seq<App>, spaceGuid: string): seq<AppSummary> {
    if apps == [] then [] else
    var rest, a := AppsIn(apps[..|apps| - 1], spaceGuid), apps[|apps| - 1];
    if a.spaceGuid == spaceGuid then rest + [AppSummary(a.name)] else rest
  }

  function SpacesIn(spaces: seq<Space>, apps: seq<App>, orgGuid: string): seq<SpaceSummary> {
    if spaces == [] then [] else
    var rest, s := SpacesIn(spaces[..|spaces| - 1], apps, orgGuid), spaces[|spaces| - 1];
    if s.orgGuid == orgGuid then rest + [SpaceSummary(s.name, AppsIn(apps, s.guid))] else rest
  }

  function Tree(orgs: seq<Org>, spaces: seq<Space>, apps: seq<App>): seq<OrgSummary> {
    seq(|orgs|, i requires 0 <= i < |orgs| => OrgSummary(orgs[i].name, SpacesIn(spaces, apps, orgs[i].guid)))
  }

  // ---- The tree, spelled out ---------------------------------------------------------------------------------

  ghost function AppPositions(apps: seq<App>, spaceGuid: string): set<nat> {
    set i: nat | i < |apps| && apps[i].spaceGuid == spaceGuid
  }

  ghost function SpacePositions(spaces: seq<Space>, orgGuid: string): set<nat> {
    set i: nat | i < |spaces| && spaces[i].orgGuid == orgGuid
  }

  ghost predicate NamesApps(list: seq<AppSummary>, apps: seq<App>, picked: seq<nat>) {
    |list| == |picked| && forall k :: 0 <= k < |picked| ==> picked[k] < |apps| && list[k].name == apps[picked[k]].name
  }

  /** The names of exactly the apps with the space's GUID, in input order. */
  ghost predicate ListsApps(list: seq<AppSummary>, apps: seq<App>, spaceGuid: string) {
    exists picked :: Ascending(picked, AppPositions(apps, spaceGuid)) && NamesApps(list, apps, picked)
  }

  ghost predicate NamesSpaces(list: seq<SpaceSummary>, spaces: seq<Space>, apps: seq<App>, picked: seq<nat>) {
    && |list| == |picked|
    && forall k :: 0 <= k < |picked| ==>
         && picked[k] < |spaces| && list[k].name == spaces[picked[k]].name
         && ListsApps(list[k].apps, apps, spaces[picked[k]].guid)
  }

  /** The names of exactly the spaces with the org's GUID, in input order, each with its own apps. */
  ghost predicate ListsSpaces(list: seq<SpaceSummary>, spaces: seq<Space>, apps: seq<App>, orgGuid: string) {
    exists picked :: Ascending(picked, SpacePositions(spaces, orgGuid)) && NamesSpaces(list, spaces, apps, picked)
  }

  /** Every org, in input order, under its name and with its own spaces. */
  ghost predicate ListsOrgs(tree: seq<OrgSummary>, orgs: seq<Org>, spaces: seq<Space>, apps: seq<App>) {
    && |tree| == |orgs|
    && forall i :: 0 <= i < |orgs| ==>
         tree[i].name == orgs[i].name && ListsSpaces(tree[i].spaces, spaces, apps, orgs[i].guid)
  }

  lemma {:induction false} AppsInPicked(apps: seq<App>, g: string) returns (picked: seq<nat>)
    ensures Ascending(picked, AppPositions(apps, g)) && NamesApps(AppsIn(apps, g), apps, picked)
  {
    picked := [];
    if apps != [] {
      var n, rest := |apps| - 1, apps[..|apps| - 1];
      picked := AppsInPicked(rest, g);
      if apps[n].spaceGuid == g {
        AscendingSnoc(picked, AppPositions(rest, g), n);
        assert AppPositions(apps, g) == AppPositions(rest, g) + {n};
        picked := picked + [n];
      } else {
        assert AppPositions(apps, g) == AppPositions(rest, g);
      }
    }
  }

  lemma {:induction false} SpacesInPicked(spaces: seq<Space>, apps: seq<App>, g: string) returns (picked: seq<nat>)
    ensures Ascending(picked, SpacePositions(spaces, g))
    ensures NamesSpaces(SpacesIn(spaces, apps, g), spaces, apps, picked)
  {
    picked := [];
    if spaces != [] {
      var n, rest := |spaces| - 1, spaces[..|spaces| - 1];
      picked := SpacesInPicked(rest, apps, g);
      if spaces[n].orgGuid == g {
        AscendingSnoc(picked, SpacePositions(rest, g), n);
        assert SpacePositions(spaces, g) == SpacePositions(rest, g) + {n};
        var _ := AppsInPicked(apps, spaces[n].guid);
        picked := picked + [n];
      } else {
        assert SpacePositions(spaces, g) == SpacePositions(rest, g);
      }
    }
  }

  /** The nested filters are the tree one expects, for every input, duplicate and dangling GUIDs included. */
  lemma TreeMeaning(orgs: seq<Org>, spaces: seq<Space>, apps: seq<App>)
    ensures ListsOrgs(Tree(orgs, spaces, apps), orgs, spaces, apps)
  {
    forall i | 0 <= i < |orgs| ensures ListsSpaces(SpacesIn(spaces, apps, orgs[i].guid), spaces, apps, orgs[i].guid) {
      var _ := SpacesInPicked(spaces, apps, orgs[i].guid);
    }
  }

  // ---- The code ----------------------------------------------------------------------------------------------

  /** Reading an absent key of a Go map of slices yields the nil slice. */
  function Get<T>(m: map<string, seq<T>>, k: string): seq<T> {
    if k in m then m[k] else []
  }

  /** Lines 91-100. */
  method BuildAppMap(apps: seq<App>) returns (appMap: map<string, seq<AppSummary>>)
    ensures forall g :: Get(appMap, g) == AppsIn(apps, g)
  {
    appMap := map[];
    for i := 0 to |apps|
      invariant forall g :: Get(appMap, g) == AppsIn(apps[..i], g)
    {
      var g := apps[i].spaceGuid;
      assert apps[..i + 1][..i] == apps[..i];
      appMap := appMap[g := Get(appMap, g) + [AppSummary(apps[i].name)]];
    }
    assert apps[..|apps|] == apps;
  }

  /** Lines 102-113. */
  method BuildSpacesMap(appMap: map<string, seq<AppSummary>>, spaces: seq<Space>, ghost apps: seq<App>)
    returns (spaceMap: map<string, seq<SpaceSummary>>)
    requires forall g :: Get(appMap, g) == AppsIn(apps, g)
    ensures forall g :: Get(spaceMap, g) == SpacesIn(spaces, apps, g)
  {
    spaceMap := map[];
    for i := 0 to |spaces|
      invariant forall g :: Get(spaceMap, g) == SpacesIn(spaces[..i], apps, g)
    {
      var g := spaces[i].orgGuid;
      assert spaces[..i + 1][..i] == spaces[..i];
      spaceMap := spaceMap[g := Get(spaceMap, g) + [SpaceSummary(spaces[i].name, Get(appMap, spaces[i].guid))]];
    }
    assert spaces[..|spaces|] == spaces;
  }

  /** Lines 73-89: for every input, duplicate and dangling GUIDs included, the two-map join is the nested filter. */
  method GetAllOrgsSummary(orgs: seq<Org>, spaces: seq<Space>, apps: seq<App>) returns (summary: seq<OrgSummary>)
    ensures summary == Tree(orgs, spaces, apps)
    ensures ListsOrgs(summary, orgs, spaces, apps)
  {
    var appMap := BuildAppMap(apps);
    var spacesMap := BuildSpacesMap(appMap, spaces, apps);
    summary := [];
    for i := 0 to |orgs|
      invariant |summary| == i
      invariant forall k :: 0 <= k < i ==> summary[k] == OrgSummary(orgs[k].name, SpacesIn(spaces, apps, orgs[k].guid))
    {
      summary := summary + [OrgSummary(orgs[i].name, Get(spacesMap, orgs[i].guid))];
    }
    TreeMeaning(orgs, spaces, apps);
  }

  function OrEmpty<T>(r: Result<seq<T>, string>): seq<T> {
    match r case Ok(v) => v case Err(_) => []
  }

  /** Lines 55-71: a failed listing counts as an empty one; its error is dropped. */
  method Execute(
    orgs: Result<seq<Org>, string>, spaces: Result<seq<Space>, string>,
    apps: Result<seq<App>, string>, users: Result<seq<User>, string>)
    returns (metadata: Metadata)
    ensures metadata.orgs == Tree(OrEmpty(orgs), OrEmpty(spaces), OrEmpty(apps))
    ensures metadata.totals ==
            Totals(|OrEmpty(orgs)|, |OrEmpty(spaces)|, |OrEmpty(users)|, |OrEmpty(apps)|)
    ensures orgs.Ok? ==>
              ListsOrgs(metadata.orgs, orgs.value, if spaces.Ok? then spaces.value else [],
                        if apps.Ok? then apps.value else [])
    ensures orgs.Err? ==> metadata.orgs == []
    ensures metadata.totals.orgs == (if orgs.Ok? then |orgs.value| else 0)
    ensures metadata.totals.spaces == (if spaces.Ok? then |spaces.value| else 0)
    ensures metadata.totals.users == (if users.Ok? then |users.value| else 0)
    ensures metadata.totals.apps == (if apps.Ok? then |apps.value| else 0)
  {
    var os, ss, as_, us := OrEmpty(orgs), OrEmpty(spaces), OrEmpty(apps), OrEmpty(users);
    var summary := GetAllOrgsSummary(os, ss, as_);
    metadata := Metadata(Totals(|os|, |ss|, |us|, |as_|), summary);
  }

  // ---- Counting the tree -------------------------------------------------------------------------------------

  function SpacesCounted(tree: seq<OrgSummary>): nat {
    if tree == [] then 0 else SpacesCounted(tree[..|tree| - 1]) + |tree[|tree| - 1].spaces|
  }

  function AppsOf(spaces: seq<SpaceSummary>): nat {
    if spaces == [] then 0 else AppsOf(spaces[..|spaces| - 1]) + |spaces[|spaces| - 1].apps|
  }

  function AppsCounted(tree: seq<OrgSummary>): nat {
    if tree == [] then 0 else AppsCounted(tree[..|tree| - 1]) + AppsOf(tree[|tree| - 1].spaces)
  }

  /** The total weight of the elements whose key is g. */
  function Matching<T>(s: seq<T>, key: T -> string, weight: T -> nat, g: string): nat {
    if s == [] then 0 else
    Matching(s[..|s| - 1], key, weight, g) + if key(s[|s| - 1]) == g then weight(s[|s| - 1]) else 0
  }

  /** The weight of all pairs with equal keys, summed along the left side. */
  function Pairs<A, B>(left: seq<A>, lk: A -> string, right: seq<B>, rk: B -> string, weight: B -> nat): nat {
    if left == [] then 0 else
    Pairs(left[..|left| - 1], lk, right, rk, weight) + Matching(right, rk, weight, lk(left[|left| - 1]))
  }

  function One<T>(x: T): nat { 1 }

  /** Double counting, one element of the right side at a time. */
  lemma {:induction false} PairsSnoc<A, B>(
    left: seq<A>, lk: A -> string, right: seq<B>, rk: B -> string, weight: B -> nat)
    requires right != []
    ensures var b := right[|right| - 1];
            Pairs(left, lk, right, rk, weight) ==
            Pairs(left, lk, right[..|right| - 1], rk, weight) + weight(b) * Matching(left, lk, One, rk(b))
  {
    if left != [] {
      PairsSnoc(left[..|left| - 1], lk, right, rk, weight);
      var b := right[|right| - 1];
      var m := Matching(left[..|left| - 1], lk, One, rk(b));
      assert weight(b) * (m + 1) == weight(b) * m + weight(b);
    }
  }

  /** Summed along the right side instead: each right element counts once per partner on the left. */
  function PairsByRight<A, B>(left: seq<A>, lk: A -> string, right: seq<B>, rk: B -> string, weight: B -> nat): nat {
    if right == [] then 0 else
    PairsByRight(left, lk, right[..|right| - 1], rk, weight)
    + weight(right[|right| - 1]) * Matching(left, lk, One, rk(right[|right| - 1]))
  }

  lemma {:induction false} PairsFlip<A, B>(
    left: seq<A>, lk: A -> string, right: seq<B>, rk: B -> string, weight: B -> nat)
    ensures Pairs(left, lk, right, rk, weight) == PairsByRight(left, lk, right, rk, weight)
  {
    if right == [] {
      NoPairs(left, lk, right, rk, weight);
    } else {
      PairsSnoc(left, lk, right, rk, weight);
      PairsFlip(left, lk, right[..|right| - 1], rk, weight);
    }
  }

  lemma NoPairs<A, B>(left: seq<A>, lk: A -> string, right: seq<B>, rk: B -> string, weight: B -> nat)
    requires right == []
    ensures Pairs(left, lk, right, rk, weight) == 0
  {}

  ghost predicate DistinctKeys<T>(s: seq<T>, key: T -> string) {
    forall i, j :: 0 <= i < j < |s| ==> key(s[i]) != key(s[j])
  }

  ghost predicate Present<T>(s: seq<T>, key: T -> string, g: string) {
    exists i :: 0 <= i < |s| && key(s[i]) == g
  }

  /** With distinct keys at most one element matches. */
  lemma {:induction false} MatchingDistinct<T>(s: seq<T>, key: T -> string, weight: T -> nat, g: string)
    requires DistinctKeys(s, key)
    ensures !Present(s, key, g) ==> Matching(s, key, weight, g) == 0
    ensures forall i :: 0 <= i < |s| && key(s[i]) == g ==> Matching(s, key, weight, g) == weight(s[i])
  {
    if s != [] {
      var n := |s| - 1;
      MatchingDistinct(s[..n], key, weight, g);
      assert forall i :: 0 <= i < n ==> s[..n][i] == s[i];
      if key(s[n]) == g {
        assert !Present(s[..n], key, g);
      } else if Present(s[..n], key, g) {
        var i :| 0 <= i < n && key(s[..n][i]) == g;
        assert key(s[i]) == g;
      }
    }
  }

  /** A sum of per-element counts that are at most one each. */
  lemma {:induction false} PairsBounded<A, B>(
    left: seq<A>, lk: A -> string, right: seq<B>, rk: B -> string, weight: B -> nat)
    requires forall a :: a in left ==> Matching(right, rk, weight, lk(a)) <= 1
    ensures Pairs(left, lk, right, rk, weight) <= |left|
    ensures Pairs(left, lk, right, rk, weight) == |left| <==>
            forall a :: a in left ==> Matching(right, rk, weight, lk(a)) == 1
  {
    if left != [] {
      var rest, last := left[..|left| - 1], left[|left| - 1];
      assert forall a :: a in left <==> a in rest || a == last;
      PairsBounded(rest, lk, right, rk, weight);
    }
  }

  // ---- The keys of the join ----------------------------------------------------------------------------------

  function OrgKey(o: Org): string { o.guid }

  function ParentKey(s: Space): string { s.orgGuid }

  function SpaceKey(s: Space): string { s.guid }

  function AppKey(a: App): string { a.spaceGuid }

  /** How many apps a space lists. */
  function AppWeight(apps: seq<App>): Space -> nat {
    (s: Space) => |AppsIn(apps, s.guid)|
  }

  /** How many orgs list a space. */
  function OrgWeight(orgs: seq<Org>): Space -> nat {
    (s: Space) => Matching(orgs, OrgKey, One, s.orgGuid)
  }

  lemma AppsInCount(apps: seq<App>, g: string)
    ensures |AppsIn(apps, g)| == Matching(apps, AppKey, One, g)
  {}

  lemma SpacesInCounts(spaces: seq<Space>, apps: seq<App>, g: string)
    ensures |SpacesIn(spaces, apps, g)| == Matching(spaces, ParentKey, One, g)
    ensures AppsOf(SpacesIn(spaces, apps, g)) == Matching(spaces, ParentKey, AppWeight(apps), g)
  {}

  lemma {:induction false} TreeCounts(orgs: seq<Org>, spaces: seq<Space>, apps: seq<App>)
    ensures SpacesCounted(Tree(orgs, spaces, apps)) == Pairs(orgs, OrgKey, spaces, ParentKey, One)
    ensures AppsCounted(Tree(orgs, spaces, apps)) == Pairs(orgs, OrgKey, spaces, ParentKey, AppWeight(apps))
  {
    if orgs != [] {
      var n := |orgs| - 1;
      TreeCounts(orgs[..n], spaces, apps);
      SpacesInCounts(spaces, apps, orgs[n].guid);
      assert Tree(orgs, spaces, apps)[..n] == Tree(orgs[..n], spaces, apps);
    }
  }

  lemma {:induction false} FlipOnes(orgs: seq<Org>, spaces: seq<Space>)
    ensures PairsByRight(orgs, OrgKey, spaces, ParentKey, One) == Pairs(spaces, ParentKey, orgs, OrgKey, One)
  {
    if spaces != [] {
      FlipOnes(orgs, spaces[..|spaces| - 1]);
    }
  }

  lemma {:induction false} FlipWeights(orgs: seq<Org>, spaces: seq<Space>, apps: seq<App>)
    ensures PairsByRight(orgs, OrgKey, spaces, ParentKey, AppWeight(apps))
         == PairsByRight(apps, AppKey, spaces, SpaceKey, OrgWeight(orgs))
  {
    if spaces != [] {
      var s := spaces[|spaces| - 1];
      FlipWeights(orgs, spaces[..|spaces| - 1], apps);
      AppsInCount(apps, s.guid);
      assert AppWeight(apps)(s) * OrgWeight(orgs)(s) == OrgWeight(orgs)(s) * AppWeight(apps)(s);
    }
  }

  /**
   * Conservation, for every input: the tree counts each space once per org with its GUID, and each app once per
   * pair of a space with its GUID and an org listing that space.
   */
  lemma Conservation(orgs: seq<Org>, spaces: seq<Space>, apps: seq<App>)
    ensures SpacesCounted(Tree(orgs, spaces, apps)) == Pairs(spaces, ParentKey, orgs, OrgKey, One)
    ensures AppsCounted(Tree(orgs, spaces, apps)) == Pairs(apps, AppKey, spaces, SpaceKey, OrgWeight(orgs))
  {
    TreeCounts(orgs, spaces, apps);
    PairsFlip(orgs, OrgKey, spaces, ParentKey, One);
    FlipOnes(orgs, spaces);
    PairsFlip(orgs, OrgKey, spaces, ParentKey, AppWeight(apps));
    FlipWeights(orgs, spaces, apps);
    PairsFlip(apps, AppKey, spaces, SpaceKey, OrgWeight(orgs));
  }

  // ---- Against the totals ------------------------------------------------------------------------------------

  ghost predicate HasOrg(orgs: seq<Org>, s: Space) {
    Present(orgs, OrgKey, s.orgGuid)
  }

  ghost predicate HasHome(orgs: seq<Org>, spaces: seq<Space>, a: App) {
    exists i :: 0 <= i < |spaces| && spaces[i].guid == a.spaceGuid && HasOrg(orgs, spaces[i])
  }

  lemma OrgWeightDistinct(orgs: seq<Org>, s: Space)
    requires DistinctKeys(orgs, OrgKey)
    ensures OrgWeight(orgs)(s) == if HasOrg(orgs, s) then 1 else 0
  {
    MatchingDistinct(orgs, OrgKey, One, s.orgGuid);
  }

  lemma AppCountDistinct(orgs: seq<Org>, spaces: seq<Space>, a: App)
    requires DistinctKeys(orgs, OrgKey) && DistinctKeys(spaces, SpaceKey)
    ensures Matching(spaces, SpaceKey, OrgWeight(orgs), a.spaceGuid) == if HasHome(orgs, spaces, a) then 1 else 0
  {
    MatchingDistinct(spaces, SpaceKey, OrgWeight(orgs), a.spaceGuid);
    if Present(spaces, SpaceKey, a.spaceGuid) {
      var i :| 0 <= i < |spaces| && SpaceKey(spaces[i]) == a.spaceGuid;
      OrgWeightDistinct(orgs, spaces[i]);
      assert forall j :: 0 <= j < |spaces| && spaces[j].guid == a.spaceGuid ==> j == i;
    }
  }

  /** With distinct org and space GUIDs the tree never counts more than the totals, and says when it counts all. */
  lemma WithinTotals(orgs: seq<Org>, spaces: seq<Space>, apps: seq<App>)
    requires DistinctKeys(orgs, OrgKey) && DistinctKeys(spaces, SpaceKey)
    ensures var tree := Tree(orgs, spaces, apps);
            && SpacesCounted(tree) <= |spaces|
            && AppsCounted(tree) <= |apps|
            && (SpacesCounted(tree) == |spaces| <==> forall s :: s in spaces ==> HasOrg(orgs, s))
            && (AppsCounted(tree) == |apps| <==> forall a :: a in apps ==> HasHome(orgs, spaces, a))
  {
    Conservation(orgs, spaces, apps);
    forall s | s in spaces ensures Matching(orgs, OrgKey, One, ParentKey(s)) == if HasOrg(orgs, s) then 1 else 0 {
      OrgWeightDistinct(orgs, s);
    }
    PairsBounded(spaces, ParentKey, orgs, OrgKey, One);
    forall a | a in apps
      ensures Matching(spaces, SpaceKey, OrgWeight(orgs), AppKey(a)) == if HasHome(orgs, spaces, a) then 1 else 0
    {
      AppCountDistinct(orgs, spaces, a);
    }
    PairsBounded(apps, AppKey, spaces, SpaceKey, OrgWeight(orgs));
  }

  /** Both counts are the totals exactly when no space's org and no app's space is dangling. */
  lemma NothingLostIff(orgs: seq<Org>, spaces: seq<Space>, apps: seq<App>)
    requires DistinctKeys(orgs, OrgKey) && DistinctKeys(spaces, SpaceKey)
    ensures var tree := Tree(orgs, spaces, apps);
            SpacesCounted(tree) == |spaces| && AppsCounted(tree) == |apps| <==>
            && (forall s :: s in spaces ==> HasOrg(orgs, s))
            && (forall a :: a in apps ==> Present(spaces, SpaceKey, a.spaceGuid))
  {
    WithinTotals(orgs, spaces, apps);
    forall a | a in apps
      ensures HasHome(orgs, spaces, a) ==> Present(spaces, SpaceKey, a.spaceGuid)
      ensures (forall s :: s in spaces ==> HasOrg(orgs, s)) && Present(spaces, SpaceKey, a.spaceGuid) ==>
                HasHome(orgs, spaces, a)
    {
      if HasHome(orgs, spaces, a) {
        var i :| 0 <= i < |spaces| && spaces[i].guid == a.spaceGuid && HasOrg(orgs, spaces[i]);
        assert SpaceKey(spaces[i]) == a.spaceGuid;
      }
    }
  }
}
