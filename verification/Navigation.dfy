/**
 * The sidebar menu: which sections and items a viewer sees, how workspace and tenant ids are
 * injected into paths, and the support grant that opens workspace content to platform operators.
 */
module Navigation {
  import opened Wrappers
  import opened Sequences
  import opened Sorting

  datatype Visibility = Always | InWorkspace | PlatformOnly | TenantAdministration

  datatype NavItem = NavItem(id: string, path: string, permission: Option<string>, roles: Option<seq<string>>)

  datatype NavSection = NavSection(id: string, order: int, visibility: Visibility, items: seq<NavItem>)

  datatype Grant = Grant(tenant: string, workspace: Option<string>)

  /** What the hook has resolved: role, workspace permissions, ids in view, and active grants. */
  datatype Viewer = Viewer(role: Option<string>, permissions: set<string>, workspace: Option<string>,
                           tenant: string, grants: seq<Grant>)

  /** A present, non-empty string: what JavaScript counts as true. */
  predicate Truthy(s: Option<string>) {
    s.Some? && s.value != ""
  }

  predicate IsPlatformOp(v: Viewer) {
    v.role == Some("platform_admin") || v.role == Some("platform_viewer")
  }

  predicate IsTenantAdmin(v: Viewer) {
    v.role == Some("tenant_admin")
  }

  predicate GrantCovers(g: Grant, v: Viewer) {
    g.tenant == v.tenant && (!Truthy(g.workspace) || g.workspace == v.workspace)
  }

  function FindGrant(grants: seq<Grant>, v: Viewer): Option<Grant> {
    if grants == [] then None
    else if GrantCovers(grants[0], v) then Some(grants[0])
    else FindGrant(grants[1..], v)
  }

  function MatchingGrant(v: Viewer): Option<Grant> {
    if !IsPlatformOp(v) || v.grants == [] then None else FindGrant(v.grants, v)
  }

  predicate HasActiveGrantHere(v: Viewer) {
    MatchingGrant(v).Some?
  }

  // ---------------------------------------------------------------------------------------
  // Visibility
  // ---------------------------------------------------------------------------------------

  predicate SectionOpen(s: NavSection, v: Viewer) {
    && (s.visibility.PlatformOnly? ==> IsPlatformOp(v))
    && (s.visibility.InWorkspace? ==> Truthy(v.workspace) && (IsPlatformOp(v) ==> HasActiveGrantHere(v)))
    && (s.visibility.TenantAdministration? ==> IsTenantAdmin(v) || IsPlatformOp(v))
  }

  predicate ItemVisible(item: NavItem, v: Viewer) {
    if item.id == "workspaces" && v.role == Some("platform_admin") then false
    else if !Truthy(item.permission) && item.roles.None? then true
    else if item.roles.Some? then Truthy(v.role) && v.role.value in item.roles.value
    else item.permission.value in v.permissions || IsPlatformOp(v) || IsTenantAdmin(v)
  }

  function VisibleItems(items: seq<NavItem>, v: Viewer): seq<NavItem> {
    if items == [] then []
    else (if ItemVisible(items[0], v) then [items[0]] else []) + VisibleItems(items[1..], v)
  }

  // ---------------------------------------------------------------------------------------
  // Path injection
  // ---------------------------------------------------------------------------------------

  const WORKSPACE := ":workspace_id"
  const TENANT := ":tenant_id"
  const TENANT_SEGMENT := "/t/:tenant_id"

  predicate OccursAt(s: string, pattern: string, at: nat) {
    at + |pattern| <= |s| && s[at..at + |pattern|] == pattern
  }

  function FirstOccurrence(s: string, pattern: string, at: nat): (r: Option<nat>)
    ensures r.Some? ==> OccursAt(s, pattern, r.value)
    decreases |s| - at
  {
    if OccursAt(s, pattern, at) then Some(at)
    else if at >= |s| then None
    else FirstOccurrence(s, pattern, at + 1)
  }

  /**
   * What a replacement text stands for: `$$` is a dollar sign, `$&` the matched text, and a
   * dollar sign with a back quote or an apostrophe the text before or after the match.
   */
  function Expand(r: string, matched: string, before: string, after: string): string {
    if r == "" then ""
    else if |r| == 1 || r[0] != '$' then [r[0]] + Expand(r[1..], matched, before, after)
    else if r[1] == '$' then "$" + Expand(r[2..], matched, before, after)
    else if r[1] == '&' then matched + Expand(r[2..], matched, before, after)
    else if r[1] == '`' then before + Expand(r[2..], matched, before, after)
    else if r[1] == '\'' then after + Expand(r[2..], matched, before, after)
    else "$" + Expand(r[1..], matched, before, after)
  }

  /** `s.replace(pattern, replacement)` for a string pattern: the first occurrence only. */
  function ReplaceFirst(s: string, pattern: string, replacement: string): string {
    var at := FirstOccurrence(s, pattern, 0);
    if at.Some? then
      var before, after := s[..at.value], s[at.value + |pattern|..];
      before + Expand(replacement, pattern, before, after) + after
    else s
  }

  function Inject(path: string, v: Viewer): string {
    var withWorkspace := if Truthy(v.workspace) then ReplaceFirst(path, WORKSPACE, v.workspace.value) else path;
    if v.tenant != "" then ReplaceFirst(withWorkspace, TENANT, v.tenant)
    else ReplaceFirst(withWorkspace, TENANT_SEGMENT, "")
  }

  function InjectAll(items: seq<NavItem>, v: Viewer): seq<NavItem> {
    if items == [] then []
    else [items[0].(path := Inject(items[0].path, v))] + InjectAll(items[1..], v)
  }

  // ---------------------------------------------------------------------------------------
  // The menu
  // ---------------------------------------------------------------------------------------

  function Shown(s: NavSection, v: Viewer): seq<NavSection> {
    var visible := VisibleItems(s.items, v);
    if !SectionOpen(s, v) || visible == [] then [] else [s.(items := InjectAll(visible, v))]
  }

  function Collected(config: seq<NavSection>, v: Viewer): seq<NavSection> {
    if config == [] then [] else Collected(config[..|config| - 1], v) + Shown(config[|config| - 1], v)
  }

  predicate OrderAtMost(a: NavSection, b: NavSection) {
    a.order <= b.order
  }

  function Menu(config: seq<NavSection>, v: Viewer): seq<NavSection> {
    Sort(Collected(config, v), OrderAtMost)
  }

  method BuildSections(config: seq<NavSection>, v: Viewer) returns (result: seq<NavSection>)
    ensures result == Menu(config, v)
  {
    result := [];
    for i := 0 to |config|
      invariant result == Collected(config[..i], v)
    {
      var section := config[i];
      assert config[..i + 1][..i] == config[..i];
      if section.visibility == PlatformOnly && !IsPlatformOp(v) {
        continue;
      }
      if section.visibility == InWorkspace {
        if !Truthy(v.workspace) {
          continue;
        }
        if IsPlatformOp(v) && !HasActiveGrantHere(v) {
          continue;
        }
      }
      if section.visibility == TenantAdministration && !(IsTenantAdmin(v) || IsPlatformOp(v)) {
        continue;
      }
      var visible := VisibleItems(section.items, v);
      if |visible| == 0 {
        continue;
      }
      result := result + [section.(items := InjectAll(visible, v))];
    }
    assert config[..|config|] == config;
    result := Sort(result, OrderAtMost);
  }

  // ---------------------------------------------------------------------------------------
  // Order and content
  // ---------------------------------------------------------------------------------------

  lemma {:induction false} CollectedFrom(config: seq<NavSection>, v: Viewer, t: NavSection)
    ensures t in Collected(config, v) <==> exists s :: s in config && t in Shown(s, v)
  {
    if config != [] {
      var init, last := config[..|config| - 1], config[|config| - 1];
      assert config == init + [last];
      CollectedFrom(init, v, t);
    }
  }

  /** The menu is ordered and holds exactly the sections that are open and have a visible item. */
  lemma MenuHoldsShownSections(config: seq<NavSection>, v: Viewer)
    ensures forall i, j :: 0 <= i < j < |Menu(config, v)| ==> Menu(config, v)[i].order <= Menu(config, v)[j].order
    ensures forall t :: t in Menu(config, v) <==> exists s :: s in config && t in Shown(s, v)
    ensures forall t :: t in Menu(config, v) ==> t.items != []
  {
    SortIsSorted(Collected(config, v), OrderAtMost);
    forall t ensures t in Menu(config, v) <==> exists s :: s in config && t in Shown(s, v) {
      CollectedFrom(config, v, t);
      assert t in Menu(config, v) <==> t in multiset(Menu(config, v));
      assert t in Collected(config, v) <==> t in multiset(Collected(config, v));
    }
  }

  lemma {:induction false} VisibleItemsSpec(items: seq<NavItem>, v: Viewer, item: NavItem)
    ensures item in VisibleItems(items, v) <==> item in items && ItemVisible(item, v)
  {
    if items != [] {
      assert items == [items[0]] + items[1..];
      VisibleItemsSpec(items[1..], v, item);
    }
  }

  lemma {:induction false} InjectAllSpec(items: seq<NavItem>, v: Viewer, i: int)
    ensures |InjectAll(items, v)| == |items|
    ensures 0 <= i < |items| ==> InjectAll(items, v)[i] == items[i].(path := Inject(items[i].path, v))
  {
    if items != [] {
      InjectAllSpec(items[1..], v, i - 1);
    }
  }

  /** Whether the menu offers an item of a configured section to a viewer. */
  ghost predicate Offers(s: NavSection, item: NavItem, v: Viewer) {
    item in s.items && SectionOpen(s, v) && ItemVisible(item, v)
  }

  /** An item that is offered appears in the menu, under its section and with its injected path. */
  lemma MenuOffersItems(config: seq<NavSection>, v: Viewer, s: NavSection, item: NavItem)
    requires s in config && item in s.items
    ensures Offers(s, item, v) ==>
      exists t :: t in Menu(config, v) && t == s.(items := t.items) && item.(path := Inject(item.path, v)) in t.items
  {
    if Offers(s, item, v) {
      VisibleItemsSpec(s.items, v, item);
      var visible := VisibleItems(s.items, v);
      var t := s.(items := InjectAll(visible, v));
      var i :| 0 <= i < |visible| && visible[i] == item;
      InjectAllSpec(visible, v, i);
      assert InjectAll(visible, v)[i] in t.items;
      assert t in Shown(s, v);
      MenuHoldsShownSections(config, v);
    }
  }

  /** Every item of the menu comes from an offered one. */
  lemma MenuItemsAreOffered(config: seq<NavSection>, v: Viewer, t: NavSection, shown: NavItem)
    returns (s: NavSection, item: NavItem)
    requires t in Menu(config, v) && shown in t.items
    ensures s in config && Offers(s, item, v) && t == s.(items := t.items)
    ensures shown == item.(path := Inject(item.path, v))
  {
    MenuHoldsShownSections(config, v);
    s :| s in config && t in Shown(s, v);
    var visible := VisibleItems(s.items, v);
    var i :| 0 <= i < |t.items| && t.items[i] == shown;
    InjectAllSpec(visible, v, i);
    item := visible[i];
    VisibleItemsSpec(s.items, v, item);
  }

  lemma {:induction false} FindIgnoresPermissions(grants: seq<Grant>, v: Viewer, more: set<string>)
    ensures FindGrant(grants, v) == FindGrant(grants, v.(permissions := more))
  {
    if grants != [] {
      FindIgnoresPermissions(grants[1..], v, more);
    }
  }

  /** More permissions never hide an item. */
  lemma MorePermissionsShowMore(s: NavSection, item: NavItem, v: Viewer, more: set<string>)
    requires v.permissions <= more && Offers(s, item, v)
    ensures Offers(s, item, v.(permissions := more))
  {
    FindIgnoresPermissions(v.grants, v, more);
  }

  ghost predicate IsFirstCovering(grants: seq<Grant>, v: Viewer, i: nat) {
    && i < |grants| && GrantCovers(grants[i], v)
    && forall k :: 0 <= k < i ==> !GrantCovers(grants[k], v)
  }

  lemma {:induction false} FindGrantSpec(grants: seq<Grant>, v: Viewer)
    ensures FindGrant(grants, v).Some? <==> exists g :: g in grants && GrantCovers(g, v)
    ensures FindGrant(grants, v).Some? ==>
      exists i: nat :: IsFirstCovering(grants, v, i) && FindGrant(grants, v) == Some(grants[i])
  {
    if grants != [] {
      var rest := grants[1..];
      assert grants == [grants[0]] + rest;
      FindGrantSpec(rest, v);
      if GrantCovers(grants[0], v) {
        assert IsFirstCovering(grants, v, 0);
      } else if FindGrant(rest, v).Some? {
        var i: nat :| IsFirstCovering(rest, v, i) && FindGrant(rest, v) == Some(rest[i]);
        assert IsFirstCovering(grants, v, i + 1);
      }
    }
  }

  /** Whatever the menu shows, it still shows with more permissions: same section, same item and path. */
  lemma MenuGrowsWithPermissions(config: seq<NavSection>, v: Viewer, more: set<string>, t: NavSection, shown: NavItem)
    requires v.permissions <= more && t in Menu(config, v) && shown in t.items
    ensures exists u :: u in Menu(config, v.(permissions := more)) && u.id == t.id && shown in u.items
  {
    var s, item := MenuItemsAreOffered(config, v, t, shown);
    MorePermissionsShowMore(s, item, v, more);
    MenuOffersItems(config, v.(permissions := more), s, item);
  }

  /** Only a platform operator has a matching grant: the first active one that covers the view. */
  lemma OnlyOperatorsMatch(v: Viewer)
    ensures v.role != Some("platform_admin") && v.role != Some("platform_viewer") ==> MatchingGrant(v) == None
    ensures IsPlatformOp(v) ==> MatchingGrant(v) == FindGrant(v.grants, v)
  {
  }

  /**
   * A platform operator sees a workspace section exactly when a workspace is in view and some
   * active grant covers the tenant and that workspace.
   */
  lemma OperatorNeedsGrant(s: NavSection, v: Viewer)
    requires s.visibility.InWorkspace? && IsPlatformOp(v)
    ensures SectionOpen(s, v) <==> Truthy(v.workspace) && exists g :: g in v.grants && GrantCovers(g, v)
  {
    FindGrantSpec(v.grants, v);
  }

  // ---------------------------------------------------------------------------------------
  // The access policy, written out
  // ---------------------------------------------------------------------------------------

  ghost predicate HasRole(v: Viewer, roles: set<string>) {
    exists role :: role in roles && v.role == Some(role)
  }

  /** Some active grant is for the tenant in view, and for all its workspaces or the one in view. */
  ghost predicate GrantedHere(v: Viewer) {
    exists g :: g in v.grants && g.tenant == v.tenant
      && (g.workspace == None || g.workspace == Some("") || g.workspace == v.workspace)
  }

  ghost predicate MayEnter(s: NavSection, v: Viewer) {
    match s.visibility
    case Always => true
    case PlatformOnly => HasRole(v, {"platform_admin", "platform_viewer"})
    case TenantAdministration => HasRole(v, {"tenant_admin", "platform_admin", "platform_viewer"})
    case InWorkspace =>
      && v.workspace != None && v.workspace != Some("")
      && (HasRole(v, {"platform_admin", "platform_viewer"}) ==> GrantedHere(v))
  }

  ghost predicate MayUse(item: NavItem, v: Viewer) {
    && !(item.id == "workspaces" && v.role == Some("platform_admin"))
    && (item.roles.Some? ==> v.role.Some? && v.role != Some("") && v.role.value in item.roles.value)
    && (item.roles.None? && item.permission.Some? && item.permission != Some("") ==>
          || item.permission.value in v.permissions
          || HasRole(v, {"platform_admin", "platform_viewer", "tenant_admin"}))
  }

  lemma PolicyIsEnforced(s: NavSection, item: NavItem, v: Viewer)
    ensures SectionOpen(s, v) <==> MayEnter(s, v)
    ensures ItemVisible(item, v) <==> MayUse(item, v)
  {
    FindGrantSpec(v.grants, v);
  }

  /** Every item in the menu is a configured one that the viewer may use, in a section he may enter. */
  lemma MenuShowsOnlyAllowed(config: seq<NavSection>, v: Viewer, t: NavSection, shown: NavItem)
    requires t in Menu(config, v) && shown in t.items
    ensures MayEnter(t, v) && MayUse(shown, v)
    ensures exists s, item :: s in config && item in s.items && t == s.(items := t.items)
                                && shown == item.(path := Inject(item.path, v))
  {
    var s, item := MenuItemsAreOffered(config, v, t, shown);
    PolicyIsEnforced(s, item, v);
  }

  /** Every configured item that the viewer may use, in a section he may enter, is in the menu. */
  lemma MenuShowsAllAllowed(config: seq<NavSection>, v: Viewer, s: NavSection, item: NavItem)
    requires s in config && item in s.items && MayEnter(s, v) && MayUse(item, v)
    ensures exists t :: t in Menu(config, v) && t == s.(items := t.items)
                          && item.(path := Inject(item.path, v)) in t.items
  {
    PolicyIsEnforced(s, item, v);
    MenuOffersItems(config, v, s, item);
  }

  /** A section's items are those the viewer may use, in the configured order and with repetition. */
  lemma {:induction false} VisibleItemsAreFiltered(items: seq<NavItem>, v: Viewer, keep: NavItem -> bool)
    requires forall item :: keep(item) <==> MayUse(item, v)
    ensures VisibleItems(items, v) == Filter(items, keep)
  {
    if items != [] {
      var any := NavSection("", 0, Always, []);
      PolicyIsEnforced(any, items[0], v);
      VisibleItemsAreFiltered(items[1..], v, keep);
      FilterFromFront(items[0], items[1..], keep);
      assert items == [items[0]] + items[1..];
    }
  }

  ghost predicate IsWorkspaceItem(config: seq<NavSection>, s: NavSection, item: NavItem) {
    s in config && s.visibility.InWorkspace? && item in s.items
  }

  lemma OperatorMayEnter(s: NavSection, v: Viewer)
    requires v.role == Some("platform_admin") || v.role == Some("platform_viewer")
    requires s.visibility.InWorkspace?
    ensures MayEnter(s, v) <==> v.workspace != None && v.workspace != Some("") && GrantedHere(v)
  {
    assert HasRole(v, {"platform_admin", "platform_viewer"}) by {
      assert v.role.value in {"platform_admin", "platform_viewer"};
    }
  }

  /**
   * A platform operator's menu holds workspace content exactly when a workspace is in view, some
   * active grant covers it, and a workspace section has an item the operator may use.
   */
  lemma OperatorMenuNeedsGrant(config: seq<NavSection>, v: Viewer)
    requires v.role == Some("platform_admin") || v.role == Some("platform_viewer")
    ensures (exists t :: t in Menu(config, v) && t.visibility.InWorkspace?)
       <==> && v.workspace != None && v.workspace != Some("") && GrantedHere(v)
            && exists s, item :: IsWorkspaceItem(config, s, item) && MayUse(item, v)
  {
    MenuHoldsShownSections(config, v);
    if t :| t in Menu(config, v) && t.visibility.InWorkspace? {
      OperatorMayEnter(t, v);
      MenuShowsOnlyAllowed(config, v, t, t.items[0]);
      var s, item := MenuItemsAreOffered(config, v, t, t.items[0]);
      PolicyIsEnforced(s, item, v);
      assert IsWorkspaceItem(config, s, item);
    }
    if s, item :| IsWorkspaceItem(config, s, item) && MayUse(item, v) {
      OperatorMayEnter(s, v);
      if MayEnter(s, v) {
        MenuShowsAllAllowed(config, v, s, item);
      }
    }
  }

  // ---------------------------------------------------------------------------------------
  // Paths without placeholders
  // ---------------------------------------------------------------------------------------

  predicate NoColon(s: string) {
    forall i :: 0 <= i < |s| ==> s[i] != ':'
  }

  /** The parts of a path around its placeholders. */
  datatype Shape =
    | PlainPath(text: string)
    | TenantPath(before: string, after: string)
    | WorkspacePath(before: string, between: string, after: string)

  function PathOf(p: Shape): string {
    match p
    case PlainPath(text) => text
    case TenantPath(before, after) => before + TENANT_SEGMENT + after
    case WorkspacePath(before, between, after) => (before + TENANT_SEGMENT + between) + WORKSPACE + after
  }

  /** A path may end here, or go on with another segment. */
  predicate EndsOrSlash(s: string) {
    s == "" || s[0] == '/'
  }

  /** No colon outside the placeholders, and each placeholder is a whole segment. */
  predicate Segmented(p: Shape) {
    match p
    case PlainPath(text) => NoColon(text)
    case TenantPath(before, after) => NoColon(before) && NoColon(after) && EndsOrSlash(after)
    case WorkspacePath(before, between, after) =>
      && NoColon(before) && NoColon(between) && NoColon(after) && EndsOrSlash(after)
      && between != "" && between[0] == '/' && between[|between| - 1] == '/'
  }

  /** What injection puts in place of the placeholders of a path; no tenant part if it is unknown. */
  datatype Filling = Filling(tenantKnown: bool, tenant: string, workspace: string)

  function TenantPart(f: Filling): string {
    if f.tenantKnown then "/t/" + f.tenant else ""
  }

  function Filled(p: Shape, f: Filling): string {
    match p
    case PlainPath(text) => text
    case TenantPath(before, after) => before + TenantPart(f) + after
    case WorkspacePath(before, between, after) => before + TenantPart(f) + (between + f.workspace + after)
  }

  /** The tenant id as it is put between `before` and `after`. */
  function TenantText(v: Viewer, before: string, after: string): string {
    if v.tenant == "" then "" else Expand(v.tenant, TENANT, before + "/t/", after)
  }

  /** A viewer's ids, expanded where they stand in a path: first the workspace, then the tenant. */
  function FillingFor(p: Shape, v: Viewer): Filling {
    match p
    case PlainPath(_) => Filling(v.tenant != "", "", "")
    case TenantPath(before, after) => Filling(v.tenant != "", TenantText(v, before, after), "")
    case WorkspacePath(before, between, after) =>
      var w := Expand(v.workspace.GetOr(""), WORKSPACE, before + TENANT_SEGMENT + between, after);
      Filling(v.tenant != "", TenantText(v, before, between + w + after), w)
  }

  lemma {:induction false} FirstOccurrenceIs(s: string, pattern: string, at: nat, found: nat)
    requires at <= found <= |s| && OccursAt(s, pattern, found)
    requires forall i :: at <= i < found ==> !OccursAt(s, pattern, i)
    ensures FirstOccurrence(s, pattern, at) == Some(found)
    decreases found - at
  {
    if at < found {
      FirstOccurrenceIs(s, pattern, at + 1, found);
    }
  }

  lemma {:induction false} NoOccurrence(s: string, pattern: string, at: nat)
    requires forall i :: at <= i <= |s| ==> !OccursAt(s, pattern, i)
    ensures FirstOccurrence(s, pattern, at) == None
    decreases |s| - at
  {
    if at < |s| {
      NoOccurrence(s, pattern, at + 1);
    }
  }

  lemma OccurrenceMatches(s: string, pattern: string, at: nat, k: nat)
    requires k < |pattern|
    ensures OccursAt(s, pattern, at) ==> s[at + k] == pattern[k]
  {
    if OccursAt(s, pattern, at) {
      assert s[at..at + |pattern|][k] == s[at + k];
    }
  }

  lemma ReplaceBetween(before: string, pattern: string, after: string, replacement: string)
    requires forall i :: 0 <= i < |before| ==> !OccursAt(before + pattern + after, pattern, i)
    ensures ReplaceFirst(before + pattern + after, pattern, replacement)
         == before + Expand(replacement, pattern, before, after) + after
  {
    var s := before + pattern + after;
    assert s[|before|..|before| + |pattern|] == pattern;
    FirstOccurrenceIs(s, pattern, 0, |before|);
    assert s[..|before|] == before && s[|before| + |pattern|..] == after;
  }

  lemma TenantIdIsFirst(before: string, after: string, i: nat)
    requires NoColon(before) && i < |before + "/t/"|
    ensures !OccursAt(before + "/t/" + TENANT + after, TENANT, i)
  {
    var front := before + "/t/";
    assert NoColon(front);
    assert (front + TENANT + after)[i] == front[i];
    OccurrenceMatches(front + TENANT + after, TENANT, i, 0);
  }

  lemma AroundTenant(before: string, t: string, after: string)
    ensures before + "/t/" + t + after == before + ("/t/" + t) + after
  {
  }

  lemma ReplaceTenantId(before: string, after: string, tenant: string)
    requires NoColon(before)
    ensures ReplaceFirst(before + TENANT_SEGMENT + after, TENANT, tenant)
         == before + ("/t/" + Expand(tenant, TENANT, before + "/t/", after)) + after
  {
    forall i | 0 <= i < |before + "/t/"| ensures !OccursAt(before + "/t/" + TENANT + after, TENANT, i) {
      TenantIdIsFirst(before, after, i);
    }
    assert "/t/" + TENANT == TENANT_SEGMENT;
    AroundTenant(before, TENANT, after);
    ReplaceBetween(before + "/t/", TENANT, after, tenant);
    AroundTenant(before, Expand(tenant, TENANT, before + "/t/", after), after);
  }

  lemma DropTenantSegment(before: string, after: string)
    requires NoColon(before)
    ensures ReplaceFirst(before + TENANT_SEGMENT + after, TENANT_SEGMENT, "") == before + "" + after
  {
    var s := before + TENANT_SEGMENT + after;
    forall i | 0 <= i < |before| ensures !OccursAt(s, TENANT_SEGMENT, i) {
      assert s[i + 3] == (before + "/t/")[i + 3];
      assert (before + "/t/")[i + 3] != ':' && TENANT_SEGMENT[3] == ':';
      OccurrenceMatches(s, TENANT_SEGMENT, i, 3);
    }
    ReplaceBetween(before, TENANT_SEGMENT, after, "");
  }

  /** In a text whose colons all start ":tenant_id", the workspace placeholder does not occur. */
  lemma TenantColonIsNotWorkspace(before: string, between: string, rest: string, i: nat)
    requires NoColon(before) && NoColon(between) && i < |before + TENANT_SEGMENT + between|
    ensures !OccursAt(before + TENANT_SEGMENT + between + rest, WORKSPACE, i)
  {
    var front := before + TENANT_SEGMENT + between;
    var s := front + rest;
    assert s[i] == front[i];
    assert WORKSPACE[0] == ':' && WORKSPACE[1] == 'w' && TENANT_SEGMENT[3] == ':' && TENANT_SEGMENT[4] == 't';
    OccurrenceMatches(s, WORKSPACE, i, 0);
    OccurrenceMatches(s, WORKSPACE, i, 1);
    if i < |before| {
      assert front[i] == before[i];
    } else if i < |before| + |TENANT_SEGMENT| {
      assert front[i] == TENANT_SEGMENT[i - |before|];
      if i == |before| + 3 {
        assert s[i + 1] == front[i + 1] == TENANT_SEGMENT[4];
      }
    } else {
      assert front[i] == between[i - |before| - |TENANT_SEGMENT|];
    }
  }

  lemma WorkspaceNotInTenantPath(before: string, after: string, workspace: string)
    requires NoColon(before) && NoColon(after)
    ensures ReplaceFirst(before + TENANT_SEGMENT + after, WORKSPACE, workspace) == before + TENANT_SEGMENT + after
  {
    var s := before + TENANT_SEGMENT + after;
    assert s + "" == s;
    forall i | 0 <= i <= |s| ensures !OccursAt(s, WORKSPACE, i) {
      if i < |s| {
        TenantColonIsNotWorkspace(before, after, "", i);
      }
    }
    NoOccurrence(s, WORKSPACE, 0);
  }

  lemma NoColonNoPlaceholder(s: string, pattern: string, k: nat, replacement: string)
    requires NoColon(s) && k < |pattern| && pattern[k] == ':'
    ensures ReplaceFirst(s, pattern, replacement) == s
  {
    forall i | 0 <= i <= |s| ensures !OccursAt(s, pattern, i) {
      OccurrenceMatches(s, pattern, i, k);
    }
    NoOccurrence(s, pattern, 0);
  }

  lemma ReplaceTenant(before: string, after: string, v: Viewer, f: Filling)
    requires NoColon(before)
    requires f.tenantKnown == (v.tenant != "") && f.tenant == TenantText(v, before, after)
    ensures (if v.tenant != "" then ReplaceFirst(before + TENANT_SEGMENT + after, TENANT, v.tenant)
             else ReplaceFirst(before + TENANT_SEGMENT + after, TENANT_SEGMENT, ""))
         == before + TenantPart(f) + after
  {
    if v.tenant != "" {
      ReplaceTenantId(before, after, v.tenant);
    } else {
      DropTenantSegment(before, after);
    }
  }

  lemma AroundWorkspace(before: string, between: string, w: string, after: string)
    ensures before + TENANT_SEGMENT + between + w + after == before + TENANT_SEGMENT + (between + w + after)
  {
  }

  lemma ReplaceWorkspaceId(before: string, between: string, after: string, workspace: string)
    requires NoColon(before) && NoColon(between)
    ensures var w := Expand(workspace, WORKSPACE, before + TENANT_SEGMENT + between, after);
      ReplaceFirst((before + TENANT_SEGMENT + between) + WORKSPACE + after, WORKSPACE, workspace)
      == before + TENANT_SEGMENT + (between + w + after)
  {
    var front := before + TENANT_SEGMENT + between;
    forall i | 0 <= i < |front| ensures !OccursAt(front + WORKSPACE + after, WORKSPACE, i) {
      TenantColonIsNotWorkspace(before, between, WORKSPACE + after, i);
      assert front + (WORKSPACE + after) == front + WORKSPACE + after;
    }
    ReplaceBetween(front, WORKSPACE, after, workspace);
    AroundWorkspace(before, between, Expand(workspace, WORKSPACE, front, after), after);
  }

  /** Injection fills each placeholder with its expanded id; a workspace path needs a workspace in view. */
  lemma InjectFills(p: Shape, v: Viewer)
    requires Segmented(p) && (p.WorkspacePath? ==> Truthy(v.workspace))
    ensures Inject(PathOf(p), v) == Filled(p, FillingFor(p, v))
  {
    match p
    case PlainPath(text) =>
      NoColonNoPlaceholder(text, WORKSPACE, 0, v.workspace.GetOr(""));
      NoColonNoPlaceholder(text, TENANT, 0, v.tenant);
      NoColonNoPlaceholder(text, TENANT_SEGMENT, 3, "");
    case TenantPath(before, after) =>
      WorkspaceNotInTenantPath(before, after, v.workspace.GetOr(""));
      ReplaceTenant(before, after, v, FillingFor(p, v));
    case WorkspacePath(before, between, after) =>
      ReplaceWorkspaceId(before, between, after, v.workspace.value);
      ReplaceTenant(before, between + FillingFor(p, v).workspace + after, v, FillingFor(p, v));
  }

  // ---------------------------------------------------------------------------------------
  // Whether a placeholder is left in a path
  // ---------------------------------------------------------------------------------------

  ghost predicate Holds(s: string, pattern: string) {
    exists i: nat :: OccursAt(s, pattern, i)
  }

  predicate NoSlash(s: string) {
    forall i :: 0 <= i < |s| ==> s[i] != '/'
  }

  /** Like the two placeholders: it starts with a colon and stays within a segment. */
  predicate IsPlaceholder(pattern: string) {
    pattern != "" && pattern[0] == ':' && NoSlash(pattern)
  }

  lemma PlaceholdersAreSuch()
    ensures IsPlaceholder(WORKSPACE) && IsPlaceholder(TENANT)
  {
  }

  lemma OccursInside(a: string, s: string, b: string, pattern: string, i: nat)
    ensures OccursAt(s, pattern, i) ==> OccursAt(a + s + b, pattern, |a| + i)
  {
    if OccursAt(s, pattern, i) {
      assert (a + s + b)[|a| + i..|a| + i + |pattern|] == s[i..i + |pattern|];
    }
  }

  /** An occurrence in a text cut at a slash lies before the cut or behind it. */
  lemma OccursBesideSlash(a: string, b: string, pattern: string, i: nat)
    requires IsPlaceholder(pattern) && OccursAt(a + "/" + b, pattern, i)
    ensures OccursAt(a, pattern, i) || (i > |a| && OccursAt(b, pattern, i - |a| - 1))
  {
    var s := a + "/" + b;
    assert s[|a|] == '/';
    if i <= |a| < i + |pattern| {
      OccurrenceMatches(s, pattern, i, |a| - i);
    } else if i > |a| {
      assert s[i..i + |pattern|] == b[i - |a| - 1..i - |a| - 1 + |pattern|];
    } else {
      assert s[i..i + |pattern|] == a[i..i + |pattern|];
    }
  }

  lemma HoldsBesideSlash(a: string, b: string, pattern: string)
    requires IsPlaceholder(pattern)
    ensures Holds(a + "/" + b, pattern) <==> Holds(a, pattern) || Holds(b, pattern)
  {
    var s := a + "/" + b;
    if i: nat :| OccursAt(s, pattern, i) {
      OccursBesideSlash(a, b, pattern, i);
    }
    if i: nat :| OccursAt(a, pattern, i) {
      OccursInside("", a, "/" + b, pattern, i);
      assert "" + a + ("/" + b) == s;
    }
    if i: nat :| OccursAt(b, pattern, i) {
      OccursInside(a + "/", b, "", pattern, i);
      assert a + "/" + b + "" == s;
    }
  }

  lemma NoColonHoldsNothing(s: string, pattern: string)
    requires NoColon(s) && IsPlaceholder(pattern)
    ensures !Holds(s, pattern)
  {
    forall i: nat ensures !OccursAt(s, pattern, i) {
      OccurrenceMatches(s, pattern, i, 0);
    }
  }

  lemma HoldsInId(id: string, rest: string, pattern: string)
    requires IsPlaceholder(pattern) && NoColon(rest) && EndsOrSlash(rest)
    ensures Holds(id + rest, pattern) <==> Holds(id, pattern)
  {
    if rest == "" {
      assert id + rest == id;
    } else {
      assert rest == "/" + rest[1..] && id + rest == id + "/" + rest[1..];
      HoldsBesideSlash(id, rest[1..], pattern);
      NoColonHoldsNothing(rest[1..], pattern);
    }
  }

  /** In front of `rest`, a path holds a placeholder only inside what stands for the tenant. */
  lemma HoldsInTenantPart(before: string, f: Filling, rest: string, pattern: string)
    requires IsPlaceholder(pattern) && NoColon(before) && NoColon(rest) && EndsOrSlash(rest)
    requires !f.tenantKnown ==> f.tenant == ""
    ensures Holds(before + TenantPart(f) + rest, pattern) <==> Holds(f.tenant, pattern)
  {
    if f.tenantKnown {
      assert before + TenantPart(f) + rest == (before + "/t") + "/" + (f.tenant + rest);
      assert NoColon("/t");
      HoldsBesideSlash(before + "/t", f.tenant + rest, pattern);
      NoColonHoldsNothing(before + "/t", pattern);
      HoldsInId(f.tenant, rest, pattern);
    } else {
      assert before + TenantPart(f) + rest == before + rest;
      NoColonHoldsNothing(before + rest, pattern);
      NoColonHoldsNothing(f.tenant, pattern);
    }
  }

  /** A filled path holds a placeholder exactly when a text that was put into it does. */
  lemma FilledHoldsWhatIdsHold(p: Shape, v: Viewer, pattern: string)
    requires Segmented(p) && IsPlaceholder(pattern)
    ensures var f := FillingFor(p, v);
      Holds(Filled(p, f), pattern) <==> Holds(f.tenant, pattern) || Holds(f.workspace, pattern)
  {
    var f := FillingFor(p, v);
    NoColonHoldsNothing("", pattern);
    match p
    case PlainPath(text) => NoColonHoldsNothing(text, pattern);
    case TenantPath(before, after) => HoldsInTenantPart(before, f, after, pattern);
    case WorkspacePath(before, between, after) =>
      var init := between[..|between| - 1];
      assert between == init + "/";
      assert Filled(p, f) == (before + TenantPart(f) + init) + "/" + (f.workspace + after);
      HoldsBesideSlash(before + TenantPart(f) + init, f.workspace + after, pattern);
      HoldsInTenantPart(before, f, init, pattern);
      HoldsInId(f.workspace, after, pattern);
  }

  predicate IsLiteral(id: string) {
    forall i :: 0 <= i < |id| - 1 && id[i] == '$' ==>
      id[i + 1] != '$' && id[i + 1] != '&' && id[i + 1] != '`' && id[i + 1] != '\''
  }

  /** A text without any of the four dollar forms stands for itself. */
  lemma {:induction false} LiteralIsKept(id: string, matched: string, before: string, after: string)
    requires IsLiteral(id)
    ensures Expand(id, matched, before, after) == id
  {
    if id != "" {
      var rest := id[1..];
      assert id == [id[0]] + rest;
      forall i | 0 <= i < |rest| - 1 && rest[i] == '$'
        ensures rest[i + 1] != '$' && rest[i + 1] != '&' && rest[i + 1] != '`' && rest[i + 1] != '\''
      {
        assert id[i + 1] == '$' && id[i + 2] == rest[i + 1];
      }
      LiteralIsKept(rest, matched, before, after);
    }
  }

  lemma NoDollarIsLiteral(id: string)
    requires '$' !in id
    ensures IsLiteral(id)
  {
  }

  /** Ids without dollar forms are put into a path as they are. */
  lemma LiteralIdsFill(p: Shape, v: Viewer)
    requires IsLiteral(v.tenant) && IsLiteral(v.workspace.GetOr(""))
    ensures FillingFor(p, v)
         == Filling(v.tenant != "", if p.PlainPath? then "" else v.tenant,
                    if p.WorkspacePath? then v.workspace.GetOr("") else "")
  {
    match p
    case PlainPath(_) =>
    case TenantPath(before, after) => LiteralIsKept(v.tenant, TENANT, before + "/t/", after);
    case WorkspacePath(before, between, after) =>
      var w := v.workspace.GetOr("");
      LiteralIsKept(w, WORKSPACE, before + TENANT_SEGMENT + between, after);
      LiteralIsKept(v.tenant, TENANT, before + "/t/", between + w + after);
  }

  /** Whether `p` describes the path of an item of the section. */
  predicate Describes(p: Shape, item: NavItem, s: NavSection) {
    Segmented(p) && item.path == PathOf(p) && (p.WorkspacePath? ==> s.visibility.InWorkspace?)
  }

  /** Paths like those of the configured menu: workspace placeholders only in workspace sections. */
  ghost predicate WellShaped(s: NavSection) {
    forall item :: item in s.items ==>
      exists p: Shape :: Describes(p, item, s)
  }

  /**
   * Every path of the menu is an offered item's, filled; and for any ids it holds a placeholder
   * exactly when an expanded id that was put into it does.
   */
  lemma MenuHoldsWhatIdsHold(config: seq<NavSection>, v: Viewer, t: NavSection, shown: NavItem, pattern: string)
    returns (s: NavSection, item: NavItem, p: Shape)
    requires forall s :: s in config ==> WellShaped(s)
    requires pattern == WORKSPACE || pattern == TENANT
    requires t in Menu(config, v) && shown in t.items
    ensures s in config && Offers(s, item, v) && Describes(p, item, s)
    ensures shown.path == Filled(p, FillingFor(p, v))
    ensures var f := FillingFor(p, v);
      Holds(shown.path, pattern) <==> Holds(f.tenant, pattern) || Holds(f.workspace, pattern)
  {
    s, item := MenuItemsAreOffered(config, v, t, shown);
    p :| Describes(p, item, s);
    InjectFills(p, v);
    PlaceholdersAreSuch();
    FilledHoldsWhatIdsHold(p, v, pattern);
  }

  /** With ids that hold no placeholder and no dollar form, no path of the menu holds a placeholder. */
  lemma MenuHasNoPlaceholder(config: seq<NavSection>, v: Viewer, t: NavSection, shown: NavItem, pattern: string)
    requires forall s :: s in config ==> WellShaped(s)
    requires pattern == WORKSPACE || pattern == TENANT
    requires IsLiteral(v.tenant) && IsLiteral(v.workspace.GetOr(""))
    requires !Holds(v.tenant, pattern) && !Holds(v.workspace.GetOr(""), pattern)
    requires t in Menu(config, v) && shown in t.items
    ensures !Holds(shown.path, pattern)
  {
    var s, item, p := MenuHoldsWhatIdsHold(config, v, t, shown, pattern);
    PlaceholdersAreSuch();
    NoColonHoldsNothing("", pattern);
    LiteralIdsFill(p, v);
  }

  /** The four dollar forms, and any other dollar sign, which stands for itself. */
  lemma DollarForms(r: string, matched: string, before: string, after: string)
    ensures Expand("$$" + r, matched, before, after) == "$" + Expand(r, matched, before, after)
    ensures Expand("$&" + r, matched, before, after) == matched + Expand(r, matched, before, after)
    ensures Expand("$`" + r, matched, before, after) == before + Expand(r, matched, before, after)
    ensures Expand("$'" + r, matched, before, after) == after + Expand(r, matched, before, after)
    ensures r != "" && r[0] != '$' && r[0] != '&' && r[0] != '`' && r[0] != '\'' ==>
      Expand("$" + r, matched, before, after) == "$" + Expand(r, matched, before, after)
    ensures r != "" && r[0] != '$' ==>
      Expand(r, matched, before, after) == [r[0]] + Expand(r[1..], matched, before, after)
  {
    assert ("$$" + r)[2..] == r && ("$&" + r)[2..] == r && ("$`" + r)[2..] == r && ("$'" + r)[2..] == r;
    assert ("$" + r)[1..] == r;
  }

  lemma AmpersandIsMatch(matched: string, before: string, after: string)
    ensures Expand("$&", matched, before, after) == matched
  {
    assert "$&"[2..] == "";
  }

  /** The workspace id "$&" holds no placeholder, and leaves one in every workspace path. */
  lemma DollarIdKeepsPlaceholder(p: Shape, v: Viewer)
    requires Segmented(p) && p.WorkspacePath? && v.workspace == Some("$&")
    ensures !Holds("$&", WORKSPACE) && !Holds("$&", TENANT)
    ensures Holds(Inject(PathOf(p), v), WORKSPACE)
  {
    PlaceholdersAreSuch();
    NoColonHoldsNothing("$&", WORKSPACE);
    NoColonHoldsNothing("$&", TENANT);
    InjectFills(p, v);
    FilledHoldsWhatIdsHold(p, v, WORKSPACE);
    AmpersandIsMatch(WORKSPACE, p.before + TENANT_SEGMENT + p.between, p.after);
    assert OccursAt(WORKSPACE, WORKSPACE, 0);
  }

  // ---------------------------------------------------------------------------------------
  // The configured menu
  // ---------------------------------------------------------------------------------------

  function TenantItem(id: string, after: string): NavItem {
    NavItem(id, PathOf(TenantPath("/hub", after)), None, Some(["tenant_admin", "platform_admin"]))
  }

  function WorkspaceItem(id: string, page: string, permission: Option<string>): NavItem {
    NavItem(id, PathOf(WorkspacePath("/hub", "/ws/", page)), permission, None)
  }

  /** A page of a section: id, end of the path, permission. */
  datatype Page = Page(id: string, page: string, permission: Option<string>)

  const TENANT_PAGES: seq<Page> := [
    Page("tenant-dashboard", "", None),
    Page("tenant-members", "/members", None),
    Page("tenant-assignments", "/assignments", None),
    Page("tenant-connections", "/connections", None),
    Page("tenant-support-access", "/support-access", None)]

  function TenantItems(): seq<NavItem> {
    seq(|TENANT_PAGES|, i requires 0 <= i < |TENANT_PAGES| => TenantItem(TENANT_PAGES[i].id, TENANT_PAGES[i].page))
  }

  const WORKSPACE_PAGES: seq<Page> := [
    Page("getting-started", "/onboarding", None),
    Page("overview", "/overview", None),
    Page("glossary", "/glossary", None),
    Page("datasets", "/datasets", Some("datasets:read")),
    Page("flows", "/flows", Some("executions:read")),
    Page("nl-rule-builder", "/nl-rule-builder", Some("rules:write")),
    Page("rules", "/rules", Some("rules:read")),
    Page("issues", "/issues", Some("issues:read")),
    Page("incidents", "/incidents", Some("incidents:read")),
    Page("alerts", "/alerts", Some("alerts:read")),
    Page("notification-log", "/notification-log", Some("alerts:read")),
    Page("anomalies", "/anomalies", Some("alerts:read")),
    Page("flow-reports", "/flow-reports", Some("reports:read")),
    Page("quality-reports", "/quality-reports", Some("reports:read")),
    Page("members", "/members", Some("members:read")),
    Page("roles", "/roles", Some("roles:assign")),
    Page("workspace-settings", "/settings", Some("settings:write")),
    Page("activity-log", "/activity-log", Some("view_audit_logs")),
    Page("permission-audit", "/permission-audit", Some("view_audit_logs"))]

  function WorkspaceItems(): seq<NavItem> {
    seq(|WORKSPACE_PAGES|, i requires 0 <= i < |WORKSPACE_PAGES| =>
      WorkspaceItem(WORKSPACE_PAGES[i].id, WORKSPACE_PAGES[i].page, WORKSPACE_PAGES[i].permission))
  }

  function NavSections(): seq<NavSection> {
    [NavSection("tenant", 0, Always, [NavItem("workspaces", "/hub/workspaces", Some("workspaces:read"), None)]),
     NavSection("tenant-admin", 1, TenantAdministration, TenantItems()),
     NavSection("workspace", 2, InWorkspace, WorkspaceItems()),
     NavSection("platform", 3, PlatformOnly,
       [NavItem("tenants", "/admin/tenants", None, Some(["platform_admin", "platform_viewer"])),
        NavItem("celery-observability", "/admin/celery", None, Some(["platform_admin", "platform_viewer"]))])]
  }

  lemma PlainItemIsShaped(item: NavItem, s: NavSection)
    requires NoColon(item.path)
    ensures exists p: Shape :: Describes(p, item, s)
  {
    assert Describes(PlainPath(item.path), item, s);
  }

  lemma TenantPageHasNoColon(i: nat)
    requires i < |TENANT_PAGES|
    ensures NoColon(TENANT_PAGES[i].page)
  {
  }

  lemma TenantItemsAreShaped(s: NavSection)
    requires s.items == TenantItems()
    ensures WellShaped(s)
  {
    forall item | item in s.items ensures exists p: Shape :: Describes(p, item, s) {
      var i :| 0 <= i < |TenantItems()| && TenantItems()[i] == item;
      TenantPageHasNoColon(i);
      assert NoColon("/hub");
      assert Describes(TenantPath("/hub", TENANT_PAGES[i].page), item, s);
    }
  }

  lemma FirstPages()
    ensures NoColon("/onboarding") && NoColon("/overview") && NoColon("/glossary")
    ensures NoColon("/datasets") && NoColon("/flows")
  {
  }

  lemma SecondPages()
    ensures NoColon("/nl-rule-builder") && NoColon("/rules") && NoColon("/issues")
    ensures NoColon("/incidents") && NoColon("/alerts")
  {
  }

  lemma ThirdPages()
    ensures NoColon("/notification-log") && NoColon("/anomalies") && NoColon("/flow-reports")
    ensures NoColon("/quality-reports") && NoColon("/members")
  {
  }

  lemma LastPages()
    ensures NoColon("/roles") && NoColon("/settings") && NoColon("/activity-log") && NoColon("/permission-audit")
  {
  }

  lemma PageHasNoColon(i: nat)
    requires i < |WORKSPACE_PAGES|
    ensures NoColon(WORKSPACE_PAGES[i].page)
  {
    FirstPages();
    SecondPages();
    ThirdPages();
    LastPages();
  }

  lemma WorkspaceItemIsShaped(i: nat, s: NavSection)
    requires i < |WORKSPACE_PAGES| && s.visibility.InWorkspace?
    ensures Describes(WorkspacePath("/hub", "/ws/", WORKSPACE_PAGES[i].page), WorkspaceItems()[i], s)
  {
    PageHasNoColon(i);
    assert NoColon("/hub") && NoColon("/ws/");
  }

  lemma WorkspaceItemsAreShaped(s: NavSection)
    requires s.items == WorkspaceItems() && s.visibility.InWorkspace?
    ensures WellShaped(s)
  {
    forall item | item in s.items ensures exists p: Shape :: Describes(p, item, s) {
      var i :| 0 <= i < |WorkspaceItems()| && WorkspaceItems()[i] == item;
      WorkspaceItemIsShaped(i, s);
    }
  }

  /** The configured menu is of the shape the path results ask for. */
  lemma ConfiguredMenuIsWellShaped(s: NavSection)
    requires s in NavSections()
    ensures WellShaped(s)
  {
    if s.visibility.TenantAdministration? {
      TenantItemsAreShaped(s);
    } else if s.visibility.InWorkspace? {
      WorkspaceItemsAreShaped(s);
    } else {
      forall item | item in s.items ensures exists p: Shape :: Describes(p, item, s) {
        PlainItemIsShaped(item, s);
      }
    }
  }

  lemma RoleListed(v: Viewer, a: string, b: string)
    requires a != "" && b != ""
    ensures HasRole(v, {a, b}) <==> v.role == Some(a) || v.role == Some(b)
    ensures HasRole(v, {a, b}) <==> v.role.Some? && v.role != Some("") && v.role.value in [a, b]
  {
    if v.role == Some(a) || v.role == Some(b) {
      assert v.role.value in {a, b};
    }
  }

  /** Who sees the configured administration pages: tenant and platform administrators, and platform staff. */
  lemma AdministrationPages(v: Viewer, i: nat)
    requires i < |TENANT_PAGES|
    ensures MayUse(TenantItems()[i], v) <==> HasRole(v, {"tenant_admin", "platform_admin"})
    ensures forall s, item :: s in NavSections() && s.visibility.PlatformOnly? && item in s.items ==>
      (MayUse(item, v) <==> HasRole(v, {"platform_admin", "platform_viewer"}))
  {
    RoleListed(v, "tenant_admin", "platform_admin");
    RoleListed(v, "platform_admin", "platform_viewer");
  }

  /** The configured workspace pages that any member may use, and the permission each other one asks for. */
  lemma WorkspacePageGates(v: Viewer, i: nat)
    requires i < |WORKSPACE_PAGES| && v.role == None
    ensures MayUse(WorkspaceItems()[i], v) <==> i < 3 || WORKSPACE_PAGES[i].permission.GetOr("") in v.permissions
  {
  }
}
