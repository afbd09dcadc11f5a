/**
 Page visibility, decided twice.

 Listings use sets: every grant, minus the pages denied by a top-down closure over the page tree
 (`VisibleDocs`). A single-page check walks the ancestors of that page bottom-up, at most 256 hops
 (`ResourceAccess`). The theorems at the end of the module say exactly when the two agree.
 */
module Restrictions {
  import opened Wrappers
  import Text

  type Id = string

  datatype Role = Viewer | Editor | Owner

  /** The schema lets a group hold only these two roles. */
  type GroupRole = role: Role | role != Owner witness Viewer

  datatype ResourceType = DocumentResource | SiteResource

  datatype Kind = ViewKind | EditKind

  datatype Principal = UserPrincipal(user: Id) | GroupPrincipal(group: Id)

  datatype Permission = Permission(resource: ResourceType, id: Id, user: Id, role: Role)

  datatype GroupPermission = GroupPermission(resource: ResourceType, id: Id, group: Id, role: GroupRole)

  datatype Member = Member(group: Id, user: Id)

  datatype SitePage = SitePage(site: Id, page: Id)

  datatype Restriction = Restriction(page: Id, kind: Kind, principal: Principal)

  datatype ParentRow = ParentRow(site: Id, child: Id, parent: Id)

  /** One state of the tables the access queries read; `users` is in registration order. */
  datatype Tables = Tables(
    users: seq<Id>,
    documents: set<Id>,
    sites: set<Id>,
    permissions: set<Permission>,
    groupPermissions: set<GroupPermission>,
    members: set<Member>,
    sitePages: set<SitePage>,
    restrictions: set<Restriction>,
    parents: set<ParentRow>,
    adminIds: seq<Id>,
    bootstrapFirstUser: bool)

  const MAX_HOPS: nat := 256

  function Rank(role: Role): nat {
    match role
    case Owner => 3
    case Editor => 2
    case Viewer => 1
  }

  /** MAX(rank) over rows whose ranks are 1, 2 or 3; 0 stands for "no row". */
  function TopRank(ranks: set<nat>): nat {
    if 3 in ranks then 3 else if 2 in ranks then 2 else if 1 in ranks then 1 else 0
  }

  function RoleOfRank(rank: nat): Role {
    if rank == 3 then Owner else if rank == 2 then Editor else Viewer
  }

  // ---------------------------------------------------------------------------------------------
  // The set-based form used by listings
  // ---------------------------------------------------------------------------------------------

  /** `restriction_admin`: the allowlist when there is one, or else the first registered user. */
  predicate Exempt(t: Tables, user: Id) {
    if |t.adminIds| > 0 then user in t.adminIds
    else t.bootstrapFirstUser && |t.users| > 0 && t.users[0] == user
  }

  /** Ranks a user holds on a resource by name: directly, or through a group. */
  function NamedRanks(t: Tables, user: Id, resource: ResourceType, id: Id): set<nat> {
    (set p | p in t.permissions && p.resource == resource && p.id == id && p.user == user :: Rank(p.role)) +
    (set gp, m | gp in t.groupPermissions && m in t.members && gp.resource == resource && gp.id == id
                 && m.group == gp.group && m.user == user :: Rank(gp.role))
  }

  /** `visible_sites`: the rank on an existing space, 0 when it is not visible. */
  function SiteRank(t: Tables, user: Id, site: Id): nat {
    if site in t.sites then TopRank(NamedRanks(t, user, SiteResource, site)) else 0
  }

  /** `granted_docs`: grants on an existing page, and the rank of every visible space that lists it. */
  function GrantedRanks(t: Tables, user: Id, page: Id): set<nat> {
    (if page in t.documents then NamedRanks(t, user, DocumentResource, page) else {}) +
    (set sp | sp in t.sitePages && sp.page == page && SiteRank(t, user, sp.site) > 0 :: SiteRank(t, user, sp.site))
  }

  /** `restriction_allowed`: pages of which a restriction of this kind lists the user, or which they own. */
  function RestrictionAllowed(t: Tables, user: Id, kind: Kind): set<Id> {
    (set r | r in t.restrictions && r.kind == kind && r.principal == UserPrincipal(user) :: r.page) +
    (set r, m | r in t.restrictions && m in t.members && r.kind == kind
                && r.principal == GroupPrincipal(m.group) && m.user == user :: r.page) +
    (set p | p in t.permissions && p.resource == DocumentResource && p.user == user && p.role == Owner :: p.id)
  }

  function Restricted(t: Tables, kind: Kind): set<Id> {
    set r | r in t.restrictions && r.kind == kind :: r.page
  }

  /** The base case of `view_denied`. */
  function DeniedBase(t: Tables, user: Id): set<Id> {
    if Exempt(t, user) then {} else Restricted(t, ViewKind) - RestrictionAllowed(t, user, ViewKind)
  }

  /** The recursive case of `view_denied`: add the children of denied pages until nothing is new. */
  function DownwardClosure(parents: set<ParentRow>, denied: set<Id>): set<Id>
    decreases (set row | row in parents :: row.child) - denied
  {
    var next := denied + set row | row in parents && row.parent in denied :: row.child;
    if next == denied then denied
    else
      assert denied < next;
      DownwardClosure(parents, next)
  }

  function ViewDenied(t: Tables, user: Id): set<Id> {
    DownwardClosure(t.parents, DeniedBase(t, user))
  }

  function EditDenied(t: Tables, user: Id): set<Id> {
    Restricted(t, EditKind) - RestrictionAllowed(t, user, EditKind)
  }

  /** `visible_docs`: page id to rank. */
  function VisibleDocs(t: Tables, user: Id): map<Id, nat> {
    map page | page in t.documents + (set sp | sp in t.sitePages :: sp.page)
               && TopRank(GrantedRanks(t, user, page)) > 0
               && page !in ViewDenied(t, user)
      :: var rank := TopRank(GrantedRanks(t, user, page));
         if rank > 1 && !Exempt(t, user) && page in EditDenied(t, user) then 1 else rank
  }

  function ListedRole(t: Tables, user: Id, page: Id): Option<Role> {
    if page in VisibleDocs(t, user) then Some(RoleOfRank(VisibleDocs(t, user)[page])) else None
  }

  // ---------------------------------------------------------------------------------------------
  // The point form used by single-page checks
  // ---------------------------------------------------------------------------------------------

  datatype Cap = NoCap | ViewerCap | Hidden

  datatype RestrictionRow = RestrictionRow(page: Id, kind: Kind)

  /** Rows of the recursive `ancestry` query at one depth. */
  function Ancestry(parents: set<ParentRow>, page: Id, depth: nat): set<Id> {
    if depth == 0 then {page}
    else set row | row in parents && row.child in Ancestry(parents, page, depth - 1) :: row.parent
  }

  /** Every page the bounded walk reaches. */
  function WalkedAncestors(parents: set<ParentRow>, page: Id): set<Id> {
    set depth, a | 0 <= depth <= MAX_HOPS && a in Ancestry(parents, page, depth) :: a
  }

  /** The restriction rows the check loops over: view rows of any walked page, edit rows of the page itself. */
  function RestrictionRows(t: Tables, page: Id): set<RestrictionRow> {
    set r | r in t.restrictions && r.page in WalkedAncestors(t.parents, page) && (r.kind == ViewKind || r.page == page)
      :: RestrictionRow(r.page, r.kind)
  }

  /** The empty string counts as anonymous, as in the source's truthiness test. */
  predicate Known(user: Option<Id>) {
    user.Some? && user.value != ""
  }

  predicate IsWorkspaceAdmin(t: Tables, user: Id) {
    if |t.adminIds| > 0 then user in t.adminIds
    else t.bootstrapFirstUser && |t.users| > 0 && t.users[0] == user
  }

  predicate IsDirectDocumentOwner(t: Tables, user: Id, page: Id) {
    Permission(DocumentResource, page, user, Owner) in t.permissions
  }

  predicate RestrictionAllows(t: Tables, user: Id, page: Id, kind: Kind) {
    || IsDirectDocumentOwner(t, user, page)
    || Restriction(page, kind, UserPrincipal(user)) in t.restrictions
    || exists m :: m in t.members && m.user == user && Restriction(page, kind, GroupPrincipal(m.group)) in t.restrictions
  }

  predicate RowDenies(t: Tables, user: Option<Id>, row: RestrictionRow) {
    !(Known(user) && RestrictionAllows(t, user.value, row.page, row.kind))
  }

  /** What the cap means: any denying view row hides the page, or else a denying edit row caps the role. */
  function CapOf(t: Tables, user: Option<Id>, page: Id): Cap {
    if Known(user) && IsWorkspaceAdmin(t, user.value) then NoCap
    else if exists row :: row in RestrictionRows(t, page) && row.kind == ViewKind && RowDenies(t, user, row) then Hidden
    else if exists row :: row in RestrictionRows(t, page) && row.kind == EditKind && RowDenies(t, user, row) then ViewerCap
    else NoCap
  }

  method RowsOfKind(all: set<RestrictionRow>, kind: Kind) returns (rows: seq<RestrictionRow>)
    ensures forall row :: row in rows <==> row in all && row.kind == kind
  {
    rows := [];
    var left := set row | row in all && row.kind == kind;
    while left != {}
      invariant forall row :: row in rows || row in left <==> row in all && row.kind == kind
      decreases left
    {
      var row :| row in left;
      rows := rows + [row];
      left := left - {row};
    }
  }

  method DocumentRestrictionCap(t: Tables, user: Option<Id>, page: Id) returns (cap: Cap)
    ensures cap == CapOf(t, user, page)
  {
    var views := RowsOfKind(RestrictionRows(t, page), ViewKind);
    var edits := RowsOfKind(RestrictionRows(t, page), EditKind);
    var rows := views + edits;
    assert forall row :: row in rows <==> row in RestrictionRows(t, page);
    cap := NoCap;
    if |rows| == 0 {
      return;
    }
    if Known(user) && IsWorkspaceAdmin(t, user.value) {
      return;
    }
    for i := 0 to |rows|
      invariant cap != Hidden
      invariant forall j :: 0 <= j < i && rows[j].kind == ViewKind ==> !RowDenies(t, user, rows[j])
      invariant cap == ViewerCap <==> exists j :: 0 <= j < i && rows[j].kind == EditKind && RowDenies(t, user, rows[j])
    {
      if Known(user) && RestrictionAllows(t, user.value, rows[i].page, rows[i].kind) {
        continue;
      }
      if rows[i].kind == ViewKind {
        return Hidden;
      }
      cap := ViewerCap;
    }
  }

  datatype AccessRow = AccessRow(role: Role, group: Option<Id>)

  /** The UNION ALL of `resourceAccess`: grants on the resource, and on any space that lists a page. */
  function AccessRows(t: Tables, user: Id, resource: ResourceType, id: Id): set<AccessRow> {
    NamedRows(t, user, resource, id) +
    (if resource == SiteResource then {}
     else set sp, row | sp in t.sitePages && sp.page == id && row in NamedRows(t, user, SiteResource, sp.site) :: row)
  }

  function NamedRows(t: Tables, user: Id, resource: ResourceType, id: Id): set<AccessRow> {
    (set p | p in t.permissions && p.resource == resource && p.id == id && p.user == user :: AccessRow(p.role, None)) +
    (set gp, m | gp in t.groupPermissions && m in t.members && gp.resource == resource && gp.id == id
                 && m.group == gp.group && m.user == user :: AccessRow(gp.role, Some(gp.group)))
  }

  /** ORDER BY rank DESC, user rows first, then group id by code units. */
  predicate Before(a: AccessRow, b: AccessRow) {
    || Rank(a.role) > Rank(b.role)
    || (Rank(a.role) == Rank(b.role) && a.group.None? && b.group.Some?)
    || (Rank(a.role) == Rank(b.role) && a.group.Some? && b.group.Some? && Text.Less(a.group.value, b.group.value))
  }

  function RowRanks(rows: set<AccessRow>): set<nat> {
    set row | row in rows :: Rank(row.role)
  }

  function AccessRole(t: Tables, user: Id, resource: ResourceType, id: Id): Option<Role> {
    var rank := TopRank(RowRanks(AccessRows(t, user, resource, id)));
    if rank == 0 then None
    else if resource == SiteResource then Some(RoleOfRank(rank))
    else
      match CapOf(t, Some(user), id)
      case Hidden => None
      case ViewerCap => Some(Viewer)
      case NoCap => Some(RoleOfRank(rank))
  }

  lemma BeforeTransitive(a: AccessRow, b: AccessRow, c: AccessRow)
    requires Before(a, b) && Before(b, c)
    ensures Before(a, c)
  {
    if a.group.Some? && b.group.Some? && c.group.Some? && Text.Less(a.group.value, b.group.value) && Text.Less(b.group.value, c.group.value) {
      Text.LessIsTransitive(a.group.value, b.group.value, c.group.value);
    }
  }

  /** `LIMIT 1`: the first row, before which every other row does not come. */
  method FirstRow(rows: set<AccessRow>) returns (first: Option<AccessRow>)
    ensures first.None? <==> rows == {}
    ensures first.Some? ==> first.value in rows
    ensures first.Some? ==> forall row :: row in rows && row != first.value ==> Before(first.value, row)
  {
    first := None;
    var left := rows;
    while left != {}
      invariant left <= rows
      invariant first.None? <==> left == rows
      invariant first.Some? ==> first.value in rows - left
      invariant first.Some? ==> forall row :: row in rows - left && row != first.value ==> Before(first.value, row)
      decreases left
    {
      var row :| row in left;
      if first.None? || Before(row, first.value) {
        if first.Some? {
          forall other | other in rows - left && other != first.value
            ensures Before(row, other)
          {
            BeforeTransitive(row, first.value, other);
          }
        }
        first := Some(row);
      } else if first.value.group.Some? && row.group.Some? {
        Text.AtMostIsTotal(first.value.group.value, row.group.value);
      }
      left := left - {row};
    }
  }

  datatype AccessGrant = AccessGrant(role: Role, group: Option<Id>)

  method ResourceAccess(t: Tables, user: Id, resource: ResourceType, id: Id) returns (grant: Option<AccessGrant>)
    ensures (if grant.Some? then Some(grant.value.role) else None) == AccessRole(t, user, resource, id)
    ensures grant.Some? ==>
      exists row :: row in AccessRows(t, user, resource, id) && row.group == grant.value.group
        && forall other :: other in AccessRows(t, user, resource, id) && other != row ==> Before(row, other)
  {
    var rows := AccessRows(t, user, resource, id);
    var first := FirstRow(rows);
    if first.None? {
      return None;
    }
    var row := first.value;
    assert Rank(row.role) in RowRanks(rows);
    assert forall rank :: rank in RowRanks(rows) ==> rank <= Rank(row.role);
    var cap := NoCap;
    if resource == DocumentResource {
      cap := DocumentRestrictionCap(t, Some(user), id);
    }
    if cap == Hidden {
      return None;
    }
    return Some(AccessGrant(if cap == ViewerCap then Viewer else row.role, row.group));
  }

  // ---------------------------------------------------------------------------------------------
  // The closure is upward reachability
  // ---------------------------------------------------------------------------------------------

  ghost predicate Ancestor(parents: set<ParentRow>, page: Id, a: Id) {
    exists depth: nat :: a in Ancestry(parents, page, depth)
  }

  /** A page that denies `user` lies at or above `page`, however far up. */
  ghost predicate DeniedAbove(t: Tables, user: Id, page: Id) {
    exists a :: a in DeniedBase(t, user) && Ancestor(t.parents, page, a)
  }

  /** ... within the hops the point check walks. */
  predicate DeniedWithinHops(t: Tables, user: Id, page: Id) {
    exists a :: a in DeniedBase(t, user) && a in WalkedAncestors(t.parents, page)
  }

  lemma {:induction false} ClosureKeepsBase(parents: set<ParentRow>, denied: set<Id>)
    ensures denied <= DownwardClosure(parents, denied)
    ensures forall row :: row in parents && row.parent in DownwardClosure(parents, denied) ==> row.child in DownwardClosure(parents, denied)
    decreases (set row | row in parents :: row.child) - denied
  {
    var next := denied + set row | row in parents && row.parent in denied :: row.child;
    if next == denied {
      forall row | row in parents && row.parent in denied
        ensures row.child in denied
      {
        assert row.child in next;
      }
    } else {
      assert denied < next;
      ClosureKeepsBase(parents, next);
    }
  }

  /** Everything in the closure sits below a member of the base. */
  lemma {:induction false} ClosureIsBelowBase(parents: set<ParentRow>, denied: set<Id>, page: Id)
    requires page in DownwardClosure(parents, denied)
    ensures exists a :: a in denied && Ancestor(parents, page, a)
    decreases (set row | row in parents :: row.child) - denied
  {
    var next := denied + set row | row in parents && row.parent in denied :: row.child;
    if next == denied {
      assert page in Ancestry(parents, page, 0);
    } else {
      assert denied < next;
      ClosureIsBelowBase(parents, next, page);
      var b :| b in next && Ancestor(parents, page, b);
      if b !in denied {
        var row :| row in parents && row.parent in denied && row.child == b;
        var depth: nat :| b in Ancestry(parents, page, depth);
        assert row.parent in Ancestry(parents, page, depth + 1);
      }
    }
  }

  /** A page with a closure member above it is in the closure. */
  lemma {:induction false} BelowClosureIsInClosure(parents: set<ParentRow>, denied: set<Id>, page: Id, a: Id, depth: nat)
    requires a in Ancestry(parents, page, depth) && a in DownwardClosure(parents, denied)
    ensures page in DownwardClosure(parents, denied)
    decreases depth
  {
    if depth == 0 {
    } else {
      ClosureKeepsBase(parents, denied);
      var row :| row in parents && row.child in Ancestry(parents, page, depth - 1) && row.parent == a;
      BelowClosureIsInClosure(parents, denied, page, row.child, depth - 1);
    }
  }

  /** The recursive query computes reachability: over any page graph, cyclic or not. */
  lemma ViewDeniedIsReachability(t: Tables, user: Id, page: Id)
    ensures page in ViewDenied(t, user) <==> DeniedAbove(t, user, page)
  {
    var base := DeniedBase(t, user);
    if page in ViewDenied(t, user) {
      ClosureIsBelowBase(t.parents, base, page);
    }
    if DeniedAbove(t, user, page) {
      var a :| a in base && Ancestor(t.parents, page, a);
      var depth: nat :| a in Ancestry(t.parents, page, depth);
      ClosureKeepsBase(t.parents, base);
      BelowClosureIsInClosure(t.parents, base, page, a, depth);
    }
  }

  lemma AllowedTwice(t: Tables, user: Id, page: Id, kind: Kind)
    ensures page in RestrictionAllowed(t, user, kind) <==> RestrictionAllows(t, user, page, kind)
  {
    if page in RestrictionAllowed(t, user, kind) {
      if r :| r in t.restrictions && r.kind == kind && r.principal == UserPrincipal(user) && r.page == page {
        assert r == Restriction(page, kind, UserPrincipal(user));
      } else if r, m :| r in t.restrictions && m in t.members && r.kind == kind
                        && r.principal == GroupPrincipal(m.group) && m.user == user && r.page == page {
        assert r == Restriction(page, kind, GroupPrincipal(m.group));
      } else {
        var p :| p in t.permissions && p.resource == DocumentResource && p.user == user && p.role == Owner && p.id == page;
        assert p == Permission(DocumentResource, page, user, Owner);
      }
    }
  }

  /** The bounded walk hides a page exactly when a denying page lies within its hops. */
  lemma CapMeansDeniedWithinHops(t: Tables, user: Id, page: Id)
    requires user != ""
    ensures CapOf(t, Some(user), page) == Hidden <==> DeniedWithinHops(t, user, page)
    ensures CapOf(t, Some(user), page) == ViewerCap <==>
      !Exempt(t, user) && !DeniedWithinHops(t, user, page) && page in EditDenied(t, user)
  {
    forall p, kind
      ensures p in RestrictionAllowed(t, user, kind) <==> RestrictionAllows(t, user, p, kind)
    {
      AllowedTwice(t, user, p, kind);
    }
    assert page in WalkedAncestors(t.parents, page) by {
      assert page in Ancestry(t.parents, page, 0);
    }
    if !Exempt(t, user) {
      if row :| row in RestrictionRows(t, page) && row.kind == ViewKind && RowDenies(t, Some(user), row) {
        assert row.page in DeniedBase(t, user);
      }
      if DeniedWithinHops(t, user, page) {
        var a :| a in DeniedBase(t, user) && a in WalkedAncestors(t.parents, page);
        var row := RestrictionRow(a, ViewKind);
        assert row in RestrictionRows(t, page) && RowDenies(t, Some(user), row);
      }
      if page in EditDenied(t, user) {
        var row := RestrictionRow(page, EditKind);
        assert row in RestrictionRows(t, page) && RowDenies(t, Some(user), row);
      }
    }
  }

  // ---------------------------------------------------------------------------------------------
  // Grants
  // ---------------------------------------------------------------------------------------------

  /** Every grant names an existing record: the tables as the writers leave them. */
  predicate GrantsLive(t: Tables) {
    && (forall p :: p in t.permissions ==> p.id in (if p.resource == DocumentResource then t.documents else t.sites))
    && (forall gp :: gp in t.groupPermissions ==> gp.id in (if gp.resource == DocumentResource then t.documents else t.sites))
  }

  lemma NamedRanksMatch(t: Tables, user: Id, resource: ResourceType, id: Id)
    ensures RowRanks(NamedRows(t, user, resource, id)) == NamedRanks(t, user, resource, id)
    ensures forall rank :: rank in NamedRanks(t, user, resource, id) ==> 1 <= rank <= 3
  {
    var rows, ranks := NamedRows(t, user, resource, id), NamedRanks(t, user, resource, id);
    forall rank | rank in ranks
      ensures rank in RowRanks(rows) && 1 <= rank <= 3
    {
      if p :| p in t.permissions && p.resource == resource && p.id == id && p.user == user && Rank(p.role) == rank {
        assert AccessRow(p.role, None) in rows;
      } else {
        var gp, m :| gp in t.groupPermissions && m in t.members && gp.resource == resource && gp.id == id
                     && m.group == gp.group && m.user == user && Rank(gp.role) == rank;
        assert AccessRow(gp.role, Some(gp.group)) in rows;
      }
    }
    forall row | row in rows
      ensures Rank(row.role) in ranks
    {
      NamedRowHasRank(t, user, resource, id, row);
    }
  }

  lemma NamedRowHasRank(t: Tables, user: Id, resource: ResourceType, id: Id, row: AccessRow)
    requires row in NamedRows(t, user, resource, id)
    ensures Rank(row.role) in NamedRanks(t, user, resource, id)
  {
    if row.group.None? {
      var p :| p in t.permissions && p.resource == resource && p.id == id && p.user == user && p.role == row.role;
      assert Rank(p.role) == Rank(row.role);
    } else {
      var gp, m :| gp in t.groupPermissions && m in t.members && gp.resource == resource && gp.id == id
                   && m.group == gp.group && m.user == user && gp.role == row.role;
      assert Rank(gp.role) == Rank(row.role);
    }
  }

  /** A live grant's rank is one of the point check's ranks. */
  lemma ListedRankIsPointRank(t: Tables, user: Id, page: Id, rank: nat)
    requires rank in GrantedRanks(t, user, page)
    ensures rank in RowRanks(AccessRows(t, user, DocumentResource, page))
  {
    NamedRanksMatch(t, user, DocumentResource, page);
    if rank !in NamedRanks(t, user, DocumentResource, page) {
      var sp :| sp in t.sitePages && sp.page == page && SiteRank(t, user, sp.site) == rank && rank > 0;
      NamedRanksMatch(t, user, SiteResource, sp.site);
      var row :| row in NamedRows(t, user, SiteResource, sp.site) && Rank(row.role) == rank;
      assert row in AccessRows(t, user, DocumentResource, page);
    } else {
      var row :| row in NamedRows(t, user, DocumentResource, page) && Rank(row.role) == rank;
      assert row in AccessRows(t, user, DocumentResource, page);
    }
  }

  /** When grants are live, the listing has a rank at least as high as any of the point check's. */
  lemma PointRankIsListed(t: Tables, user: Id, page: Id, rank: nat) returns (more: nat)
    requires GrantsLive(t) && rank in RowRanks(AccessRows(t, user, DocumentResource, page))
    ensures more in GrantedRanks(t, user, page) && 1 <= rank <= more <= 3
  {
    var row :| row in AccessRows(t, user, DocumentResource, page) && Rank(row.role) == rank;
    if row in NamedRows(t, user, DocumentResource, page) {
      PageRankIsListed(t, user, page, row);
      more := rank;
    } else {
      var sp :| sp in t.sitePages && sp.page == page && row in NamedRows(t, user, SiteResource, sp.site);
      SiteRankIsListed(t, user, sp, row);
      more := SiteRank(t, user, sp.site);
    }
  }

  lemma PageRankIsListed(t: Tables, user: Id, page: Id, row: AccessRow)
    requires GrantsLive(t) && row in NamedRows(t, user, DocumentResource, page)
    ensures Rank(row.role) in GrantedRanks(t, user, page)
  {
    NamedRowHasRank(t, user, DocumentResource, page, row);
  }

  lemma SiteRankIsListed(t: Tables, user: Id, sp: SitePage, row: AccessRow)
    requires GrantsLive(t) && sp in t.sitePages && row in NamedRows(t, user, SiteResource, sp.site)
    ensures Rank(row.role) <= SiteRank(t, user, sp.site) <= 3 && SiteRank(t, user, sp.site) in GrantedRanks(t, user, sp.page)
  {
    NamedRowHasRank(t, user, SiteResource, sp.site, row);
  }

  lemma SameTop(a: set<nat>, b: set<nat>)
    requires a <= b && forall rank :: rank in b ==> 1 <= rank <= 3 && exists more :: more in a && rank <= more
    ensures TopRank(a) == TopRank(b)
  {
  }

  /** The maximum of the spaces' maxima is the maximum of all rows. */
  lemma GrantedRankMatches(t: Tables, user: Id, page: Id)
    requires GrantsLive(t)
    ensures TopRank(GrantedRanks(t, user, page)) == TopRank(RowRanks(AccessRows(t, user, DocumentResource, page)))
  {
    var listed, point := GrantedRanks(t, user, page), RowRanks(AccessRows(t, user, DocumentResource, page));
    forall rank | rank in listed
      ensures rank in point
    {
      ListedRankIsPointRank(t, user, page, rank);
    }
    forall rank | rank in point
      ensures 1 <= rank <= 3 && exists more :: more in listed && rank <= more
    {
      var more := PointRankIsListed(t, user, page, rank);
    }
    SameTop(listed, point);
  }

  // ---------------------------------------------------------------------------------------------
  // Agreement
  // ---------------------------------------------------------------------------------------------

  predicate Granted(t: Tables, user: Id, page: Id) {
    TopRank(GrantedRanks(t, user, page)) > 0
  }

  function ListedTop(t: Tables, user: Id, page: Id): nat {
    TopRank(GrantedRanks(t, user, page))
  }

  function PointTop(t: Tables, user: Id, page: Id): nat {
    TopRank(RowRanks(AccessRows(t, user, DocumentResource, page)))
  }

  /** When listing and point check agree: below a denial the walk sees, always; below one it does not see, only without a grant;
      elsewhere, when both see the same top rank, or when an edit restriction levels two different ones. */
  ghost predicate SameVerdict(t: Tables, user: Id, page: Id) {
    if DeniedWithinHops(t, user, page) then true
    else if DeniedAbove(t, user, page) then PointTop(t, user, page) == 0
    else
      || ListedTop(t, user, page) == PointTop(t, user, page)
      || (!Exempt(t, user) && page in EditDenied(t, user) && ListedTop(t, user, page) > 0 && PointTop(t, user, page) > 0)
  }

  /** The listing's role in terms of its top rank. */
  lemma ListedRoleByRank(t: Tables, user: Id, page: Id)
    ensures var l := ListedTop(t, user, page);
      ListedRole(t, user, page) ==
        if l == 0 || DeniedAbove(t, user, page) then None
        else Some(RoleOfRank(if !Exempt(t, user) && page in EditDenied(t, user) then 1 else l))
  {
    ViewDeniedIsReachability(t, user, page);
    if Granted(t, user, page) {
      GrantedPageIsCandidate(t, user, page);
    }
  }

  /** The point check's role in terms of its top rank. */
  lemma PointRoleByRank(t: Tables, user: Id, page: Id)
    requires user != ""
    ensures var p := PointTop(t, user, page);
      AccessRole(t, user, DocumentResource, page) ==
        if p == 0 || DeniedWithinHops(t, user, page) then None
        else Some(RoleOfRank(if !Exempt(t, user) && page in EditDenied(t, user) then 1 else p))
  {
    CapMeansDeniedWithinHops(t, user, page);
  }

  /** For every table state, user and page, with or without grants on missing records. */
  lemma FormsAgreeExactly(t: Tables, user: Id, page: Id)
    requires user != ""
    ensures ListedRole(t, user, page) == AccessRole(t, user, DocumentResource, page) <==> SameVerdict(t, user, page)
  {
    ListedRoleByRank(t, user, page);
    PointRoleByRank(t, user, page);
    WithinHopsIsAbove(t, user, page);
    ListedTopIsPointTop(t, user, page);
  }

  /** The listing never ranks a grant the point check does not see. */
  lemma ListedTopIsPointTop(t: Tables, user: Id, page: Id)
    ensures ListedTop(t, user, page) <= PointTop(t, user, page) <= 3
  {
    forall rank | rank in GrantedRanks(t, user, page)
      ensures rank in RowRanks(AccessRows(t, user, DocumentResource, page))
    {
      ListedRankIsPointRank(t, user, page, rank);
    }
  }

  /** The guard that fails: a granted page whose only denying pages lie beyond the walk. */
  ghost predicate DeniedOnlyBeyondHops(t: Tables, user: Id, page: Id) {
    Granted(t, user, page) && DeniedAbove(t, user, page) && !DeniedWithinHops(t, user, page)
  }

  /** For every table state with live grants, every user and page: the two forms agree, role included, unless the walk stops too early. */
  lemma ListingAgreesWithPointCheck(t: Tables, user: Id, page: Id)
    requires user != "" && GrantsLive(t)
    ensures ListedRole(t, user, page) == AccessRole(t, user, DocumentResource, page)
      <==> !DeniedOnlyBeyondHops(t, user, page)
  {
    GrantedRankMatches(t, user, page);
    FormsAgreeExactly(t, user, page);
  }

  /** Some page of this kind of restriction lies within the hops, whoever it lists. */
  predicate RestrictedWithinHops(t: Tables, page: Id) {
    exists r :: r in t.restrictions && r.kind == ViewKind && r.page in WalkedAncestors(t.parents, page)
  }

  /** Whoever has no user id (a share link, a signed address, a webhook; the empty id too) is admitted by no restriction: any view
      restriction on a walked ancestor hides the page, or else an edit restriction of its own makes it read-only. */
  lemma UnknownUserCap(t: Tables, user: Option<Id>, page: Id)
    requires user.None? || user.value == ""
    ensures CapOf(t, user, page) ==
      if RestrictedWithinHops(t, page) then Hidden else if page in Restricted(t, EditKind) then ViewerCap else NoCap
  {
    assert page in WalkedAncestors(t.parents, page) by {
      assert page in Ancestry(t.parents, page, 0);
    }
    if r :| r in t.restrictions && r.kind == ViewKind && r.page in WalkedAncestors(t.parents, page) {
      assert RestrictionRow(r.page, ViewKind) in RestrictionRows(t, page);
    } else if page in Restricted(t, EditKind) {
      assert RestrictionRow(page, EditKind) in RestrictionRows(t, page);
    }
  }

  /** For the empty user id, which the listing takes for a user like any other. */
  lemma EmptyUserAgreesExactly(t: Tables, page: Id)
    requires GrantsLive(t)
    ensures ListedRole(t, "", page) == AccessRole(t, "", DocumentResource, page) <==>
      || !Granted(t, "", page)
      || (DeniedAbove(t, "", page) && RestrictedWithinHops(t, page))
      || (!DeniedAbove(t, "", page) && !RestrictedWithinHops(t, page)
          && (ListedTop(t, "", page) == 1 || page !in Restricted(t, EditKind) || (!Exempt(t, "") && page in EditDenied(t, ""))))
  {
    GrantedRankMatches(t, "", page);
    ListedRoleByRank(t, "", page);
    UnknownUserCap(t, Some(""), page);
  }

  lemma WithinHopsIsAbove(t: Tables, user: Id, page: Id)
    ensures DeniedWithinHops(t, user, page) ==> DeniedAbove(t, user, page)
  {
  }

  lemma GrantedPageIsCandidate(t: Tables, user: Id, page: Id)
    requires Granted(t, user, page)
    ensures page in t.documents + (set sp | sp in t.sitePages :: sp.page)
  {
  }

  /** Every ancestor of the page lies within the hops the point check walks. */
  ghost predicate ShallowTree(parents: set<ParentRow>, page: Id) {
    forall a :: Ancestor(parents, page, a) ==> a in WalkedAncestors(parents, page)
  }

  /** On a page graph whose ancestors lie within 256 hops, cyclic or not, listing and check always agree. */
  lemma ShallowTreesAgree(t: Tables, user: Id, page: Id)
    requires user != "" && GrantsLive(t) && ShallowTree(t.parents, page)
    ensures ListedRole(t, user, page) == AccessRole(t, user, DocumentResource, page)
  {
    ListingAgreesWithPointCheck(t, user, page);
    if DeniedAbove(t, user, page) {
      var a :| a in DeniedBase(t, user) && Ancestor(t.parents, page, a);
      assert a in WalkedAncestors(t.parents, page);
    }
  }

  /** The hop bound is necessary: a restriction on an ancestor beyond it separates the two forms. */
  lemma DeepTreesDisagree(t: Tables, user: Id, page: Id, a: Id)
    requires user != "" && GrantsLive(t) && Granted(t, user, page) && !Exempt(t, user)
    requires Ancestor(t.parents, page, a) && a !in WalkedAncestors(t.parents, page)
    requires !IsDirectDocumentOwner(t, user, a)
    ensures var t' := t.(restrictions := {Restriction(a, ViewKind, UserPrincipal(user + "*"))});
      ListedRole(t', user, page) == None && AccessRole(t', user, DocumentResource, page).Some?
  {
    var r := Restriction(a, ViewKind, UserPrincipal(user + "*"));
    var t' := t.(restrictions := {r});
    SameGrants(t, t', user, page);
    AllowedTwice(t', user, a, ViewKind);
    assert user + "*" != user;
    assert DeniedBase(t', user) == {a} by {
      assert r in t'.restrictions;
    }
    ViewDeniedIsReachability(t', user, page);
    CapMeansDeniedWithinHops(t', user, page);
    GrantedRankMatches(t', user, page);
  }

  lemma SameGrants(t: Tables, t': Tables, user: Id, page: Id)
    requires t' == t.(restrictions := t'.restrictions)
    ensures GrantedRanks(t', user, page) == GrantedRanks(t, user, page)
  {
  }

  // ---------------------------------------------------------------------------------------------
  // Witnesses for the conditions above
  // ---------------------------------------------------------------------------------------------

  function ChainPage(i: nat): Id {
    seq(i + 1, _ => 'p')
  }

  function Link(i: nat): ParentRow {
    ParentRow("space", ChainPage(i), ChainPage(i + 1))
  }

  function Chain(n: nat): set<ParentRow> {
    set i: nat | i < n :: Link(i)
  }

  lemma {:induction false} ChainAncestry(n: nat, depth: nat)
    ensures Ancestry(Chain(n), ChainPage(0), depth) == if depth <= n then {ChainPage(depth)} else {}
  {
    if depth == 0 {
    } else {
      ChainAncestry(n, depth - 1);
      if depth <= n {
        var row := Link(depth - 1);
        assert row in Chain(n);
        assert row.child in Ancestry(Chain(n), ChainPage(0), depth - 1);
      }
      forall row | row in Chain(n) && row.child in Ancestry(Chain(n), ChainPage(0), depth - 1)
        ensures depth <= n && row.parent == ChainPage(depth)
      {
        var i: nat :| i < n && row == Link(i);
        assert |ChainPage(i)| == i + 1;
      }
    }
  }

  function ChainTables(): Tables {
    var leaf := ChainPage(0);
    Tables([], {leaf}, {}, {Permission(DocumentResource, leaf, "ada", Editor)}, {}, {}, {}, {}, Chain(MAX_HOPS + 1), ["root"], false)
  }

  lemma ChainRootIsOutOfReach()
    ensures Ancestor(ChainTables().parents, ChainPage(0), ChainPage(MAX_HOPS + 1))
    ensures ChainPage(MAX_HOPS + 1) !in WalkedAncestors(ChainTables().parents, ChainPage(0))
  {
    var n := MAX_HOPS + 1;
    var leaf, root := ChainPage(0), ChainPage(n);
    ChainAncestry(n, n);
    assert root in Ancestry(Chain(n), leaf, n);
    forall depth: nat | depth <= MAX_HOPS
      ensures root !in Ancestry(Chain(n), leaf, depth)
    {
      ChainAncestry(n, depth);
      assert |ChainPage(depth)| == depth + 1 && |root| == n + 1;
    }
  }

  /** A chain of 258 pages restricted at its root: the listing hides the leaf, the point check shows it. */
  lemma DeepChainWitness()
    ensures var t := ChainTables().(restrictions := {Restriction(ChainPage(MAX_HOPS + 1), ViewKind, UserPrincipal("ada*"))});
      ListedRole(t, "ada", ChainPage(0)) == None && AccessRole(t, "ada", DocumentResource, ChainPage(0)).Some?
  {
    var t, leaf, root := ChainTables(), ChainPage(0), ChainPage(MAX_HOPS + 1);
    ChainRootIsOutOfReach();
    var grant := Permission(DocumentResource, leaf, "ada", Editor);
    assert grant in t.permissions;
    assert Rank(grant.role) in NamedRanks(t, "ada", DocumentResource, leaf);
    assert |leaf| == 1 && |root| == MAX_HOPS + 2;
    assert "ada" + "*" == "ada*";
    DeepTreesDisagree(t, "ada", leaf, root);
  }

  /** A grant on a page that is not in the table: not listed, yet granted by the point check. */
  lemma DanglingGrantWitness()
    ensures var t := Tables([], {}, {}, {Permission(DocumentResource, "gone", "ada", Viewer)}, {}, {}, {}, {}, {}, [], false);
      ListedRole(t, "ada", "gone") == None && AccessRole(t, "ada", DocumentResource, "gone") == Some(Viewer)
  {
    var grant := Permission(DocumentResource, "gone", "ada", Viewer);
    var t := Tables([], {}, {}, {grant}, {}, {}, {}, {}, {}, [], false);
    NamedRanksMatch(t, "ada", DocumentResource, "gone");
    assert AccessRow(grant.role, None) in NamedRows(t, "ada", DocumentResource, "gone");
    assert AccessRow(grant.role, None) in AccessRows(t, "ada", DocumentResource, "gone");
    assert RowRanks(AccessRows(t, "ada", DocumentResource, "gone")) == {1};
    assert GrantedRanks(t, "ada", "gone") == {};
    assert RestrictionRows(t, "gone") == {};
  }

  /** The empty user id: an allowlisted admin in the listing, anonymous in the point check. */
  lemma EmptyUserWitness()
    ensures var t := Tables([], {"page"}, {}, {Permission(DocumentResource, "page", "", Viewer)}, {}, {}, {},
                            {Restriction("page", ViewKind, UserPrincipal("ada"))}, {}, [""], false);
      ListedRole(t, "", "page") != AccessRole(t, "", DocumentResource, "page")
  {
    var grant := Permission(DocumentResource, "page", "", Viewer);
    var r := Restriction("page", ViewKind, UserPrincipal("ada"));
    var t := Tables([], {"page"}, {}, {grant}, {}, {}, {}, {r}, {}, [""], false);
    assert grant in t.permissions;
    assert Rank(grant.role) in NamedRanks(t, "", DocumentResource, "page");
    assert "page" in Ancestry(t.parents, "page", 0);
    assert r in t.restrictions;
    EmptyUserAgreesExactly(t, "page");
  }
}
