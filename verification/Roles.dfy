/** What the roles of both access forms are, in terms of the grants themselves. */
module Roles {
  import opened Wrappers
  import opened Restrictions
  import Text

  // ---------------------------------------------------------------------------------------------
  // Grants
  // ---------------------------------------------------------------------------------------------

  /** A permission row of the user's own, or one of a group the user is in. */
  ghost predicate Holds(t: Tables, user: Id, resource: ResourceType, id: Id, role: Role) {
    || Permission(resource, id, user, role) in t.permissions
    || exists gp, m :: gp in t.groupPermissions && m in t.members && HoldsThrough(gp, m, user, resource, id, role)
  }

  predicate HoldsThrough(gp: GroupPermission, m: Member, user: Id, resource: ResourceType, id: Id, role: Role) {
    gp.resource == resource && gp.id == id && gp.role == role && m == Member(gp.group, user)
  }

  /** Viewer, editor, owner. */
  predicate AtMost(a: Role, b: Role) {
    a == Viewer || a == b || b == Owner
  }

  /** The best of the roles that are granted. */
  ghost predicate Best(granted: Role -> bool, role: Option<Role>) {
    if role.Some? then granted(role.value) && forall r :: granted(r) ==> AtMost(r, role.value)
    else forall r :: !granted(r)
  }

  lemma RankOrder(a: Role, b: Role)
    ensures Rank(a) <= Rank(b) <==> AtMost(a, b)
    ensures 1 <= Rank(a) <= 3 && RoleOfRank(Rank(a)) == a
  {
  }

  /** Rows and the grants they come from. */
  lemma RowsAreGrants(t: Tables, user: Id, resource: ResourceType, id: Id, role: Role)
    ensures (exists row :: row in NamedRows(t, user, resource, id) && row.role == role) <==> Holds(t, user, resource, id, role)
  {
    if row :| row in NamedRows(t, user, resource, id) && row.role == role {
      if row.group.None? {
        var p :| p in t.permissions && p.resource == resource && p.id == id && p.user == user && row == AccessRow(p.role, None);
        assert p == Permission(resource, id, user, role);
      } else {
        var gp, m :| gp in t.groupPermissions && m in t.members && gp.resource == resource && gp.id == id
                     && m.group == gp.group && m.user == user && row == AccessRow(gp.role, Some(gp.group));
        assert HoldsThrough(gp, m, user, resource, id, role);
      }
    }
    if Permission(resource, id, user, role) in t.permissions {
      assert AccessRow(role, None) in NamedRows(t, user, resource, id);
    } else if gp, m :| gp in t.groupPermissions && m in t.members && HoldsThrough(gp, m, user, resource, id, role) {
      assert AccessRow(gp.role, Some(gp.group)) in NamedRows(t, user, resource, id);
    }
  }

  /** The top rank of a set of rows belongs to the best role among them. */
  lemma TopIsBest(rows: set<AccessRow>, role: Option<Role>, granted: Role -> bool)
    requires forall r :: granted(r) <==> exists row :: row in rows && row.role == r
    requires var rank := TopRank(RowRanks(rows)); role == if rank == 0 then None else Some(RoleOfRank(rank))
    ensures Best(granted, role)
  {
    forall row | row in rows
      ensures Rank(row.role) in RowRanks(rows)
    {
    }
    forall r | granted(r)
      ensures Rank(r) in RowRanks(rows)
    {
      var row :| row in rows && row.role == r;
    }
    forall r: Role
      ensures 1 <= Rank(r) <= 3 && RoleOfRank(Rank(r)) == r
    {
      RankOrder(r, r);
    }
  }

  // ---------------------------------------------------------------------------------------------
  // The single check
  // ---------------------------------------------------------------------------------------------

  /** On a space the check gives the best role granted on it by name, and no restriction touches it. */
  lemma SpaceRoleIsBestGrant(t: Tables, user: Id, site: Id)
    ensures Best(role => Holds(t, user, SiteResource, site, role), AccessRole(t, user, SiteResource, site))
  {
    forall role: Role
      ensures (exists row :: row in AccessRows(t, user, SiteResource, site) && row.role == role) <==> Holds(t, user, SiteResource, site, role)
    {
      RowsAreGrants(t, user, SiteResource, site, role);
      assert AccessRows(t, user, SiteResource, site) == NamedRows(t, user, SiteResource, site);
    }
    TopIsBest(AccessRows(t, user, SiteResource, site), AccessRole(t, user, SiteResource, site), role => Holds(t, user, SiteResource, site, role));
  }

  /** Granted on the page, or on a space that lists it. */
  ghost predicate HoldsPage(t: Tables, user: Id, page: Id, role: Role) {
    Holds(t, user, DocumentResource, page, role) || exists sp :: sp in t.sitePages && sp.page == page && Holds(t, user, SiteResource, sp.site, role)
  }

  lemma PageRowsAreGrants(t: Tables, user: Id, page: Id, role: Role)
    ensures (exists row :: row in AccessRows(t, user, DocumentResource, page) && row.role == role) <==> HoldsPage(t, user, page, role)
  {
    var rows := AccessRows(t, user, DocumentResource, page);
    RowsAreGrants(t, user, DocumentResource, page, role);
    forall sp | sp in t.sitePages && sp.page == page
      ensures (exists row :: row in NamedRows(t, user, SiteResource, sp.site) && row.role == role) <==> Holds(t, user, SiteResource, sp.site, role)
    {
      RowsAreGrants(t, user, SiteResource, sp.site, role);
    }
    if Holds(t, user, DocumentResource, page, role) {
      var row :| row in NamedRows(t, user, DocumentResource, page) && row.role == role;
      assert row in rows;
    } else if sp :| sp in t.sitePages && sp.page == page && Holds(t, user, SiteResource, sp.site, role) {
      var row :| row in NamedRows(t, user, SiteResource, sp.site) && row.role == role;
      assert row in rows;
    }
  }

  /** On a page the check gives nothing below a hiding restriction, viewing below an edit restriction to whoever was granted anything,
      and otherwise the best role granted on the page or on a space that lists it. */
  lemma PageRoleIsBestGrant(t: Tables, user: Id, page: Id)
    ensures var role, cap := AccessRole(t, user, DocumentResource, page), CapOf(t, Some(user), page);
      match cap
      case Hidden => role == None
      case ViewerCap => role == if exists r :: HoldsPage(t, user, page, r) then Some(Viewer) else None
      case NoCap => Best(r => HoldsPage(t, user, page, r), role)
  {
    var rows := AccessRows(t, user, DocumentResource, page);
    var rank := TopRank(RowRanks(rows));
    var best := if rank == 0 then None else Some(RoleOfRank(rank));
    forall role: Role
      ensures (exists row :: row in rows && row.role == role) <==> HoldsPage(t, user, page, role)
    {
      PageRowsAreGrants(t, user, page, role);
    }
    TopIsBest(rows, best, role => HoldsPage(t, user, page, role));
  }

  /** The grant that is named with the role: a row of the user's own if one gives the top role, or else the group first by code units. */
  lemma FirstGrantIsNamed(rows: set<AccessRow>, first: AccessRow)
    requires first in rows && forall row :: row in rows && row != first ==> Before(first, row)
    ensures forall row :: row in rows ==> AtMost(row.role, first.role)
    ensures first.group.None? <==> AccessRow(first.role, None) in rows
    ensures first.group.Some? ==>
      forall row :: row in rows && row.role == first.role ==> row.group.Some? && Text.AtMost(first.group.value, row.group.value)
  {
    forall row | row in rows
      ensures AtMost(row.role, first.role)
    {
      RankOrder(row.role, first.role);
    }
    if first.group.Some? {
      Text.AtMostIsTotal(first.group.value, first.group.value);
    }
  }

  // ---------------------------------------------------------------------------------------------
  // The listing
  // ---------------------------------------------------------------------------------------------

  /** Granted on a page that exists, or on a space that exists and lists it. */
  ghost predicate HoldsLive(t: Tables, user: Id, page: Id, role: Role) {
    || (page in t.documents && Holds(t, user, DocumentResource, page, role))
    || exists sp :: sp in t.sitePages && sp.page == page && sp.site in t.sites && Holds(t, user, SiteResource, sp.site, role)
  }

  lemma RanksAreGrants(t: Tables, user: Id, resource: ResourceType, id: Id, role: Role)
    ensures Rank(role) in NamedRanks(t, user, resource, id) <==> Holds(t, user, resource, id, role)
  {
    forall r: Role
      ensures Rank(r) == Rank(role) ==> r == role
    {
      RankOrder(r, role);
      RankOrder(role, r);
    }
    if Rank(role) in NamedRanks(t, user, resource, id) {
      if p :| p in t.permissions && p.resource == resource && p.id == id && p.user == user && Rank(p.role) == Rank(role) {
        assert p == Permission(resource, id, user, role);
      } else {
        var gp, m :| gp in t.groupPermissions && m in t.members && gp.resource == resource && gp.id == id
                     && m.group == gp.group && m.user == user && Rank(gp.role) == Rank(role);
        assert HoldsThrough(gp, m, user, resource, id, role);
      }
    }
    if gp, m :| gp in t.groupPermissions && m in t.members && HoldsThrough(gp, m, user, resource, id, role) {
      assert Rank(gp.role) in NamedRanks(t, user, resource, id);
    }
  }

  /** A space's rank is that of the best role granted on it, and 0 when it does not exist or nothing is. */
  lemma SpaceRankIsBest(t: Tables, user: Id, site: Id)
    ensures var rank := SiteRank(t, user, site);
      Best(role => site in t.sites && Holds(t, user, SiteResource, site, role), if rank == 0 then None else Some(RoleOfRank(rank)))
    ensures 0 <= SiteRank(t, user, site) <= 3
  {
    forall role: Role
      ensures Rank(role) in NamedRanks(t, user, SiteResource, site) <==> Holds(t, user, SiteResource, site, role)
      ensures 1 <= Rank(role) <= 3 && RoleOfRank(Rank(role)) == role
    {
      RanksAreGrants(t, user, SiteResource, site, role);
      RankOrder(role, role);
    }
    assert Rank(Viewer) == 1 && Rank(Editor) == 2 && Rank(Owner) == 3;
  }

  lemma GrantIsListed(t: Tables, user: Id, page: Id, role: Role)
    requires HoldsLive(t, user, page, role)
    ensures exists rank :: rank in GrantedRanks(t, user, page) && Rank(role) <= rank
  {
    if page in t.documents && Holds(t, user, DocumentResource, page, role) {
      RanksAreGrants(t, user, DocumentResource, page, role);
      assert Rank(role) in GrantedRanks(t, user, page);
    } else {
      var sp :| sp in t.sitePages && sp.page == page && sp.site in t.sites && Holds(t, user, SiteResource, sp.site, role);
      var rank := SiteRank(t, user, sp.site);
      SpaceRankIsBest(t, user, sp.site);
      RankOrder(role, RoleOfRank(rank));
      assert rank in GrantedRanks(t, user, page);
    }
  }

  lemma ListedRankIsGrant(t: Tables, user: Id, page: Id, rank: nat)
    requires rank in GrantedRanks(t, user, page)
    ensures 1 <= rank <= 3 && HoldsLive(t, user, page, RoleOfRank(rank))
  {
    if page in t.documents && rank in NamedRanks(t, user, DocumentResource, page) {
      assert rank == 1 || rank == 2 || rank == 3;
      RanksAreGrants(t, user, DocumentResource, page, RoleOfRank(rank));
    } else {
      var sp :| sp in t.sitePages && sp.page == page && SiteRank(t, user, sp.site) > 0 && rank == SiteRank(t, user, sp.site);
      SpaceRankIsBest(t, user, sp.site);
    }
  }

  lemma TopOfRanks(ranks: set<nat>, granted: Role -> bool)
    requires forall r :: granted(r) ==> exists rank :: rank in ranks && Rank(r) <= rank
    requires forall rank :: rank in ranks ==> 1 <= rank <= 3 && granted(RoleOfRank(rank))
    ensures var top := TopRank(ranks); Best(granted, if top == 0 then None else Some(RoleOfRank(top)))
  {
    var top := TopRank(ranks);
    assert forall rank :: rank in ranks ==> rank <= top;
    assert top > 0 ==> top in ranks;
    forall r | granted(r)
      ensures top > 0 && AtMost(r, RoleOfRank(top))
    {
      RankOrder(r, RoleOfRank(top));
    }
  }

  /** The top of the listed ranks is the best live grant. */
  lemma ListedTopIsBest(t: Tables, user: Id, page: Id, granted: Role -> bool)
    requires forall r :: granted(r) <==> HoldsLive(t, user, page, r)
    ensures var top := ListedTop(t, user, page); Best(granted, if top == 0 then None else Some(RoleOfRank(top)))
  {
    var ranks := GrantedRanks(t, user, page);
    forall r | granted(r)
      ensures exists rank :: rank in ranks && Rank(r) <= rank
    {
      GrantIsListed(t, user, page, r);
    }
    forall rank | rank in ranks
      ensures 1 <= rank <= 3 && granted(RoleOfRank(rank))
    {
      ListedRankIsGrant(t, user, page, rank);
    }
    TopOfRanks(ranks, granted);
  }

  lemma NothingGranted(granted: Role -> bool, role: Option<Role>)
    requires Best(granted, role)
    ensures role.Some? <==> exists r :: granted(r)
  {
  }

  /** A listing shows a page unless a restriction above it denies the user, in the best role granted on existing records, and to view
      only when an edit restriction leaves the user out. */
  lemma ListedRoleIsBestGrant(t: Tables, user: Id, page: Id)
    ensures var role := ListedRole(t, user, page);
      if DeniedAbove(t, user, page) then role == None
      else if !Exempt(t, user) && page in EditDenied(t, user) then
        role == if exists r :: HoldsLive(t, user, page, r) then Some(Viewer) else None
      else Best(r => HoldsLive(t, user, page, r), role)
  {
    var top, granted := ListedTop(t, user, page), r => HoldsLive(t, user, page, r);
    ListedRoleByRank(t, user, page);
    ListedTopIsBest(t, user, page, granted);
    NothingGranted(granted, if top == 0 then None else Some(RoleOfRank(top)));
    assert forall r :: granted(r) <==> HoldsLive(t, user, page, r);
  }

  /** Restrictions do not bind an administrator: whoever is on the list of administrators, or without such a list the first registered
      user, where that one is made administrator. They bind everyone else whom they leave out, in both forms. */
  lemma OnlyAdministratorsAreExempt(t: Tables, user: Id, page: Id, principal: Principal)
    requires user != "" && Restriction(page, ViewKind, principal) in t.restrictions && !RestrictionAllows(t, user, page, ViewKind)
    ensures var admin := if t.adminIds != [] then user in t.adminIds else t.bootstrapFirstUser && t.users != [] && t.users[0] == user;
      && (CapOf(t, Some(user), page) == if admin then NoCap else Hidden)
      && (page in ViewDenied(t, user) <==> !admin)
      && (admin ==> ViewDenied(t, user) == {})
  {
    assert page in Ancestry(t.parents, page, 0);
    assert page in WalkedAncestors(t.parents, page);
    assert RestrictionRow(page, ViewKind) in RestrictionRows(t, page);
    AllowedTwice(t, user, page, ViewKind);
    ClosureKeepsBase(t.parents, DeniedBase(t, user));
    NothingBelowNothing(t.parents);
  }

  lemma NothingBelowNothing(parents: set<ParentRow>)
    ensures DownwardClosure(parents, {}) == {}
  {
    assert {} + (set row | row in parents && row.parent in {} :: row.child) == {};
  }
}
