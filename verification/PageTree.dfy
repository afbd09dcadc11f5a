/**
 Permanently deleting a page: the page-tree surgery and what it does to everyone else's access.

 Each space record holds its own parent map; the `page_parents` rows are derived from it. Purging a
 page re-hangs its children under its parent, space by space.
 */
module PageTree {
  import opened Wrappers
  import opened Restrictions

  /** A space record; the fields that play no part in the page tree are left out. */
  datatype Site = Site(id: Id, documentIds: seq<Id>, pageFolders: map<Id, string>, pageParents: map<Id, Id>)

  function WithoutSitePage(site: Site, page: Id): Site {
    var removedParent := if page in site.pageParents && site.pageParents[page] != "" then Some(site.pageParents[page]) else None;
    Site(site.id,
         Without(site.documentIds, page),
         map p | p in site.pageFolders && p != page :: site.pageFolders[p],
         map child | child in site.pageParents && child != page && (site.pageParents[child] != page || removedParent.Some?)
           :: if site.pageParents[child] != page then site.pageParents[child] else removedParent.value)
  }

  function Without(ids: seq<Id>, page: Id): (kept: seq<Id>)
    ensures forall id :: id in kept <==> id in ids && id != page
  {
    if ids == [] then []
    else if ids[0] == page then Without(ids[1..], page)
    else [ids[0]] + Without(ids[1..], page)
  }

  /** The `page_parents` rows of one space: member pages only, no page under itself. */
  function ParentRows(site: Site): set<ParentRow> {
    set child | child in site.pageParents && child != site.pageParents[child]
                && child in site.documentIds && site.pageParents[child] in site.documentIds
      :: ParentRow(site.id, child, site.pageParents[child])
  }

  function SitePages(site: Site): set<SitePage> {
    set page | page in site.documentIds :: SitePage(site.id, page)
  }

  function AllParentRows(sites: map<Id, Site>): set<ParentRow> {
    set id, row | id in sites && row in ParentRows(sites[id]) :: row
  }

  function AllSitePages(sites: map<Id, Site>): set<SitePage> {
    set id, row | id in sites && row in SitePages(sites[id]) :: row
  }

  function PurgedSites(sites: map<Id, Site>, page: Id): map<Id, Site> {
    map id | id in sites :: if page in sites[id].documentIds then WithoutSitePage(sites[id], page) else sites[id]
  }

  /** The tables after the purge of a trashed page. */
  function PurgedTables(t: Tables, sites: map<Id, Site>, page: Id): Tables {
    t.(documents := t.documents - {page},
       permissions := (set p | p in t.permissions && !(p.resource == DocumentResource && p.id == page)),
       groupPermissions := (set gp | gp in t.groupPermissions && !(gp.resource == DocumentResource && gp.id == page)),
       restrictions := (set r | r in t.restrictions && r.page != page),
       sitePages := AllSitePages(PurgedSites(sites, page)),
       parents := AllParentRows(PurgedSites(sites, page)))
  }

  /** The derived tables hold exactly what the space records say. */
  ghost predicate Derived(t: Tables, sites: map<Id, Site>) {
    && (forall id :: id in sites ==> sites[id].id == id)
    && t.sites == sites.Keys
    && t.sitePages == AllSitePages(sites)
    && t.parents == AllParentRows(sites)
  }

  /** The rows of one space replaced by what its record says. */
  function WrittenTables(t: Tables, site: Site): Tables {
    t.(sites := t.sites + {site.id},
       sitePages := (set row | row in t.sitePages && row.site != site.id) + SitePages(site),
       parents := (set row | row in t.parents && row.site != site.id) + ParentRows(site))
  }

  class CloudDatabase {
    var t: Tables
    var sites: map<Id, Site>
    var trashed: set<Id>

    ghost predicate Valid()
      reads this
    {
      Derived(t, sites)
    }

    method ReplacePageParents(site: Site)
      modifies this`t
      ensures t == old(t).(parents := (set row | row in old(t).parents && row.site != site.id) + ParentRows(site))
    {
      t := t.(parents := set row | row in t.parents && row.site != site.id);
      var left := site.pageParents.Keys;
      var inserted: set<ParentRow> := {};
      while left != {}
        invariant left <= site.pageParents.Keys
        invariant inserted == set row | row in ParentRows(site) && row.child !in left
        invariant t == old(t).(parents := (set row | row in old(t).parents && row.site != site.id) + inserted)
        decreases left
      {
        var child :| child in left;
        var parent := site.pageParents[child];
        if child != parent && child in site.documentIds && parent in site.documentIds {
          var row := ParentRow(site.id, child, parent);
          assert row in ParentRows(site);
          t := t.(parents := t.parents + {row});
          inserted := inserted + {row};
        }
        left := left - {child};
      }
      assert inserted == ParentRows(site);
    }

    method WriteSite(site: Site)
      modifies this`t, this`sites
      ensures sites == old(sites)[site.id := site]
      ensures t == WrittenTables(old(t), site)
    {
      sites := sites[site.id := site];
      t := t.(sites := t.sites + {site.id}, sitePages := (set row | row in t.sitePages && row.site != site.id) + SitePages(site));
      ReplacePageParents(site);
    }

    method PurgeDocument(page: Id) returns (purged: bool)
      requires Valid()
      modifies this
      ensures purged <==> page in old(trashed)
      ensures !purged ==> t == old(t) && sites == old(sites) && trashed == old(trashed)
      ensures purged ==> sites == PurgedSites(old(sites), page) && trashed == old(trashed) - {page}
      ensures purged ==> t == PurgedTables(old(t), old(sites), page)
      ensures Valid()
    {
      if page !in trashed {
        return false;
      }
      trashed := trashed - {page};
      t := t.(documents := t.documents - {page},
              permissions := (set p | p in t.permissions && !(p.resource == DocumentResource && p.id == page)),
              groupPermissions := (set gp | gp in t.groupPermissions && !(gp.resource == DocumentResource && gp.id == page)),
              restrictions := (set r | r in t.restrictions && r.page != page),
              sitePages := (set sp | sp in t.sitePages && sp.page != page));
      RewriteSites(page);
      return true;
    }

    /** Rewrites the record of every space that lists the page. */
    method RewriteSites(page: Id)
      requires t.sites == sites.Keys && t.parents == AllParentRows(sites)
      requires forall id :: id in sites ==> sites[id].id == id
      requires t.sitePages == set sp | sp in AllSitePages(sites) && sp.page != page
      modifies this`t, this`sites
      ensures sites == PurgedSites(old(sites), page)
      ensures t == old(t).(sitePages := AllSitePages(sites), parents := AllParentRows(sites))
    {
      var left := sites.Keys;
      ghost var kept, before := t, sites;
      NothingRewritten(sites, t, page);
      while left != {}
        invariant left <= sites.Keys
        invariant Rewritten(before, sites, t, page, left)
        invariant t == kept.(sitePages := t.sitePages, parents := t.parents)
        decreases left
      {
        var id :| id in left;
        if page in sites[id].documentIds {
          var next := WithoutSitePage(sites[id], page);
          RewriteStep(before, sites, t, page, left, id);
          WriteSite(next);
          assert kept.sites + {next.id} == kept.sites;
        }
        left := left - {id};
      }
      AllRewritten(before, sites, t, page);
    }
  }

  /** The tables follow the records, and the spaces not in `left` have lost the page. */
  ghost predicate Rewritten(before: map<Id, Site>, now: map<Id, Site>, t: Tables, page: Id, left: set<Id>) {
    && now.Keys == before.Keys && (forall id :: id in now ==> now[id].id == id)
    && (forall id :: id in now ==> now[id] == (if id in left then before[id] else PurgedSites(before, page)[id]))
    && ParentsMatch(t.parents, now) && PagesMatch(t.sitePages, now, page)
  }

  lemma NothingRewritten(sites: map<Id, Site>, t: Tables, page: Id)
    requires t.parents == AllParentRows(sites) && forall id :: id in sites ==> sites[id].id == id
    requires t.sitePages == set sp | sp in AllSitePages(sites) && sp.page != page
    ensures Rewritten(sites, sites, t, page, sites.Keys)
  {
    MatchesAreUnions(sites, page);
  }

  lemma AllRewritten(before: map<Id, Site>, now: map<Id, Site>, t: Tables, page: Id)
    requires Rewritten(before, now, t, page, {})
    ensures now == PurgedSites(before, page) && t.parents == AllParentRows(now) && t.sitePages == AllSitePages(now)
  {
    assert forall id :: id in now ==> page !in now[id].documentIds;
  }

  lemma RewriteStep(before: map<Id, Site>, now: map<Id, Site>, t: Tables, page: Id, left: set<Id>, id: Id)
    requires Rewritten(before, now, t, page, left) && id in left && id in now && page in now[id].documentIds
    ensures var next := WithoutSitePage(now[id], page);
      next.id == id && Rewritten(before, now[id := next], WrittenTables(t, next), page, left - {id})
  {
  }

  /** Row-wise reading of the derived tables. */
  ghost predicate ParentsMatch(rows: set<ParentRow>, sites: map<Id, Site>) {
    forall row :: row in rows <==> row.site in sites && row in ParentRows(sites[row.site])
  }

  ghost predicate PagesMatch(rows: set<SitePage>, sites: map<Id, Site>, page: Id) {
    forall row :: row in rows <==> row.page != page && row.site in sites && row in SitePages(sites[row.site])
  }

  /** The unions over all spaces, row by row. */
  lemma MatchesAreUnions(sites: map<Id, Site>, page: Id)
    requires forall id :: id in sites ==> sites[id].id == id
    ensures ParentsMatch(AllParentRows(sites), sites)
    ensures PagesMatch((set sp | sp in AllSitePages(sites) && sp.page != page), sites, page)
  {
  }

  // ---------------------------------------------------------------------------------------------
  // The rest of the record
  // ---------------------------------------------------------------------------------------------

  /** `at` names the positions of `ids` that are left in `kept`, in order: all but those of the page. */
  ghost predicate LeftAt(ids: seq<Id>, kept: seq<Id>, page: Id, at: seq<nat>) {
    && |at| == |kept| && (forall k :: 0 <= k < |at| ==> at[k] < |ids| && kept[k] == ids[at[k]] != page)
    && (forall j, k :: 0 <= j < k < |at| ==> at[j] < at[k])
    && (forall i :: 0 <= i < |ids| && ids[i] != page ==> i in at)
  }

  lemma MovedByOne(ids: seq<Id>, kept: seq<Id>, page: Id, later: seq<nat>, moved: seq<nat>)
    requires ids != [] && LeftAt(ids[1..], kept, page, later)
    requires |moved| == |later| && forall k :: 0 <= k < |later| ==> moved[k] == later[k] + 1
    ensures forall k :: 0 <= k < |moved| ==> moved[k] < |ids| && kept[k] == ids[moved[k]] != page
    ensures forall i :: 0 < i < |ids| && ids[i] != page ==> i in moved
  {
    forall i | 0 < i < |ids| && ids[i] != page
      ensures i in moved
    {
      assert ids[1..][i - 1] == ids[i];
      var k :| 0 <= k < |later| && later[k] == i - 1;
      assert moved[k] == i;
    }
  }

  lemma FirstIsLeft(ids: seq<Id>, kept: seq<Id>, page: Id, moved: seq<nat>)
    requires ids != [] && ids[0] != page && |moved| == |kept|
    requires forall k :: 0 <= k < |moved| ==> 0 < moved[k] < |ids| && kept[k] == ids[moved[k]] != page
    requires (forall j, k :: 0 <= j < k < |moved| ==> moved[j] < moved[k]) && forall i :: 0 < i < |ids| && ids[i] != page ==> i in moved
    ensures LeftAt(ids, [ids[0]] + kept, page, [0] + moved)
  {
    var at := [0] + moved;
    assert forall k :: 0 < k < |at| ==> at[k] == moved[k - 1];
    assert at[0] in at && forall m :: m in moved ==> m in at;
  }

  lemma {:induction false} OthersAreLeft(ids: seq<Id>, page: Id) returns (at: seq<nat>)
    ensures LeftAt(ids, Without(ids, page), page, at)
  {
    if ids == [] {
      at := [];
    } else {
      var later := OthersAreLeft(ids[1..], page);
      var moved := seq(|later|, k requires 0 <= k < |later| => later[k] + 1);
      MovedByOne(ids, Without(ids[1..], page), page, later, moved);
      if ids[0] == page {
        at := moved;
      } else {
        at := [0] + moved;
        FirstIsLeft(ids, Without(ids[1..], page), page, moved);
      }
    }
  }

  /** A purge leaves every other page of a space in its folder and in its place in the list, and a space without the page as it was. */
  lemma PurgeKeepsTheRest(sites: map<Id, Site>, page: Id, id: Id) returns (at: seq<nat>)
    requires id in sites
    ensures var before, after := sites[id], PurgedSites(sites, page)[id];
      && PurgedSites(sites, page).Keys == sites.Keys && after.id == before.id
      && (page !in before.documentIds ==> after == before)
      && (page in before.documentIds ==>
            && LeftAt(before.documentIds, after.documentIds, page, at)
            && after.pageFolders.Keys == before.pageFolders.Keys - {page}
            && forall p :: p in after.pageFolders ==> after.pageFolders[p] == before.pageFolders[p])
  {
    at := OthersAreLeft(sites[id].documentIds, page);
  }

  /** In the record of a space, a child of the page comes to lie under the page's parent, or at the top when the page has none; every
      other page keeps its parent. */
  lemma PurgeMovesChildrenUp(site: Site, page: Id, child: Id)
    ensures var parents, after := site.pageParents, WithoutSitePage(site, page).pageParents;
      if child == page || child !in parents then child !in after
      else if parents[child] != page then child in after && after[child] == parents[child]
      else if page in parents && parents[page] != "" then child in after && after[child] == parents[page]
      else child !in after
  {
  }

  /** A purge takes the page and every row that names it out of the tables, and no row about anything else but the page tree. */
  lemma PurgeTakesExactlyThePage(t: Tables, sites: map<Id, Site>, page: Id)
    requires Derived(t, sites)
    ensures var after := PurgedTables(t, sites, page);
      && Derived(after, PurgedSites(sites, page)) && after.documents == t.documents - {page}
      && (forall p :: p in after.permissions <==> p in t.permissions && (p.id != page || p.resource == SiteResource))
      && (forall p :: p in after.groupPermissions <==> p in t.groupPermissions && (p.id != page || p.resource == SiteResource))
      && (forall r :: r in after.restrictions <==> r in t.restrictions && r.page != page)
      && (forall sp :: sp in after.sitePages <==> sp in t.sitePages && sp.page != page)
      && (forall row :: row in after.parents ==> row.child != page && row.parent != page)
      && after.members == t.members && after.users == t.users && after.sites == t.sites
  {
    var now := PurgedSites(sites, page);
    forall sp
      ensures sp in AllSitePages(now) <==> sp in AllSitePages(sites) && sp.page != page
    {
      assert sp in AllSitePages(now) <==> sp.site in now && sp in SitePages(now[sp.site]);
      assert sp in AllSitePages(sites) <==> sp.site in sites && sp in SitePages(sites[sp.site]);
    }
    forall row | row in AllParentRows(now)
      ensures row.child != page && row.parent != page
    {
      assert row in ParentRows(now[row.site]);
    }
  }

  /** Writing a space's record keeps the derived tables in step with all records. */
  lemma WriteSiteKeepsDerived(t: Tables, sites: map<Id, Site>, site: Site)
    requires Derived(t, sites)
    ensures Derived(WrittenTables(t, site), sites[site.id := site])
    ensures var after := WrittenTables(t, site); after == t.(sites := after.sites, sitePages := after.sitePages, parents := after.parents)
  {
    var now := sites[site.id := site];
    assert forall id :: id in now && id != site.id ==> now[id] == sites[id];
    DerivedPages(t, sites, site);
    DerivedParents(t, sites, site);
  }

  lemma DerivedPages(t: Tables, sites: map<Id, Site>, site: Site)
    requires Derived(t, sites)
    ensures WrittenTables(t, site).sitePages == AllSitePages(sites[site.id := site])
  {
    var now := sites[site.id := site];
    forall sp
      ensures sp in WrittenTables(t, site).sitePages <==> sp in AllSitePages(now)
    {
      assert sp in AllSitePages(now) <==> sp.site in now && sp in SitePages(now[sp.site]);
      assert sp in AllSitePages(sites) <==> sp.site in sites && sp in SitePages(sites[sp.site]);
    }
  }

  lemma DerivedParents(t: Tables, sites: map<Id, Site>, site: Site)
    requires Derived(t, sites)
    ensures WrittenTables(t, site).parents == AllParentRows(sites[site.id := site])
  {
    var now := sites[site.id := site];
    forall row
      ensures row in WrittenTables(t, site).parents <==> row in AllParentRows(now)
    {
      assert row in AllParentRows(now) <==> row.site in now && row in ParentRows(now[row.site]);
      assert row in AllParentRows(sites) <==> row.site in sites && row in ParentRows(sites[row.site]);
    }
  }

  // ---------------------------------------------------------------------------------------------
  // The surgery on rows
  // ---------------------------------------------------------------------------------------------

  /** Rows not touching the page, and each child of the page joined to the page's parent in the same space. */
  function Spliced(rows: set<ParentRow>, page: Id): set<ParentRow> {
    (set row | row in rows && row.child != page && row.parent != page) +
    (set low, high | low in rows && high in rows && low.parent == page && high.child == page
                     && low.child != page && high.parent != page && low.site == high.site && low.child != high.parent
      :: ParentRow(low.site, low.child, high.parent))
  }

  /** For every space record, well-formed or not: editing the record splices the page out of the rows. */
  lemma PurgeSplicesOneSpace(site: Site, page: Id)
    requires page in site.documentIds && "" !in site.documentIds
    ensures ParentRows(WithoutSitePage(site, page)) == Spliced(ParentRows(site), page)
  {
    var after := WithoutSitePage(site, page);
    forall row | row in ParentRows(after)
      ensures row in Spliced(ParentRows(site), page)
    {
      if site.pageParents[row.child] == page {
        var low, high := ParentRow(site.id, row.child, page), ParentRow(site.id, page, row.parent);
        assert low in ParentRows(site) && high in ParentRows(site);
      } else {
        assert row in ParentRows(site);
      }
    }
    forall row | row in Spliced(ParentRows(site), page)
      ensures row in ParentRows(after)
    {
      if row !in ParentRows(site) || row.child == page || row.parent == page {
        var low, high :| low in ParentRows(site) && high in ParentRows(site) && low.parent == page && high.child == page
                         && low.child != high.parent && row == ParentRow(low.site, low.child, high.parent);
        assert after.pageParents[row.child] == row.parent;
      }
      assert row.child in after.pageParents && after.pageParents[row.child] == row.parent && row.site == after.id;
    }
  }

  ghost predicate NoEmptyIds(sites: map<Id, Site>) {
    forall id :: id in sites ==> "" !in sites[id].documentIds
  }

  lemma PurgeSplicesEach(sites: map<Id, Site>, page: Id, id: Id)
    requires NoEmptyIds(sites) && id in sites
    ensures ParentRows(PurgedSites(sites, page)[id]) == Spliced(ParentRows(sites[id]), page)
  {
    if page in sites[id].documentIds {
      PurgeSplicesOneSpace(sites[id], page);
    } else {
      assert forall row :: row in ParentRows(sites[id]) ==> row.child != page && row.parent != page;
    }
  }

  /** Across all spaces at once. */
  lemma PurgeSplices(t: Tables, sites: map<Id, Site>, page: Id)
    requires Derived(t, sites) && NoEmptyIds(sites)
    ensures PurgedTables(t, sites, page).parents == Spliced(t.parents, page)
  {
    var after := PurgedSites(sites, page);
    MatchesAreUnions(after, page);
    forall row
      ensures row in AllParentRows(after) <==> row in Spliced(t.parents, page)
    {
      if row.site in sites {
        PurgeSplicesEach(sites, page, row.site);
      }
    }
  }

  // ---------------------------------------------------------------------------------------------
  // The ancestor relation survives
  // ---------------------------------------------------------------------------------------------

  lemma AncestorStep(rows: set<ParentRow>, page: Id, row: ParentRow)
    requires row in rows && Ancestor(rows, page, row.child)
    ensures Ancestor(rows, page, row.parent)
  {
    var depth: nat :| row.child in Ancestry(rows, page, depth);
    assert row.parent in Ancestry(rows, page, depth + 1);
  }

  lemma {:induction false} AncestorTransitive(rows: set<ParentRow>, x: Id, y: Id, z: Id, depth: nat)
    requires Ancestor(rows, x, y) && z in Ancestry(rows, y, depth)
    ensures Ancestor(rows, x, z)
    decreases depth
  {
    if depth == 0 {
    } else {
      var row :| row in rows && row.child in Ancestry(rows, y, depth - 1) && row.parent == z;
      AncestorTransitive(rows, x, y, row.child, depth - 1);
      AncestorStep(rows, x, row);
    }
  }

  lemma SelfAncestor(rows: set<ParentRow>, page: Id)
    ensures Ancestor(rows, page, page)
  {
    assert page in Ancestry(rows, page, 0);
  }

  lemma LastHop(rows: set<ParentRow>, x: Id, a: Id, depth: nat) returns (row: ParentRow)
    requires depth > 0 && a in Ancestry(rows, x, depth)
    ensures row in rows && row.child in Ancestry(rows, x, depth - 1) && row.parent == a
  {
    row :| row in rows && row.child in Ancestry(rows, x, depth - 1) && row.parent == a;
  }

  lemma SplicedStep(rows: set<ParentRow>, page: Id, x: Id, row: ParentRow)
    requires row in Spliced(rows, page) && Ancestor(rows, x, row.child)
    ensures Ancestor(rows, x, row.parent) && row.parent != page
  {
    if row in rows && row.child != page && row.parent != page {
      AncestorStep(rows, x, row);
    } else {
      var low, high :| low in rows && high in rows && low.parent == page && high.child == page && high.parent != page
                       && row == ParentRow(low.site, low.child, high.parent);
      AncestorStep(rows, x, low);
      AncestorStep(rows, x, high);
    }
  }

  /** Splicing invents no ancestor, whatever the graph. */
  lemma {:induction false} SplicedPathsAreOldPaths(rows: set<ParentRow>, page: Id, x: Id, a: Id, depth: nat)
    requires x != page && a in Ancestry(Spliced(rows, page), x, depth)
    ensures Ancestor(rows, x, a) && a != page
    decreases depth
  {
    if depth == 0 {
      SelfAncestor(rows, x);
    } else {
      var row := LastHop(Spliced(rows, page), x, a, depth);
      SplicedPathsAreOldPaths(rows, page, x, row.child, depth - 1);
      SplicedStep(rows, page, x, row);
    }
  }

  /** Paths through the page that enter it in one space and leave it in another, and their detours. */
  ghost predicate CrossingsKept(rows: set<ParentRow>, page: Id) {
    forall low, high :: low in rows && high in rows && low.parent == page && high.child == page
      && low.child != page && high.parent != page && low.site != high.site
      ==> Ancestor(Spliced(rows, page), low.child, high.parent)
  }

  ghost predicate EntersFromBelow(rows: set<ParentRow>, page: Id, x: Id, low: ParentRow) {
    low in rows && low.parent == page && low.child != page && Ancestor(Spliced(rows, page), x, low.child)
  }

  lemma {:induction false} OldPathsAreSplicedPaths(rows: set<ParentRow>, page: Id, x: Id, a: Id, depth: nat)
    requires x != page && CrossingsKept(rows, page) && a in Ancestry(rows, x, depth)
    ensures a != page ==> Ancestor(Spliced(rows, page), x, a)
    ensures a == page ==> exists low :: EntersFromBelow(rows, page, x, low)
    decreases depth
  {
    var spliced := Spliced(rows, page);
    if depth == 0 {
      SelfAncestor(spliced, x);
    } else {
      var row :| row in rows && row.child in Ancestry(rows, x, depth - 1) && row.parent == a;
      OldPathsAreSplicedPaths(rows, page, x, row.child, depth - 1);
      if row.child != page {
        if a == page {
          assert EntersFromBelow(rows, page, x, row);
        } else {
          assert row in spliced;
          AncestorStep(spliced, x, row);
        }
      } else if a != page {
        var low :| EntersFromBelow(rows, page, x, low);
        if low.site == row.site {
          if low.child != a {
            assert ParentRow(low.site, low.child, a) in spliced;
            AncestorStep(spliced, x, ParentRow(low.site, low.child, a));
          }
        } else {
          var hops: nat :| a in Ancestry(spliced, low.child, hops);
          AncestorTransitive(spliced, x, low.child, a, hops);
        }
      }
    }
  }

  ghost predicate AncestorsKept(before: set<ParentRow>, after: set<ParentRow>, page: Id) {
    forall x, a :: x != page && a != page ==> (Ancestor(after, x, a) <==> Ancestor(before, x, a))
  }

  /** The ancestor relation between the other pages is unchanged exactly when every cross-space path keeps a detour. */
  lemma PurgeKeepsAncestors(rows: set<ParentRow>, page: Id)
    ensures AncestorsKept(rows, Spliced(rows, page), page) <==> CrossingsKept(rows, page)
  {
    var spliced := Spliced(rows, page);
    if CrossingsKept(rows, page) {
      forall x, a | x != page && a != page
        ensures Ancestor(spliced, x, a) <==> Ancestor(rows, x, a)
      {
        if Ancestor(spliced, x, a) {
          var depth: nat :| a in Ancestry(spliced, x, depth);
          SplicedPathsAreOldPaths(rows, page, x, a, depth);
        }
        if Ancestor(rows, x, a) {
          var depth: nat :| a in Ancestry(rows, x, depth);
          OldPathsAreSplicedPaths(rows, page, x, a, depth);
        }
      }
    }
    if AncestorsKept(rows, spliced, page) {
      forall low, high | low in rows && high in rows && low.parent == page && high.child == page
                         && low.child != page && high.parent != page && low.site != high.site
        ensures Ancestor(spliced, low.child, high.parent)
      {
        SelfAncestor(rows, low.child);
        AncestorStep(rows, low.child, low);
        AncestorStep(rows, low.child, high);
      }
    }
  }

  /** The page hangs in the tree of one space only. */
  predicate InOneSpace(rows: set<ParentRow>, page: Id) {
    forall low, high :: low in rows && high in rows && low.parent == page && high.child == page ==> low.site == high.site
  }

  lemma OneSpaceHasNoCrossings(rows: set<ParentRow>, page: Id)
    requires InOneSpace(rows, page)
    ensures AncestorsKept(rows, Spliced(rows, page), page)
  {
    PurgeKeepsAncestors(rows, page);
  }

  ghost predicate Acyclic(rows: set<ParentRow>) {
    forall row :: row in rows ==> !Ancestor(rows, row.parent, row.child)
  }

  /** An acyclic page graph stays acyclic, in one space or across spaces. */
  lemma PurgeKeepsAcyclic(rows: set<ParentRow>, page: Id)
    requires Acyclic(rows)
    ensures Acyclic(Spliced(rows, page))
  {
    var spliced := Spliced(rows, page);
    forall row | row in spliced && Ancestor(spliced, row.parent, row.child)
      ensures false
    {
      var depth: nat :| row.child in Ancestry(spliced, row.parent, depth);
      SplicedPathsAreOldPaths(rows, page, row.parent, row.child, depth);
      if row !in rows || row.child == page || row.parent == page {
        var low, high :| low in rows && high in rows && low.parent == page && high.child == page
                         && low.child == row.child && high.parent == row.parent;
        AncestorStep(rows, row.parent, low);
      }
    }
  }

  // ---------------------------------------------------------------------------------------------
  // View verdicts after a purge
  // ---------------------------------------------------------------------------------------------

  /** Purging a page removes its own restriction and touches no other page's. */
  lemma PurgeKeepsOtherRestrictions(t: Tables, sites: map<Id, Site>, page: Id, user: Id)
    ensures DeniedBase(PurgedTables(t, sites, page), user) == DeniedBase(t, user) - {page}
  {
    var after := PurgedTables(t, sites, page);
    forall p | p != page
      ensures p in RestrictionAllowed(after, user, ViewKind) <==> p in RestrictionAllowed(t, user, ViewKind)
    {
      AllowedTwice(t, user, p, ViewKind);
      AllowedTwice(after, user, p, ViewKind);
    }
  }

  /** Over any page graph, a purge never takes a remaining page out of a listing. */
  lemma PurgeNeverHidesFromListing(t: Tables, sites: map<Id, Site>, page: Id, user: Id, p: Id)
    requires Derived(t, sites) && NoEmptyIds(sites) && p != page
    requires p in ViewDenied(PurgedTables(t, sites, page), user)
    ensures p in ViewDenied(t, user)
  {
    var after := PurgedTables(t, sites, page);
    PurgeSplices(t, sites, page);
    ViewDeniedIsReachability(after, user, p);
    ViewDeniedIsReachability(t, user, p);
    PurgeKeepsOtherRestrictions(t, sites, page, user);
    var a :| a in DeniedBase(after, user) && Ancestor(after.parents, p, a);
    var depth: nat :| a in Ancestry(after.parents, p, depth);
    SplicedPathsAreOldPaths(t.parents, page, p, a, depth);
  }

  /** When crossings keep a detour, a remaining page's verdict in a listing loses the purged page's own restriction and nothing else. */
  lemma ListingLosesOnlyOwnRestriction(t: Tables, sites: map<Id, Site>, page: Id, user: Id, p: Id)
    requires Derived(t, sites) && NoEmptyIds(sites) && p != page && CrossingsKept(t.parents, page)
    ensures p in ViewDenied(PurgedTables(t, sites, page), user)
      <==> exists a :: a != page && a in DeniedBase(t, user) && Ancestor(t.parents, p, a)
  {
    var after := PurgedTables(t, sites, page);
    PurgeSplices(t, sites, page);
    PurgeKeepsAncestors(t.parents, page);
    ViewDeniedIsReachability(after, user, p);
    PurgeKeepsOtherRestrictions(t, sites, page, user);
    assert forall a :: a in DeniedBase(after, user) <==> a != page && a in DeniedBase(t, user);
    assert forall a :: a != page ==> (Ancestor(after.parents, p, a) <==> Ancestor(t.parents, p, a));
  }

  // ---------------------------------------------------------------------------------------------
  // The bounded walk after a purge
  // ---------------------------------------------------------------------------------------------

  /** A path through the page, `up` hops to it and `on` hops beyond. */
  predicate PassesAt(rows: set<ParentRow>, page: Id, x: Id, a: Id, up: nat, on: nat) {
    up >= 1 && on >= 1 && page in Ancestry(rows, x, up) && a in Ancestry(rows, page, on)
  }

  /** Such a path of at most `hops` hops. */
  ghost predicate Passes(rows: set<ParentRow>, page: Id, x: Id, a: Id, hops: nat) {
    exists up: nat, on: nat :: PassesAt(rows, page, x, a, up, on) && up + on <= hops
  }

  ghost predicate WithinDepth(rows: set<ParentRow>, x: Id, a: Id, depth: nat) {
    exists d: nat :: d <= depth && a in Ancestry(rows, x, d)
  }

  lemma DepthStep(rows: set<ParentRow>, x: Id, row: ParentRow, depth: nat)
    requires row in rows && WithinDepth(rows, x, row.child, depth)
    ensures WithinDepth(rows, x, row.parent, depth + 1)
  {
    var d: nat :| d <= depth && row.child in Ancestry(rows, x, d);
    assert row.parent in Ancestry(rows, x, d + 1);
  }

  /** A child of the page joined to a parent of the page in the same space. */
  lemma JoinedStep(rows: set<ParentRow>, page: Id, x: Id, low: ParentRow, high: ParentRow, depth: nat)
    requires low in rows && high in rows && low.parent == page && high.child == page && low.site == high.site
    requires low.child != page && high.parent != page && WithinDepth(Spliced(rows, page), x, low.child, depth)
    ensures WithinDepth(Spliced(rows, page), x, high.parent, depth + 1)
  {
    var spliced := Spliced(rows, page);
    if low.child == high.parent {
      var d: nat :| d <= depth && low.child in Ancestry(spliced, x, d);
    } else {
      var row := ParentRow(low.site, low.child, high.parent);
      assert row in spliced;
      DepthStep(spliced, x, row, depth);
    }
  }

  ghost predicate EntersWithin(rows: set<ParentRow>, page: Id, x: Id, low: ParentRow, depth: nat) {
    low in rows && low.parent == page && low.child != page && WithinDepth(Spliced(rows, page), x, low.child, depth)
  }

  /** The page is entered from below within `depth` hops. */
  ghost predicate Entered(rows: set<ParentRow>, page: Id, x: Id, depth: nat) {
    exists low :: EntersWithin(rows, page, x, low, depth)
  }

  lemma EnteredLater(rows: set<ParentRow>, page: Id, x: Id, depth: nat)
    requires Entered(rows, page, x, depth)
    ensures Entered(rows, page, x, depth + 1)
  {
    var low :| EntersWithin(rows, page, x, low, depth);
    var d: nat :| d <= depth && low.child in Ancestry(Spliced(rows, page), x, d);
    assert EntersWithin(rows, page, x, low, depth + 1);
  }

  /** From the page up, in the tree of one space. */
  lemma LeavesPage(rows: set<ParentRow>, page: Id, x: Id, high: ParentRow, depth: nat)
    requires InOneSpace(rows, page) && Entered(rows, page, x, depth) && high in rows && high.child == page && high.parent != page
    ensures WithinDepth(Spliced(rows, page), x, high.parent, depth + 1)
  {
    var low :| EntersWithin(rows, page, x, low, depth);
    JoinedStep(rows, page, x, low, high, depth);
  }

  lemma WithinMore(rows: set<ParentRow>, x: Id, a: Id, depth: nat)
    requires WithinDepth(rows, x, a, depth)
    ensures WithinDepth(rows, x, a, depth + 1)
  {
    var d: nat :| d <= depth && a in Ancestry(rows, x, d);
  }

  /** Another page is at most `depth` hops up in the spliced tree; the page itself is entered from below before that. */
  ghost predicate NotLonger(rows: set<ParentRow>, page: Id, x: Id, a: Id, depth: nat) {
    if a != page then WithinDepth(Spliced(rows, page), x, a, depth) else depth >= 1 && Entered(rows, page, x, depth - 1)
  }

  lemma HopIsNotLonger(rows: set<ParentRow>, page: Id, x: Id, row: ParentRow, depth: nat)
    requires InOneSpace(rows, page) && row in rows && NotLonger(rows, page, x, row.child, depth)
    ensures NotLonger(rows, page, x, row.parent, depth + 1)
  {
    if row.child != page && row.parent == page {
      assert EntersWithin(rows, page, x, row, depth);
    } else if row.child != page {
      assert row in Spliced(rows, page);
      DepthStep(Spliced(rows, page), x, row, depth);
    } else if row.parent == page {
      EnteredLater(rows, page, x, depth - 1);
    } else {
      LeavesPage(rows, page, x, row, depth - 1);
      WithinMore(Spliced(rows, page), x, row.parent, depth);
    }
  }

  /** Splicing lengthens no path. */
  lemma {:induction false} SplicingLengthensNoPath(rows: set<ParentRow>, page: Id, x: Id, a: Id, depth: nat)
    requires x != page && InOneSpace(rows, page) && a in Ancestry(rows, x, depth)
    ensures NotLonger(rows, page, x, a, depth)
    decreases depth
  {
    if depth == 0 {
      assert a in Ancestry(Spliced(rows, page), x, 0);
    } else {
      var row := LastHop(rows, x, a, depth);
      SplicingLengthensNoPath(rows, page, x, row.child, depth - 1);
      HopIsNotLonger(rows, page, x, row, depth - 1);
    }
  }

  /** A path through the page gets shorter. */
  lemma {:induction false} SplicingShortensPasses(rows: set<ParentRow>, page: Id, x: Id, a: Id, up: nat, on: nat)
    requires x != page && a != page && InOneSpace(rows, page) && PassesAt(rows, page, x, a, up, on)
    ensures WithinDepth(Spliced(rows, page), x, a, up + on - 1)
    decreases on
  {
    var spliced := Spliced(rows, page);
    var row := LastHop(rows, page, a, on);
    if row.child == page {
      SplicingLengthensNoPath(rows, page, x, page, up);
      LeavesPage(rows, page, x, row, up - 1);
      var d: nat :| d <= up && a in Ancestry(spliced, x, d);
    } else {
      assert on > 1;
      SplicingShortensPasses(rows, page, x, row.child, up, on - 1);
      assert row in spliced;
      DepthStep(spliced, x, row, up + on - 2);
    }
  }

  /** A path of this length, or one through the page that is one hop longer. */
  ghost predicate OldPath(rows: set<ParentRow>, page: Id, x: Id, a: Id, depth: nat) {
    a in Ancestry(rows, x, depth) || Passes(rows, page, x, a, depth + 1)
  }

  lemma KeptRowStep(rows: set<ParentRow>, page: Id, x: Id, row: ParentRow, depth: nat)
    requires row in rows && OldPath(rows, page, x, row.child, depth)
    ensures OldPath(rows, page, x, row.parent, depth + 1)
  {
    if row.child !in Ancestry(rows, x, depth) {
      var up: nat, on: nat :| PassesAt(rows, page, x, row.child, up, on) && up + on <= depth + 1;
      assert PassesAt(rows, page, x, row.parent, up, on + 1);
    }
  }

  lemma JoinedRowStep(rows: set<ParentRow>, page: Id, x: Id, low: ParentRow, high: ParentRow, depth: nat)
    requires low in rows && high in rows && low.parent == page && high.child == page && OldPath(rows, page, x, low.child, depth)
    ensures OldPath(rows, page, x, high.parent, depth + 1)
  {
    assert page in Ancestry(rows, page, 0);
    assert high.parent in Ancestry(rows, page, 1);
    if low.child in Ancestry(rows, x, depth) {
      assert page in Ancestry(rows, x, depth + 1);
      assert PassesAt(rows, page, x, high.parent, depth + 1, 1);
    } else {
      var up: nat, on: nat :| PassesAt(rows, page, x, low.child, up, on) && up + on <= depth + 1;
      assert PassesAt(rows, page, x, high.parent, up, 1);
    }
  }

  lemma SplicedRowStep(rows: set<ParentRow>, page: Id, x: Id, row: ParentRow, depth: nat)
    requires row in Spliced(rows, page) && OldPath(rows, page, x, row.child, depth)
    ensures OldPath(rows, page, x, row.parent, depth + 1)
  {
    if row in rows {
      KeptRowStep(rows, page, x, row, depth);
    } else {
      var low, high :| low in rows && high in rows && low.parent == page && high.child == page && low.child == row.child && high.parent == row.parent;
      JoinedRowStep(rows, page, x, low, high, depth);
    }
  }

  /** Every spliced path is such an old path; over any graph. */
  lemma {:induction false} SplicedPathLength(rows: set<ParentRow>, page: Id, x: Id, a: Id, depth: nat)
    requires x != page && a in Ancestry(Spliced(rows, page), x, depth)
    ensures OldPath(rows, page, x, a, depth)
    decreases depth
  {
    if depth == 0 {
    } else {
      var row := LastHop(Spliced(rows, page), x, a, depth);
      SplicedPathLength(rows, page, x, row.child, depth - 1);
      SplicedRowStep(rows, page, x, row, depth - 1);
    }
  }

  /** What the walk from a remaining page reaches after the purge: what it reached before, and what one hop more through the page reached. */
  lemma WalkAfterPurge(rows: set<ParentRow>, page: Id, x: Id, a: Id)
    requires x != page && a != page
    ensures a in WalkedAncestors(Spliced(rows, page), x) ==> a in WalkedAncestors(rows, x) || Passes(rows, page, x, a, MAX_HOPS + 1)
    ensures InOneSpace(rows, page) ==>
      (a in WalkedAncestors(Spliced(rows, page), x) <==> a in WalkedAncestors(rows, x) || Passes(rows, page, x, a, MAX_HOPS + 1))
  {
    var spliced := Spliced(rows, page);
    if a in WalkedAncestors(spliced, x) {
      var depth: nat :| depth <= MAX_HOPS && a in Ancestry(spliced, x, depth);
      SplicedPathLength(rows, page, x, a, depth);
    }
    if InOneSpace(rows, page) {
      if a in WalkedAncestors(rows, x) {
        var depth: nat :| depth <= MAX_HOPS && a in Ancestry(rows, x, depth);
        SplicingLengthensNoPath(rows, page, x, a, depth);
        WalkedWithin(spliced, x, a, depth);
      } else if Passes(rows, page, x, a, MAX_HOPS + 1) {
        var up: nat, on: nat :| PassesAt(rows, page, x, a, up, on) && up + on <= MAX_HOPS + 1;
        SplicingShortensPasses(rows, page, x, a, up, on);
        WalkedWithin(spliced, x, a, up + on - 1);
      }
    }
  }

  lemma WalkedWithin(rows: set<ParentRow>, x: Id, a: Id, depth: nat)
    requires WithinDepth(rows, x, a, depth) && depth <= MAX_HOPS
    ensures a in WalkedAncestors(rows, x)
  {
    var d: nat :| d <= depth && a in Ancestry(rows, x, d);
  }

  // ---------------------------------------------------------------------------------------------
  // The single-page check after a purge
  // ---------------------------------------------------------------------------------------------

  /** An ancestor other than the purged page denies the user, within the hops or one hop further through the page. */
  ghost predicate DeniedAfterPurge(t: Tables, page: Id, user: Id, p: Id) {
    exists a :: a in DeniedBase(t, user) && a != page && (a in WalkedAncestors(t.parents, p) || Passes(t.parents, page, p, a, MAX_HOPS + 1))
  }

  /** Over any page graph a remaining page is hidden after the purge only for such an ancestor; in one space's tree exactly then. */
  lemma DeniedWithinHopsAfterPurge(t: Tables, sites: map<Id, Site>, page: Id, user: Id, p: Id)
    requires Derived(t, sites) && NoEmptyIds(sites) && p != page
    ensures DeniedWithinHops(PurgedTables(t, sites, page), user, p) ==> DeniedAfterPurge(t, page, user, p)
    ensures InOneSpace(t.parents, page) ==> (DeniedWithinHops(PurgedTables(t, sites, page), user, p) <==> DeniedAfterPurge(t, page, user, p))
  {
    var after := PurgedTables(t, sites, page);
    PurgeSplices(t, sites, page);
    PurgeKeepsOtherRestrictions(t, sites, page, user);
    if DeniedWithinHops(after, user, p) {
      var a :| a in DeniedBase(after, user) && a in WalkedAncestors(after.parents, p);
      WalkAfterPurge(t.parents, page, p, a);
    }
    if InOneSpace(t.parents, page) && DeniedAfterPurge(t, page, user, p) {
      var a :| a in DeniedBase(t, user) && a != page && (a in WalkedAncestors(t.parents, p) || Passes(t.parents, page, p, a, MAX_HOPS + 1));
      WalkAfterPurge(t.parents, page, p, a);
    }
  }

  /** Grants on the remaining pages stay, and so do their own edit restrictions. */
  lemma PurgeKeepsGrants(t: Tables, sites: map<Id, Site>, page: Id, user: Id, p: Id)
    requires Derived(t, sites) && p != page
    ensures AccessRows(PurgedTables(t, sites, page), user, DocumentResource, p) == AccessRows(t, user, DocumentResource, p)
  {
    var after := PurgedTables(t, sites, page);
    NamedRowsStay(t, sites, page, user, DocumentResource, p);
    forall site: Id
      ensures SitePage(site, p) in after.sitePages <==> SitePage(site, p) in t.sitePages
      ensures NamedRows(after, user, SiteResource, site) == NamedRows(t, user, SiteResource, site)
    {
      SitePagesStay(sites, page, site, p);
      NamedRowsStay(t, sites, page, user, SiteResource, site);
    }
    SameUnion(t, after, user, p);
  }

  lemma SameUnion(t: Tables, after: Tables, user: Id, p: Id)
    requires NamedRows(after, user, DocumentResource, p) == NamedRows(t, user, DocumentResource, p)
    requires forall site: Id :: SitePage(site, p) in after.sitePages <==> SitePage(site, p) in t.sitePages
    requires forall site: Id :: NamedRows(after, user, SiteResource, site) == NamedRows(t, user, SiteResource, site)
    ensures AccessRows(after, user, DocumentResource, p) == AccessRows(t, user, DocumentResource, p)
  {
    forall row
      ensures row in AccessRows(after, user, DocumentResource, p) <==> row in AccessRows(t, user, DocumentResource, p)
    {
      if row in AccessRows(after, user, DocumentResource, p) && row !in NamedRows(after, user, DocumentResource, p) {
        var sp :| sp in after.sitePages && sp.page == p && row in NamedRows(after, user, SiteResource, sp.site);
        assert SitePage(sp.site, p) in t.sitePages;
      }
      if row in AccessRows(t, user, DocumentResource, p) && row !in NamedRows(t, user, DocumentResource, p) {
        var sp :| sp in t.sitePages && sp.page == p && row in NamedRows(t, user, SiteResource, sp.site);
        assert SitePage(sp.site, p) in after.sitePages;
      }
    }
  }

  lemma NamedRowsStay(t: Tables, sites: map<Id, Site>, page: Id, user: Id, resource: ResourceType, id: Id)
    requires resource == DocumentResource ==> id != page
    ensures NamedRows(PurgedTables(t, sites, page), user, resource, id) == NamedRows(t, user, resource, id)
  {
  }

  lemma SitePagesStay(sites: map<Id, Site>, page: Id, site: Id, p: Id)
    requires p != page && forall id :: id in sites ==> sites[id].id == id
    ensures SitePage(site, p) in AllSitePages(PurgedSites(sites, page)) <==> SitePage(site, p) in AllSitePages(sites)
  {
    if site in sites {
      assert SitePage(site, p) in SitePages(PurgedSites(sites, page)[site]) <==> SitePage(site, p) in SitePages(sites[site]);
    }
  }

  lemma EditDeniedStays(t: Tables, sites: map<Id, Site>, page: Id, user: Id, p: Id)
    requires p != page
    ensures p in EditDenied(PurgedTables(t, sites, page), user) <==> p in EditDenied(t, user)
  {
    var after := PurgedTables(t, sites, page);
    AllowedTwice(t, user, p, EditKind);
    AllowedTwice(after, user, p, EditKind);
  }

  /** The single-page verdict after the purge of a page in one space's tree: the role is what the grants gave before, unless an
      ancestor other than the purged page denies the user within the walk, which now goes one hop further through where the page was. */
  lemma VerdictAfterPurge(t: Tables, sites: map<Id, Site>, page: Id, user: Id, p: Id)
    requires Derived(t, sites) && NoEmptyIds(sites) && p != page && user != "" && InOneSpace(t.parents, page)
    ensures var role := AccessRole(PurgedTables(t, sites, page), user, DocumentResource, p);
      role == if PointTop(t, user, p) == 0 || DeniedAfterPurge(t, page, user, p) then None
              else Some(RoleOfRank(if !Exempt(t, user) && p in EditDenied(t, user) then 1 else PointTop(t, user, p)))
  {
    var after := PurgedTables(t, sites, page);
    PurgeKeepsGrants(t, sites, page, user, p);
    EditDeniedStays(t, sites, page, user, p);
    DeniedWithinHopsAfterPurge(t, sites, page, user, p);
    PointRoleByRank(after, user, p);
  }

  /** When the ancestors lay within the walk: a remaining page is hidden exactly when an ancestor other than the purged page denies it. */
  lemma ShallowVerdictAfterPurge(t: Tables, sites: map<Id, Site>, page: Id, user: Id, p: Id)
    requires Derived(t, sites) && NoEmptyIds(sites) && p != page && user != "" && InOneSpace(t.parents, page) && ShallowTree(t.parents, p)
    ensures CapOf(PurgedTables(t, sites, page), Some(user), p) == Hidden
      <==> exists a :: a != page && a in DeniedBase(t, user) && Ancestor(t.parents, p, a)
  {
    CapMeansDeniedWithinHops(PurgedTables(t, sites, page), user, p);
    DeniedWithinHopsAfterPurge(t, sites, page, user, p);
    if DeniedAfterPurge(t, page, user, p) {
      DenierIsAbove(t, page, user, p);
    }
    if a :| a != page && a in DeniedBase(t, user) && Ancestor(t.parents, p, a) {
      assert a in WalkedAncestors(t.parents, p);
    }
  }

  lemma PassIsAncestor(rows: set<ParentRow>, page: Id, x: Id, a: Id, hops: nat)
    requires Passes(rows, page, x, a, hops)
    ensures Ancestor(rows, x, a)
  {
    var up: nat, on: nat :| PassesAt(rows, page, x, a, up, on) && up + on <= hops;
    AncestorTransitive(rows, x, page, a, on);
  }

  lemma DenierIsAbove(t: Tables, page: Id, user: Id, p: Id)
    requires DeniedAfterPurge(t, page, user, p)
    ensures exists a :: a != page && a in DeniedBase(t, user) && Ancestor(t.parents, p, a)
  {
    var a :| a in DeniedBase(t, user) && a != page && (a in WalkedAncestors(t.parents, p) || Passes(t.parents, page, p, a, MAX_HOPS + 1));
    if a in WalkedAncestors(t.parents, p) {
      var depth: nat :| depth <= MAX_HOPS && a in Ancestry(t.parents, p, depth);
    } else {
      PassIsAncestor(t.parents, page, p, a, MAX_HOPS + 1);
    }
  }

  /** Over any page graph: a page whose ancestors lay within the walk is never newly hidden by a purge. */
  lemma ShallowPurgeNeverHides(t: Tables, sites: map<Id, Site>, page: Id, user: Id, p: Id)
    requires Derived(t, sites) && NoEmptyIds(sites) && p != page && user != "" && ShallowTree(t.parents, p)
    requires CapOf(PurgedTables(t, sites, page), Some(user), p) == Hidden
    ensures CapOf(t, Some(user), p) == Hidden
  {
    CapMeansDeniedWithinHops(PurgedTables(t, sites, page), user, p);
    CapMeansDeniedWithinHops(t, user, p);
    DeniedWithinHopsAfterPurge(t, sites, page, user, p);
    DenierIsAbove(t, page, user, p);
    var a :| a != page && a in DeniedBase(t, user) && Ancestor(t.parents, p, a);
    assert a in WalkedAncestors(t.parents, p);
  }

  /** In one space's tree: a purge newly hides a page exactly when nothing denied it within the walk and an ancestor just beyond it,
      reached through the purged page, does. */
  lemma PurgeNewlyHidesExactly(t: Tables, sites: map<Id, Site>, page: Id, user: Id, p: Id)
    requires Derived(t, sites) && NoEmptyIds(sites) && p != page && user != "" && InOneSpace(t.parents, page)
    ensures CapOf(t, Some(user), p) != Hidden && CapOf(PurgedTables(t, sites, page), Some(user), p) == Hidden
      <==> !DeniedWithinHops(t, user, p) && exists a :: a in DeniedBase(t, user) && a != page && Passes(t.parents, page, p, a, MAX_HOPS + 1)
  {
    CapMeansDeniedWithinHops(PurgedTables(t, sites, page), user, p);
    CapMeansDeniedWithinHops(t, user, p);
    DeniedWithinHopsAfterPurge(t, sites, page, user, p);
  }

  // ---------------------------------------------------------------------------------------------
  // Witnesses
  // ---------------------------------------------------------------------------------------------

  /** Two spaces, one page in both: `note` sits under `hub` in one, `hub` under `vault` in the other. */
  function CrossSites(): map<Id, Site> {
    map["a" := Site("a", ["note", "hub"], map[], map["note" := "hub"]),
        "b" := Site("b", ["hub", "vault"], map[], map["hub" := "vault"])]
  }

  function CrossRows(): set<ParentRow> {
    {ParentRow("a", "note", "hub"), ParentRow("b", "hub", "vault")}
  }

  /** `vault` is restricted to somebody else. */
  function CrossTables(): Tables {
    Tables([], {"note", "hub", "vault"}, {"a", "b"}, {}, {}, {}, AllSitePages(CrossSites()),
           {Restriction("vault", ViewKind, UserPrincipal("bob"))}, CrossRows(), ["root"], false)
  }

  lemma CrossSitesRows()
    ensures AllParentRows(CrossSites()) == CrossRows()
  {
    var sites := CrossSites();
    var a, b := sites["a"], sites["b"];
    assert "note" in a.documentIds && "hub" in a.documentIds && "hub" in b.documentIds && "vault" in b.documentIds by {
      assert a.documentIds[0] == "note" && a.documentIds[1] == "hub" && b.documentIds[0] == "hub" && b.documentIds[1] == "vault";
    }
    OneParentRow(a, "note", "hub");
    OneParentRow(b, "hub", "vault");
    assert forall id :: id in sites <==> id == "a" || id == "b";
  }

  lemma OneParentRow(site: Site, child: Id, parent: Id)
    requires site.pageParents == map[child := parent] && child != parent && child in site.documentIds && parent in site.documentIds
    ensures ParentRows(site) == {ParentRow(site.id, child, parent)}
  {
    assert child in site.pageParents && site.pageParents[child] == parent;
    forall row
      ensures row in ParentRows(site) <==> row == ParentRow(site.id, child, parent)
    {
    }
  }

  lemma CrossTablesDerived()
    ensures Derived(CrossTables(), CrossSites()) && NoEmptyIds(CrossSites())
  {
    CrossSitesRows();
    assert CrossSites().Keys == {"a", "b"};
  }

  lemma CrossDenial()
    ensures DeniedBase(CrossTables(), "ada") == {"vault"}
  {
    var t := CrossTables();
    assert Restriction("vault", ViewKind, UserPrincipal("bob")) in t.restrictions;
    assert "ada" != "bob" && "ada" != "root" by {
      assert "ada"[0] == 'a' && "bob"[0] == 'b' && "root"[0] == 'r';
    }
  }

  lemma CrossRowsCut()
    ensures Ancestor(CrossRows(), "note", "vault") && !Ancestor(Spliced(CrossRows(), "hub"), "note", "vault")
  {
    var low, high := ParentRow("a", "note", "hub"), ParentRow("b", "hub", "vault");
    SelfAncestor(CrossRows(), "note");
    AncestorStep(CrossRows(), "note", low);
    AncestorStep(CrossRows(), "note", high);
    assert Spliced(CrossRows(), "hub") == {};
    assert forall depth: nat :: depth > 0 ==> Ancestry({}, "note", depth) == {};
  }

  /** Purging the shared page cuts the cross-space path, and with it the inherited denial: a hidden page becomes visible. */
  lemma CrossSpaceWitness()
    ensures var t, sites := CrossTables(), CrossSites();
      && Derived(t, sites) && NoEmptyIds(sites)
      && "note" in ViewDenied(t, "ada") && "note" !in ViewDenied(PurgedTables(t, sites, "hub"), "ada")
  {
    var t, sites := CrossTables(), CrossSites();
    CrossTablesDerived();
    CrossRowsCut();
    var after := PurgedTables(t, sites, "hub");
    PurgeSplices(t, sites, "hub");
    ViewDeniedIsReachability(t, "ada", "note");
    ViewDeniedIsReachability(after, "ada", "note");
    PurgeKeepsOtherRestrictions(t, sites, "hub", "ada");
    CrossDenial();
  }

  /** One space holding a chain of 258 pages, restricted at its root to somebody else. */
  function DeepPages(): seq<Id> {
    seq(MAX_HOPS + 2, i requires 0 <= i => ChainPage(i))
  }

  function DeepSite(): Site {
    Site("space", DeepPages(), map[], map page | page in DeepPages() && |page| < MAX_HOPS + 2 :: page + "p")
  }

  function DeepSites(): map<Id, Site> {
    map["space" := DeepSite()]
  }

  function DeepTables(): Tables {
    ChainTables().(sites := {"space"}, sitePages := AllSitePages(DeepSites()),
                   restrictions := {Restriction(ChainPage(MAX_HOPS + 1), ViewKind, UserPrincipal("bob"))})
  }

  lemma ChainPageAt(i: nat)
    ensures |ChainPage(i)| == i + 1 && ChainPage(i) + "p" == ChainPage(i + 1) && ChainPage(i) != ChainPage(i + 1)
  {
    assert |ChainPage(i + 1)| == i + 2;
  }

  lemma DeepPagesAre(page: Id) returns (i: nat)
    requires page in DeepPages()
    ensures i < MAX_HOPS + 2 && page == ChainPage(i)
  {
    i :| 0 <= i < |DeepPages()| && DeepPages()[i] == page;
  }

  lemma DeepPageIsListed(i: nat)
    requires i < MAX_HOPS + 2
    ensures ChainPage(i) in DeepPages()
  {
    assert DeepPages()[i] == ChainPage(i);
  }

  lemma DeepSiteRows()
    ensures ParentRows(DeepSite()) == Chain(MAX_HOPS + 1) && "" !in DeepPages()
  {
    var site := DeepSite();
    forall i: nat | i < MAX_HOPS + 1
      ensures Link(i) in ParentRows(site)
    {
      DeepPageIsListed(i);
      DeepPageIsListed(i + 1);
      ChainPageAt(i);
      assert site.pageParents[ChainPage(i)] == ChainPage(i + 1);
    }
    forall row | row in ParentRows(site)
      ensures row in Chain(MAX_HOPS + 1)
    {
      var i := DeepPagesAre(row.child);
      ChainPageAt(i);
      assert row == Link(i);
    }
    if "" in DeepPages() {
      var i := DeepPagesAre("");
      ChainPageAt(i);
    }
  }

  lemma DeepTablesDerived()
    ensures Derived(DeepTables(), DeepSites()) && NoEmptyIds(DeepSites())
  {
    var sites := DeepSites();
    DeepSiteRows();
    assert sites.Keys == {"space"} && sites["space"] == DeepSite();
    assert AllParentRows(sites) == ParentRows(DeepSite());
  }

  /** The first hop of a path. */
  lemma {:induction false} PathStartsAt(rows: set<ParentRow>, x: Id, y: Id, a: Id, depth: nat)
    requires Ancestry(rows, x, 1) == {y} && a in Ancestry(rows, x, depth + 1)
    ensures a in Ancestry(rows, y, depth)
    decreases depth
  {
    if depth == 0 {
    } else {
      var row :| row in rows && row.child in Ancestry(rows, x, depth) && row.parent == a;
      PathStartsAt(rows, x, y, row.child, depth - 1);
    }
  }

  lemma DeepChainPasses()
    ensures Passes(Chain(MAX_HOPS + 1), ChainPage(1), ChainPage(0), ChainPage(MAX_HOPS + 1), MAX_HOPS + 1)
  {
    var n := MAX_HOPS + 1;
    ChainAncestry(n, n);
    ChainAncestry(n, 1);
    PathStartsAt(Chain(n), ChainPage(0), ChainPage(1), ChainPage(n), MAX_HOPS);
    assert PassesAt(Chain(n), ChainPage(1), ChainPage(0), ChainPage(n), 1, MAX_HOPS);
  }

  /** Purging the second page of the chain brings the root within the walk: the first page was shown and is hidden afterwards. */
  lemma DeepPurgeWitness()
    ensures var t, sites := DeepTables(), DeepSites();
      && Derived(t, sites) && NoEmptyIds(sites) && InOneSpace(t.parents, ChainPage(1))
      && CapOf(t, Some("ada"), ChainPage(0)) != Hidden
      && CapOf(PurgedTables(t, sites, ChainPage(1)), Some("ada"), ChainPage(0)) == Hidden
  {
    var t, sites, root := DeepTables(), DeepSites(), ChainPage(MAX_HOPS + 1);
    DeepTablesDerived();
    DeepDenial();
    ChainRootIsOutOfReach();
    DeepChainPasses();
    ChainPageAt(0);
    assert |root| == MAX_HOPS + 2 && |ChainPage(1)| == 2;
    PurgeNewlyHidesExactly(t, sites, ChainPage(1), "ada", ChainPage(0));
  }

  lemma DeepDenial()
    ensures DeniedBase(DeepTables(), "ada") == {ChainPage(MAX_HOPS + 1)}
  {
    var t, root := DeepTables(), ChainPage(MAX_HOPS + 1);
    assert Restriction(root, ViewKind, UserPrincipal("bob")) in t.restrictions;
    assert RestrictionAllowed(t, "ada", ViewKind) == {} ;
  }
}
