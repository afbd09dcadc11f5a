# A verified model of Noma Cloud

Noma Cloud is a self-hosted wiki server: pages of `.noma` source in spaces, with page restrictions, two-way sync to a
directory of files, templates, live editing, chat, retrieval over all pages, and diffs for review. This project models the
parts of it that keep state or promise an invariant, and proves what they promise. `dafny verify dfyconfig.toml` checks it.

One file models one part:

| file | what it models |
|---|---|
| `Restrictions.dfy`, `Roles.dfy` | who may see a page: the listing query (grants minus a downward closure of denied pages) and the single-page check (an upward walk bounded by 256 hops); what the roles of both are in terms of the grants |
| `PageTree.dfy` | permanently deleting a page: re-hanging its children, space by space, and what that does to inherited denials |
| `Revisions.dfy` | the hash-checked write of a page and its numbered revisions |
| `Frontmatter.dfy`, `HandEdits.dfy`, `Json.dfy`, `Text.dfy` | stamping sync keys into a source's frontmatter and reading them back, also when edited by hand |
| `Sync.dfy`, `SyncSafety.dfy`, `SyncReport.dfy`, `SyncOptions.dfy`, `SyncTree.dfy`, `SyncFixpoint.dfy`, `SyncWitness.dfy` | one sync run between a directory and a server others write to, with requests that may fail; that it loses no edit; what its options forbid and its report tells; what its files say and in which order pages are made; when a second run is idle |
| `Templates.dfy`, `TemplateSafety.dfy`, `TemplateValues.dfy`, `TemplateYaml.dfy`, `DirectiveBlocks.dfy` | filling placeholders line by line; that no value changes the structure; what arrives of a value; how values read back in the frontmatter; which directive lines keep their attributes to themselves |
| `Relay.dfy` | live editing: store, apply, pass on, acknowledge; compaction, unloading, external merges, crashes |
| `Awareness.dfy` | the byte codec of awareness frames and the rewriting that stops spoofing |
| `ChatLog.dfy` | numbered messages and a reader that polls |
| `ChatRetention.dfy` | the one-pass retention purge over threads |
| `EventLog.dfy` | events fanned out to several processes through a shared, pruned log |
| `IndexCache.dfy` | the retrieval index and the least-recently-used cache in front of its table |
| `Scores.dfy`, `Ranking.dfy`, `Results.dfy` | cosine similarity, retrieval scores, citations and answer confidence; what each result and citation is, block by block |
| `CanvasDiff.dfy`, `CanvasChanges.dfy` | the change list between two canvas documents, and what each entry of it tells |
| `AttrDiff.dfy` | the attribute changes between two parsed documents |
| `Wrappers.dfy`, `Numbers.dfy` | options and results; increasing lists of row numbers |

SQL tables are maps, sets and sequences, and a transaction is one step. Objects whose methods update fields are classes; their
methods are proved equal to functions on the state, and the properties are proved about those functions, over whole runs where
the source is a protocol. SHA-256 is an injective function, a shared Yjs document is the set of updates applied to it, numbers
in scores are real, times are integers, and a string is a sequence of characters.

## What was found

Some promises hold only under a condition the source does not check. Each is proved with its exact condition, or with an input
on which it fails beside the guard under which it holds.

- Listing and single-page check differ for a page whose only denying ancestors lie more than 256 hops away: the listing hides
  it, the check grants it. While grants name existing records, they agree exactly otherwise (`ListingAgreesWithPointCheck`,
  `DeepTreesDisagree`, `DeepChainWitness`; `FormsAgreeExactly` for any tables).
- Purging a page shortens the paths through it, so a denying ancestor just beyond the single-page check's walk comes within it:
  a page that was shown is hidden afterwards (`DeepPurgeWitness`). `PurgeNewlyHidesExactly` says exactly when; it never happens
  to a page whose ancestors lay within 256 hops (`ShallowPurgeNeverHides`), nor in a listing (`PurgeNeverHidesFromListing`).
- Purging a page that connects two spaces' trees can cut an inherited denial, and a hidden page becomes visible; it does not
  exactly when every such crossing keeps a detour (`PurgeKeepsAncestors`, `CrossSpaceWitness`).
- A source whose frontmatter block is empty, ends with the file, or already holds a sync key does not survive stamping and
  stripping (`StripInvertsStamp`, `UnfaithfulWitnesses`); `WriteSettlesExactlyWhenFaithful` says what sync makes of it.
- The server adds ids to tasks when it stores a source (`src/cloud/tasks.ts`), so a page with new tasks is stored differently
  from the pushed body, while the file keeps the body under the new hash. A second run is idle exactly when the server kept
  every page the first one pushed or created as it was sent (`SecondRunIsIdleExactlyWhenKept`). A page with a new task is pushed
  again by every run, although nobody edited it (`NewTaskWitness`, `UnkeptPageIsPushedByEveryRun`).
- A value that begins with a colon, placed right behind a directive's colons, changes the directive's depth. A directive is
  safe under every choice of values exactly when no known placeholder stands there (`DirectiveDepth`, `ColonDeepens`,
  `DepthIsKeptForAllValues`).
- A value at the first brace of a directive line goes in as it is, so it can bring attributes with it: `::claim {{x}}` becomes
  `::claim {id=other}`. Such a line has the template's own braces and no others under every choice of values exactly when its
  first brace is no known placeholder's (`BracesAreKeptForAllValues`, `BlockBeginsAsWritten`, `AttributesGetIn`).
- The frontmatter's quotes are counted without regard to backslashes. Behind an escaped quote a value gets quotes of its own, and the
  first of them ends the string it stands in (`EscapedQuoteWitness`). In a line written without backslashes every value stays in
  its string, whatever it is (`FrontmatterQuotingIsKept`).
- A checkpoint scheduled while an empty room's final checkpoint still runs outlives the room. When it ends after the page was
  opened again, it snapshots the old room over the page's rows and drops the updates stored since; a crash then loses updates
  that were acknowledged (`LateCheckpointLosesUpdate`). Over every run, all acknowledged updates are stored after every step
  exactly when no such checkpoint ends after an update its room lacks was acknowledged since the unload
  (`AcknowledgedAreStoredExactly`).
- An indexing call that fails half way, because an attachment's text cannot be loaded or the database fails, rolls the table
  back but not the cache. Reads then differ from the table exactly when the call had indexed something the table did not hold
  (`FailureShowsExactly`, `FailedCallLeavesStaleBlocks`).
- Two of the four grounds for an insufficient answer never occur (`AnswerIsNeverOverconfident`).
- A field named `__proto__` can hide a difference between canvas documents. Two values have the same structure exactly when
  they compare equal and no such field is one-sided (`SameStructureExactly`); adding one to an object goes unnoticed exactly
  when its value looks like the runtime's base object (`ProtoIsHiddenExactly`, `InheritedNameHidesChange`).
- An attribute whose new value is literally `(absent)` is not restored by the emitted changes
  (`ApplyingRestoresAttributes`, `AbsentValueWitness`).

## Model

| member | source | states |
|---|---|---|
| Restrictions.DocumentRestrictionCap | src/cloud-db.ts:3500-3524 | the loop over restriction rows gives `hidden` for any failed view row of a walked ancestor, else `viewer` for a failed edit row, else no cap, whatever the order of rows |
| Restrictions.UnknownUserCap | src/cloud-db.ts:3500-3524 | whoever has no user id is admitted by no restriction: any view restriction on a walked ancestor hides the page, or else an edit restriction of its own makes it read-only |
| Restrictions.FirstRow | src/cloud-db.ts:1608-1654 | the row the sorted query returns first is the one no other row precedes |
| Restrictions.ResourceAccess | src/cloud-db.ts:1608-1659 | the point check returns the best grant, capped by restrictions, for any table state |
| Restrictions.ClosureKeepsBase | src/cloud-db.ts:1444-1453 | every page denied by its own restriction is in the recursive closure |
| Restrictions.ClosureIsBelowBase | src/cloud-db.ts:1444-1453 | everything in the closure has a denied page among its ancestors |
| Restrictions.BelowClosureIsInClosure | src/cloud-db.ts:1444-1453 | every page with an ancestor in the closure is in it, at any depth and over cycles |
| Restrictions.ViewDeniedIsReachability | src/cloud-db.ts:1444-1453 | the top-down fixpoint denies a page exactly when some ancestor is denied to a user who is not exempt |
| Restrictions.AllowedTwice | src/cloud-db.ts:3585-3598 | the query's set of allowed restrictions and the single check of one restriction agree |
| Restrictions.CapMeansDeniedWithinHops | src/cloud-db.ts:3500-3524 | the bottom-up walk hides a page exactly when a denied ancestor lies within the hops it walks |
| Restrictions.GrantedRankMatches | src/cloud-db.ts:1460-1521 | the listing's best rank over all grants is the point check's, for owners, members, groups and space grants |
| Restrictions.ListingAgreesWithPointCheck | src/cloud-db.ts:1421-1521 | listing and point check give the same role exactly unless the page is denied only by ancestors beyond the walk |
| Restrictions.ShallowTreesAgree | src/cloud-db.ts:1608-1659 | on any page graph, cyclic or not, whose ancestors lie within 256 hops they always agree |
| Restrictions.DeepTreesDisagree | src/cloud-db.ts:3500-3524 | a restriction on any ancestor beyond the walk separates them |
| Restrictions.FormsAgreeExactly | src/cloud-db.ts:1421-1521 | for any tables, grants on missing records included: the two roles agree exactly below a denial the walk sees, below one it does not see when nothing is granted, and elsewhere when both see the same top rank or an edit restriction levels the two |
| Restrictions.DeepChainWitness | src/cloud-db.ts:3500-3524 | a chain of pages deep enough shows the disagreement |
| Restrictions.DanglingGrantWitness | src/cloud-db.ts:1608-1659 | a grant on a missing page, which the purge does not leave behind, would be seen by the point check only |
| Restrictions.EmptyUserAgreesExactly | src/cloud-db.ts:3516-3519 | for the empty user id, which no user has: when the listing, for which it is a user, and the point check, for which it is nobody, agree |
| Restrictions.EmptyUserWitness | src/cloud-db.ts:3516-3519 | tables outside that condition |
| Roles.SpaceRoleIsBestGrant | src/cloud-db.ts:1608-1659 | on a space the check gives the best role granted by name, to the user or a group of theirs, and nothing if none is |
| Roles.PageRoleIsBestGrant | src/cloud-db.ts:1608-1659 | on a page: nothing below a hiding restriction, viewing below an edit restriction to whoever was granted anything, else the best role granted on the page or a space that lists it |
| Roles.FirstGrantIsNamed | src/cloud-db.ts:1608-1654 | the grant named with the role has the top role, is the user's own if one is, and else of the group first by code units |
| Roles.ListedRoleIsBestGrant | src/cloud-db.ts:1456-1521 | a listing shows a page unless a restriction above it denies the user, in the best role granted on existing records, and to view only when an edit restriction leaves the user out |
| Roles.OnlyAdministratorsAreExempt | src/cloud-db.ts:1421-1453 | in both forms restrictions bind whomever they leave out unless they are an administrator: on the list, or without one the first registered user where that is enabled |
| PageTree.CloudDatabase.ReplacePageParents | src/cloud-db.ts:3600-3607 | the space's parent rows become exactly those its record names between its own pages; other spaces' rows stay |
| PageTree.CloudDatabase.WriteSite | src/cloud-db.ts:1778-1803 | writing a space record replaces that space's derived rows and no other's |
| PageTree.CloudDatabase.PurgeDocument | src/cloud-db.ts:1883-1906 | only a trashed page is purged; every space loses it and every derived table still follows the records |
| PageTree.PurgeSplicesOneSpace | src/cloud-db.ts:5424-5435 | editing a space record joins each child of the page to the page's parent and drops the page's rows, for well-formed records or not |
| PageTree.PurgeSplices | src/cloud-db.ts:1883-1906 | the same for the whole table at once, however many spaces share the page |
| PageTree.PurgeKeepsTheRest | src/cloud-db.ts:5424-5435 | a purge leaves every other page of a space in its folder and its place in the list, and a space without the page as it was |
| PageTree.PurgeMovesChildrenUp | src/cloud-db.ts:5424-5435 | in a space's record a child of the page comes under the page's parent, or to the top when it has none; others keep theirs |
| PageTree.PurgeTakesExactlyThePage | src/cloud-db.ts:1883-1906 | a purge takes the page and every row naming it, no row about anything else but the page tree, and keeps the derived tables in step |
| PageTree.WriteSiteKeepsDerived | src/cloud-db.ts:1778-1803 | writing a space's record keeps the derived tables in step with all records |
| PageTree.SplicedPathsAreOldPaths | src/cloud-db.ts:5424-5435 | a purge makes no page an ancestor that was not one |
| PageTree.OldPathsAreSplicedPaths | src/cloud-db.ts:5424-5435 | an old path between other pages survives when crossings keep a detour |
| PageTree.PurgeKeepsAncestors | src/cloud-db.ts:1883-1906 | the ancestor relation between the remaining pages is unchanged exactly when every path that entered in one space and left in another keeps a detour |
| PageTree.OneSpaceHasNoCrossings | src/cloud-db.ts:1883-1906 | for a page in one space's tree the ancestor relation is always unchanged |
| PageTree.PurgeKeepsAcyclic | src/cloud-db.ts:5424-5435 | an acyclic page graph stays acyclic |
| PageTree.PurgeKeepsOtherRestrictions | src/cloud-db.ts:1883-1906 | a purge removes the page's own restriction and no other page's |
| PageTree.PurgeNeverHidesFromListing | src/cloud-db.ts:1883-1906 | no remaining page becomes hidden in a listing, over any page graph |
| PageTree.ListingLosesOnlyOwnRestriction | src/cloud-db.ts:1883-1906 | when crossings keep a detour, a remaining page is hidden in a listing afterwards exactly when an ancestor other than the purged page denies it |
| PageTree.SplicingLengthensNoPath | src/cloud-db.ts:5424-5435 | in one space no ancestor moves further away, and what lay behind the purged page comes nearer |
| PageTree.SplicedPathLength | src/cloud-db.ts:5424-5435 | over any graph a path after the purge is an old path of its length, or one through the purged page that was one hop longer |
| PageTree.WalkAfterPurge | src/cloud-db.ts:3500-3524 | the bounded walk reaches afterwards what it reached before and, in one space exactly, what lay one hop further through the purged page |
| PageTree.PurgeKeepsGrants | src/cloud-db.ts:1883-1906 | every grant on a remaining page, direct or through a space, stays |
| PageTree.VerdictAfterPurge | src/cloud-db.ts:1608-1659 | the single-page role after the purge: what the grants gave before, unless another page denies it within that walk |
| PageTree.ShallowVerdictAfterPurge | src/cloud-db.ts:3500-3524 | when the ancestors lay within 256 hops, a remaining page is hidden exactly when an ancestor other than the purged page denies it |
| PageTree.ShallowPurgeNeverHides | src/cloud-db.ts:3500-3524 | over any page graph such a page is never newly hidden |
| PageTree.PurgeNewlyHidesExactly | src/cloud-db.ts:3500-3524 | a purge newly hides a page exactly when nothing denied it within the walk and an ancestor one hop beyond, behind the purged page, does |
| PageTree.DeepPurgeWitness | src/cloud-db.ts:3500-3524 | a space with a chain of 258 pages in which a purge hides a page that was shown |
| PageTree.CrossSpaceWitness | src/cloud-db.ts:5424-5435 | a page shared by two spaces whose purge takes a hidden page out of the denied ones |
| Revisions.DocumentTable.WriteDocument | src/cloud-db.ts:1706-1752 | a write with an expected hash is refused unless the head has it; an accepted one sets the head and appends the next revision |
| Revisions.WriteKeepsSound | src/cloud-db.ts:1706-1752 | revisions stay numbered 1 to n with the last equal to the head |
| Revisions.WriteReplacesOnlyTheExpected | src/cloud-db.ts:1706-1752 | a write that names a source by its hash is accepted exactly when that source is the head's; the history only grows and keeps it |
| Revisions.AcceptedWriteIsStored | src/cloud-db.ts:1706-1752 | in every state of the tables: a write is refused exactly when it names a hash the head does not have; an accepted one is the head, leaves every other page alone and adds itself to the history unless it changes nothing |
| Json.QuoteReads | src/cloud-git-sync.ts:541-549 | reading a printed JSON string gives it back, for every string |
| Json.ArrayReads | src/cloud-git-sync.ts:581-588 | reading a printed array of strings gives it back |
| Frontmatter.StripSyncFrontmatter | src/cloud-git-sync.ts:551-569 | the stripping loop computes the keys and the source that the specification reads |
| Frontmatter.SplitOfAssembled | src/cloud-git-sync.ts:571-579 | splitting an assembled frontmatter gives its lines and body back |
| Frontmatter.SplitParts | src/cloud-git-sync.ts:571-579 | what a split finds, put together again, is the source |
| Frontmatter.KeyLinesRead | src/cloud-git-sync.ts:541-549 | the printed key lines read back as exactly the keys |
| Frontmatter.StripInvertsStamp | src/cloud-git-sync.ts:541-569 | stripping a stamped source gives the keys and the source back exactly when the source's own frontmatter is not empty, not open-ended and holds no sync key |
| Frontmatter.UnfaithfulIsSeen | src/cloud-git-sync.ts:551-569 | outside that domain the body that comes back differs |
| Frontmatter.UnfaithfulWitnesses | src/cloud-git-sync.ts:571-579 | one source of each of the three excluded kinds |
| HandEdits.AnyFrontmatterIsRead | src/cloud-git-sync.ts:551-579 | whatever stands in a frontmatter: each key is read from the last line that starts with it, all other lines stay in order, and a source without any key is not touched |
| HandEdits.QuotesAreOptional | src/cloud-git-sync.ts:565 | a key's value may stand in quotes of either kind or without |
| Sync.SyncSpace | src/cloud-git-sync.ts:252-397 | the run's loops over pages and files compute exactly the specified directory, server, actions and failure, for any interleaving with other writers and any requests that are lost or whose replies are |
| SyncReport.PutAnswers | src/cloud-db.ts:1706-1752 | a PUT is an error for an empty source or an unknown page, a conflict on another head, and else sets the head to what the server keeps and no other |
| SyncReport.ThreeWayTable | src/cloud-git-sync.ts:299-346 | what a page with a file comes to by who changed since the last sync: nobody, both alike, the page, the file, or both |
| SyncReport.PushConflictsExactly | src/cloud-git-sync.ts:336-343 | a push is a conflict exactly when the server's head by then is not the one the file last synced with |
| SyncReport.NewPageReports | src/cloud-git-sync.ts:280-297 | a page without a file is pulled to its path, unless a scanned file lies there: that is a conflict and the path is blocked |
| SyncReport.LeftoverReports | src/cloud-git-sync.ts:352-381 | a file no page claims is left at a blocked path, reported when its page is missing, and becomes a page when it names none |
| SyncSafety.RunReplacesOnlySyncedRevisions | src/cloud-git-sync.ts:275-380 | over every schedule of other writers and failing requests: histories stay sound, every revision the client replaced is the one its file last synced with, and the new one is what the server makes of that file's body |
| SyncSafety.PutGrows | src/cloud-git-sync.ts:330-343 | a hash-checked push replaces nothing but the expected revision, with the sent source as the server stores it |
| SyncSafety.OtherWriteGrows | src/cloud-db.ts:1706-1752 | other writers keep histories sound and never count as the client's replacements |
| SyncSafety.ManifestIsDistinct | src/cloud-git-sync.ts:252-274 | whatever pages the server lost or changed meanwhile, a manifest over slots with distinct ids and paths has distinct ids and paths and the current hashes |
| SyncSafety.PagesKeep | src/cloud-git-sync.ts:275-347 | after any number of page steps every scanned body is in its file, or equal to its base or the server's |
| SyncSafety.FilesKeep | src/cloud-git-sync.ts:349-381 | creating pages for leftover files keeps every body |
| SyncSafety.NoLocalEditIsLost | src/cloud-git-sync.ts:252-397 | over every schedule of other writers and failing requests, and wherever the run ends: every edited body is still in the directory, in its untouched file or under fresh keys |
| SyncOptions.DryRunOnlyReports | src/cloud-git-sync.ts:252-386 | over every schedule a dry run makes one request, for the manifest; directory and conflict copies stay, and the server is what the other writers made of it |
| SyncOptions.WithoutPushNothingIsSent | src/cloud-git-sync.ts:328-381 | over every schedule, without push no change of the client's is in the server's log and no page is reported pushed or created |
| SyncOptions.WithoutPullNothingArrives | src/cloud-git-sync.ts:280-327 | over every schedule, without pull every file is a scanned one or the body of a scanned one under keys, and no page is reported pulled or moved |
| SyncOptions.ReportTellsWhatWasSent | src/cloud-git-sync.ts:252-386 | over every schedule a run sends exactly as many pages as it reports pushed or created; one that ends half-way may have sent one more |
| SyncTree.PulledFileIsThePage | src/cloud-git-sync.ts:317-328 | a pull puts the page as the server has it, with id, hash, parent and labels, where it belongs, takes the file away from where it was, and touches nothing else |
| SyncTree.ConflictCopyIsTheServers | src/cloud-git-sync.ts:388-397 | a conflict leaves the directory alone and puts the server's page beside the file |
| SyncTree.ParentComesFirst | src/cloud-git-sync.ts:349-351 | the file of a directory's own page is made a page before every file in the directory |
| SyncTree.NewPageLiesInItsDirectory | src/cloud-git-sync.ts:369-376 | a new page lies below the parent its file names, or else below its directory's page: the one that file names, that was just made from it, or that the manifest has there |
| SyncFixpoint.KnownPageSettles | src/cloud-git-sync.ts:299-346 | pulling, pushing or converging on a page leaves one file that names the page and its hash, and whose body has that hash unless the server changed what was pushed |
| SyncFixpoint.NewPageSettles | src/cloud-git-sync.ts:280-297 | a page without a file gets one that agrees |
| SyncFixpoint.CreateSettles | src/cloud-git-sync.ts:370-380 | a file without a page becomes a page, stamped with its new id and hash |
| SyncFixpoint.FirstRunSettles | src/cloud-git-sync.ts:252-386 | after an undisturbed pull-and-push run without a conflict every listed and created page has one such file, and every file names a page |
| SyncFixpoint.SettledRunIsIdle | src/cloud-git-sync.ts:252-386 | from a settled directory a run with any options reports only unchanged, moved or missing pages and writes nothing to the server |
| SyncFixpoint.SyncReachesFixpoint | src/cloud-git-sync.ts:252-386 | when the server kept what the run sent, a second run with any options is idle and leaves the server as it is |
| SyncFixpoint.SecondRunIsIdleExactlyWhenKept | src/cloud-git-sync.ts:252-386 | a second run that may push is idle exactly when the server kept every page the first one pushed or created as it was sent |
| SyncFixpoint.StaleRunIsNotIdle | src/cloud-git-sync.ts:299-343 | a run over a page whose file does not have the stored body pushes it, conflicts or fails, whatever comes before it |
| SyncFixpoint.PushSettlesExactlyWhenStored | src/cloud-git-sync.ts:336-339 | the file written after a push agrees with the server exactly when the server stored the body as sent |
| SyncFixpoint.WriteSettlesExactlyWhenFaithful | src/cloud-git-sync.ts:477-482 | a written file settles exactly when its source is in the round-trip domain |
| SyncFixpoint.UnkeptPageIsPushedByEveryRun | src/cloud-git-sync.ts:299-343 | a body the server never keeps as sent is pushed by each of any number of runs, although nobody edits it |
| SyncFixpoint.NewTaskWitness | src/cloud/tasks.ts:22-48 | a page with a new task is pushed by the first run and again by the second |
| SyncWitness.FirstRunWitness | src/cloud-git-sync.ts:252-386 | a directory that holds the file of a page an earlier run created meets the premises of the settling theorems, and the run finds it unchanged |
| Templates.QuoteBefore | src/cloud-templates.ts:328-337 | the scanning loop computes the quote automaton's state |
| Templates.PieceFor | src/cloud-templates.ts:293-304 | what replaces a placeholder depends on frontmatter, attribute block and quote state as specified |
| Templates.FillLine | src/cloud-templates.ts:281-309 | one line's loop and guards compute the specified line |
| Templates.FillLines | src/cloud-templates.ts:258-279 | every line is filled in the context the lines before it set |
| Templates.InstantiateTemplateSource | src/cloud-templates.ts:258-279 | the whole source is the filled lines of the normalised template |
| TemplateSafety.OneLineIsClean | src/cloud-templates.ts:352-358 | a value becomes one line of at most 500 characters without control characters |
| TemplateValues.OneLineKeepsVisible | src/cloud-templates.ts:352-358 | on its way to one line a value loses nothing but white space, control characters and what is beyond 500 characters |
| TemplateValues.NeatValueIsKept | src/cloud-templates.ts:352-358 | a neat value of at most 500 characters arrives as it is |
| TemplateValues.QuotedCharByChar | src/cloud-templates.ts:339-343 | in a quoted attribute a value is kept character by character, but for braces and the quote that would end it |
| TemplateValues.UnquotedKeepsSafeText | src/cloud-templates.ts:339-344 | in an unquoted one a run of spaces, quotes and equals signs becomes one hyphen and the rest is kept |
| TemplateValues.EachPlaceIsFilled | src/cloud-templates.ts:286-305 | at each place stands the template's character, an unknown placeholder as written, or the value of a known one |
| TemplateValues.GuardsKeepTheText | src/cloud-templates.ts:306-308 | a guard adds marks and takes away only white space at the end; a line that keeps its kind gets none |
| TemplateSafety.AttributeValueIsSafe | src/cloud-templates.ts:339-344 | a value in an attribute block holds no brace and no quote that would end its context |
| TemplateSafety.GuardedKind | src/cloud-templates.ts:296-309 | a guarded line has its neutral kind or is plain text, and a heading gains no attribute block |
| TemplateSafety.FilledNomaIsNoDelimiter | src/cloud-templates.ts:281-309 | no filled body line becomes a frontmatter delimiter |
| TemplateSafety.FilledYamlIsNoDelimiter | src/cloud-templates.ts:346-350 | no filled frontmatter line becomes a delimiter |
| TemplateYaml.FrontmatterValueReadsBack | src/cloud-templates.ts:346-350 | whatever a value is, it reads back exactly: in an open double or single quote up to the quote that closes it, otherwise as a string of its own |
| TemplateYaml.FrontmatterQuotingIsKept | src/cloud-templates.ts:281-350 | in a frontmatter line without backslashes no value ends or opens a string: every template character is read where the template's quotes put it |
| TemplateYaml.EscapedQuoteWitness | src/cloud-templates.ts:328-350 | behind an escaped quote the value's own quotes end the string it stands in |
| TemplateSafety.FilledFence | src/cloud-templates.ts:281-309 | a filled line opens or closes a fence exactly when the template line does |
| TemplateSafety.SameRegions | src/cloud-templates.ts:258-279 | reading the result and reading the template are in the same frontmatter and fence state at every line |
| TemplateSafety.FillingKeepsStructure | src/cloud-templates.ts:230-309 | for all templates and values: same line count, same regions, each body line of its neutral kind or plain text, no heading with a new attribute block |
| TemplateSafety.PieceKeepsQuote | src/cloud-templates.ts:339-344 | a substituted attribute value has no brace and leaves the quote automaton where it was |
| TemplateSafety.QuotingIsKept | src/cloud-templates.ts:281-344 | every template character of a block a literal brace opens is read in the quote state it had before filling |
| TemplateSafety.HeadingKeepsLevel | src/cloud-templates.ts:230-249 | a heading that stays a heading keeps its level |
| TemplateSafety.DirectiveDepth | src/cloud-templates.ts:230-249 | a directive keeps its depth exactly when the text filled in right behind its colons does not begin with one |
| TemplateSafety.ColonDeepens | src/cloud-templates.ts:281-309 | the value `:x` right behind the colons makes the directive one deeper |
| TemplateSafety.DepthIsKeptForAllValues | src/cloud-templates.ts:230-309 | a directive keeps its depth under every choice of values exactly when no known placeholder stands right behind its colons |
| DirectiveBlocks.BracesAreKeptForAllValues | src/cloud-templates.ts:281-324 | a directive line has the template's braces and no others under every choice of values exactly when its first brace is no known placeholder's |
| DirectiveBlocks.BlockBeginsAsWritten | src/cloud-templates.ts:311-324 | then colons, name and the place where the attributes begin are the template's, and a line without a brace stays as it is |
| DirectiveBlocks.LastValueIsRaw | src/cloud-templates.ts:293-304 | a directive head followed by one placeholder becomes the head and the value, whatever the value is |
| DirectiveBlocks.AttributesGetIn | src/cloud-templates.ts:281-324 | `::claim {{x}}` with the value `{id=other}` |
| Relay.CloudDatabase.ReadCollabRoom | src/cloud-db.ts:3991-4007 | the snapshot and the updates stored since are read back |
| Relay.CloudDatabase.AppendCollabUpdate | src/cloud-db.ts:4010-4021 | an update is stored behind the others under the next number |
| Relay.CloudDatabase.WriteCollabSnapshot | src/cloud-db.ts:4024-4039 | the snapshot replaces the room row and drops the updates it holds |
| Relay.Broadcast | src/cloud-collab.ts:358-359 | a frame goes to every client but the excepted one |
| Relay.CloudCollabHub.OpenRoom | src/cloud-collab.ts:408-446 | a room is loaded from snapshot and updates or started from the source, merged with a changed source, and snapshotted |
| Relay.CloudCollabHub.MergeExternal | src/cloud-collab.ts:466-471 | an outside edit is stored, applied, told to all clients and compacted |
| Relay.CloudCollabHub.Join | src/cloud-collab.ts:279-316 | a full room or a client id in use is refused; a joiner's first frame is the whole document |
| Relay.CloudCollabHub.HandleUpdate | src/cloud-collab.ts:336-367 | refusals change nothing; an accepted update is stored, applied, passed on and acknowledged, in that order, then maybe compacted |
| Relay.CloudCollabHub.Leave | src/cloud-collab.ts:380-388 | a leaving client is removed and nothing else changes |
| Relay.CloudCollabHub.Unload | src/cloud-collab.ts:389-399 | an empty room is snapshotted and forgotten, except by a checkpoint scheduled meanwhile |
| Relay.CloudCollabHub.EndLateCheckpoint | src/cloud-collab.ts:498-546 | such a checkpoint snapshots the room it was scheduled for, whatever has happened since, if that room knows an editor to save for |
| Relay.CloudCollabHub.DocumentWritten | src/cloud-collab.ts:474-488 | only a source the room does not have yet is merged |
| Relay.LateCheckpointIsHarmlessExactly | src/cloud-collab.ts:498-546 | a late checkpoint keeps the rooms right and loses nothing stored exactly when all that is stored is in its room and a room opened since holds the same, in a snapshot |
| Relay.PromptCheckpointIsOnTime | src/cloud-collab.ts:389-399 | right after the unload it is on time |
| Relay.LateCheckpointLosesUpdate | src/cloud-collab.ts:474-546 | a run of two editors in which a late checkpoint and a crash lose the second one's acknowledged update |
| Relay.StepIsSound | src/cloud-collab.ts:346-546 | every step, crashes included, keeps each client in agreement with its room and the rooms within the compaction limit; with late checkpoints on time each room also equals what is stored, which grows by exactly what the step contributes |
| Relay.RunIsSound | src/cloud-collab.ts:346-546 | so after every run, and with late checkpoints on time after every run of those |
| Relay.RetiredWasUnloaded | src/cloud-collab.ts:389-399 | every room a checkpoint outlives was unloaded, empty, at some step of the run |
| Relay.LateCheckpointDropsExactly | src/cloud-collab.ts:498-546 | a late checkpoint drops an acknowledged update exactly when one its room lacks was acknowledged since the unload that left it behind |
| Relay.AcknowledgedAreStoredExactly | src/cloud-collab.ts:346-546 | over every run, every acknowledged update is stored after each step exactly when no late checkpoint ends after an acknowledgement, since its unload, that its room lacks |
| Relay.AcknowledgedUpdatesAreReloaded | src/cloud-collab.ts:300-446 | after every such run, with crashes, compactions, merges and unloads, whoever joins finds every acknowledged update in the room and in the first frame |
| Relay.UndisturbedCheckpointIsOnTime | src/cloud-collab.ts:498-546 | a late checkpoint is on time when, since the unload, nobody opened its page and no other checkpoint of it ended |
| Relay.UndisturbedRunIsOnTime | src/cloud-collab.ts:498-546 | so late checkpoints are on time in every run that leaves such pages alone meanwhile |
| Relay.ClientsShowTheDocument | src/cloud-collab.ts:300-367 | after every run, what a client was sent, with its own acknowledged updates, is exactly the room's document; with late checkpoints on time also exactly what is stored |
| Relay.EachHearsOneFrame | src/cloud-collab.ts:336-361 | in every state a sender hears one frame, an acknowledgement exactly when the update was accepted, by then in the room and stored; every other client hears an accepted update once |
| Relay.AnswerToMessage | src/cloud-collab.ts:336-367 | in every state: a viewer hears `read_only`, an editor without a readable update `bad_update`, one without space in the room `room_full`, and nothing else happens; everyone else is acknowledged, with the update in the document and stored |
| Relay.AcknowledgedWasAllowed | src/cloud-collab.ts:336-361 | over every run an acknowledged update was sent by a client that could edit when it sent it |
| Relay.ViewerChangesNothing | src/cloud-collab.ts:338-341 | a message of a client that is read-only when it sends it adds nothing to what is acknowledged or stored |
| Relay.RightsWereGranted | src/cloud-collab.ts:568-602 | after every run a client has the right it was last given, on joining or when its access was last checked |
| Relay.JoinLetsIn | src/cloud-collab.ts:279-316 | a full room or a taken id lets nobody in; who joins hears the whole document and its right, and nobody else hears anything |
| Relay.ConnectedStays | src/cloud-collab.ts:336-399 | a client stays connected, and what was sent to it stays sent, until it leaves or the process ends |
| Relay.RoomsAreNotOverfull | src/cloud-collab.ts:279-300 | after every run a room has at most as many clients as its limit |
| Relay.OutsideWriteIsMerged | src/cloud-collab.ts:466-488 | a write from outside is merged, told and saved exactly when the room does not have its source yet, and else changes nothing |
| Relay.ServerEditIsStored | src/cloud-collab.ts:438-444 | an edit of the server's is stored before anything else comes of it, and counts towards what is pending |
| Relay.CheckpointIsSaved | src/cloud-collab.ts:498-546 | a checkpoint of an open room that knows an editor leaves the ids filled in, told and saved; of any other room, nothing |
| Relay.LateCheckpointIsSaved | src/cloud-collab.ts:498-546 | a checkpoint of an unloaded room saves that room over the page's rows if it knows an editor, lives on with it, and touches no open room |
| Relay.UnloadIsSaved | src/cloud-collab.ts:389-399 | a room is unloaded exactly when its last client has left, saved as it was; a checkpoint still to come keeps hold of it |
| Relay.EditorIsKnown | src/cloud-collab.ts:408-460 | a room knows an editor from its first accepted update, or from the start when opened with stored updates whose last author may still edit |
| Relay.PendingIsBounded | src/cloud-collab.ts:366-367 | after every run, what is stored of an open page since its last snapshot never exceeds the compaction limit |
| Awareness.ReadVarUint | src/cloud-collab.ts:691-702 | the reading loop computes the number, or refuses a truncated or too long one, inside the buffer |
| Awareness.VarUintReads | src/cloud-collab.ts:691-702 | a printed number reads back when it fits the digits left and is refused otherwise |
| Awareness.DecodeAwareness | src/cloud-collab.ts:689-720 | decoding is total and computes the specified entries |
| Awareness.EncodeAwareness | src/cloud-collab.ts:722-741 | the writing loops compute the specified bytes |
| Awareness.DecodedEncoding | src/cloud-collab.ts:689-741 | for every codec of states and every list: decoding an encoded list of at most 64 entries gives each entry as the codec reads it again, or refuses the frame when one does not read; longer lists are refused |
| Awareness.RoundTrip | src/cloud-collab.ts:689-741 | for every codec and every list: it comes back exactly when it has at most 64 entries, all ids and clocks are below 2^56 and each state reads back from its text |
| Awareness.RoundTripWitness | src/cloud-collab.ts:689-741 | a codec and a list that comes back, and lists that a number or a lossy text keeps from coming back |
| Awareness.DecodedIsInRange | src/cloud-collab.ts:689-720 | any bytes decode to at most 64 entries with numbers below 2^56, or are refused |
| Awareness.RewriteAwareness | src/cloud-collab.ts:673-687 | oversized frames, unreadable frames and frames without an own entry are dropped; otherwise the own entries are encoded under the known identity |
| Awareness.OnlyTheUserIsRewritten | src/cloud-collab.ts:673-687 | what is passed on are the sender's own entries, all and in order, with nothing changed but the user in each state; nothing is, exactly when the frame is too long, unreadable or without an own entry |
| Awareness.RewrittenFrameSpeaksForItsSender | src/cloud-collab.ts:673-687 | under any codec whatever, others decode from a rewritten frame either nothing or one entry of the sender's id for each of its own, with its clock |
| Awareness.RewrittenFrameIsTheSendersOwn | src/cloud-collab.ts:673-687 | what others decode is exactly the sender's own entries, in order, each under the identity the server knows, exactly when their states read back from their texts |
| Awareness.RewriteWitness | src/cloud-collab.ts:673-687 | a frame with the sender's entry and another client's comes out with the sender's alone |
| ChatLog.CloudChatStore.PostMessage | src/cloud-chat.ts:370-391 | a post takes its channel's next number, or fails and changes nothing |
| ChatLog.CloudChatStore.ListMessages | src/cloud-chat.ts:402-424 | a page holds the lowest matching numbers above the given one, ascending, up to the limit |
| ChatLog.CloudChatStore.DeleteRows | src/cloud-chat.ts:663-666 | removing rows leaves the channels' last numbers as they are |
| ChatLog.RunFits | src/cloud-chat.ts:370-424 | over any interleaving the table and the reader stay in step with the history of posts |
| ChatLog.PollerMissesNothing | src/cloud-chat.ts:402-424 | a polling reader has got exactly the matching messages up to its cursor, each once and in posting order, except those removed before it read them |
| ChatLog.NumbersAreNeverReused | src/cloud-chat.ts:370-379 | a channel's numbers count all posts ever made, so none comes back after a removal |
| ChatLog.EnoughPollsReadEverything | src/cloud-chat.ts:402-424 | as many polls as there are numbers above the cursor read everything, whatever their limits |
| ChatLog.EmptyPageMeansCaughtUp | src/cloud-chat.ts:402-424 | an empty page means that nothing is left to read |
| ChatLog.PostGoesThrough | src/cloud-chat.ts:370-391 | at any time in any run a post to an existing channel under a new id is added under the next number and changes nothing else; any other changes nothing |
| ChatLog.PollerGetsItsThread | src/cloud-chat.ts:402-424 | what the readers of a whole channel, of its top level and of one thread have got |
| ChatRetention.CloudChatStore.SelectOld | src/cloud-chat.ts:644 | the old messages by descending number, ties in any order |
| ChatRetention.CloudChatStore.BlankOrDelete | src/cloud-chat.ts:658-667 | a message with a reply left is blanked; one without is removed and its root's count lowered |
| ChatRetention.CloudChatStore.PurgeBefore | src/cloud-chat.ts:641-680 | one descending pass ends in the state the thread condition describes; files, their hashes, attached rows and counters are exactly those removed |
| ChatRetention.PurgeKeepsThreads | src/cloud-chat.ts:641-680 | every surviving reply has its root row |
| ChatRetention.StaysExactlyWithItsThread | src/cloud-chat.ts:641-680 | a message stays exactly when some message of the thread growing from it is not expired |
| ChatRetention.WhatStaysOfAMessage | src/cloud-chat.ts:641-668 | field by field: of a surviving message that is due the text and links are gone and the cutoff is its deletion time if it had none; one that is not due keeps everything; reply counts go down by the replies that went |
| ChatRetention.WhatGoes | src/cloud-chat.ts:641-668 | a message goes exactly when it is old, unprotected and no reply to it stays |
| ChatRetention.AttachmentsGoWithTheText | src/cloud-chat.ts:650-677 | files, revisions, mentions and reactions stay exactly with the text of their message; a file without one goes when it is old and its channel is not kept |
| ChatRetention.PurgeIsDetermined | src/cloud-chat.ts:644 | the outcome does not depend on how ties between channels are ordered |
| ChatRetention.SecondPassChangesNothing | src/cloud-chat.ts:641-680 | a second pass with the same cutoff changes no message |
| ChatRetention.CountersSum | src/cloud-chat.ts:641-680 | deleted, blanked and protected count what they say and sum to the number of old messages |
| EventLog.CloudChatStore.Publish | src/cloud-chat.ts:763-771 | an event is emitted at once, logged under a new number, and old rows are pruned at most once a minute |
| EventLog.CloudChatStore.TailOnce | src/cloud-chat.ts:714-724 | at most 1000 rows above the cursor are read in order, others' events emitted, own ones skipped |
| EventLog.CloudChatStore.StartTail | src/cloud-chat.ts:727-730 | tailing starts behind what is older than the catch-up time and never moves the cursor back |
| EventLog.TailReads | src/cloud-chat.ts:714-724 | one read keeps the delivered list exact |
| EventLog.RunFits | src/cloud-chat.ts:690-771 | over any interleaving of processes the table and every process stay in step with the history of events |
| EventLog.EachProcessHearsEachEventOnce | src/cloud-chat.ts:690-771 | nothing is handed out twice or out of order; since it last began to tail a process got exactly the others' events up to its cursor not pruned before it could read them, and its own when it wrote them |
| EventLog.PruneTakesOnlyStaleRows | src/cloud-chat.ts:767-770 | a prune costs a reader nothing exactly when all it has still to read is at most ten minutes old |
| EventLog.PublishPrunesOncePerMinute | src/cloud-chat.ts:763-771 | a publisher prunes at most once a minute, and then exactly the rows more than ten minutes old |
| EventLog.StartSkipsOnlySettled | src/cloud-chat.ts:727-730 | beginning to tail passes a row over exactly when it or a later one is more than thirty seconds old, and never goes back |
| EventLog.TailMakesProgress | src/cloud-chat.ts:714-724 | one read hands out the others' rows in order and leaves something unread only after a thousand |
| IndexCache.SortSorts | src/cloud-platform.ts:1445-1447 | sorting orders by line and record id and keeps every block |
| IndexCache.LoadedIsView | src/cloud-platform.ts:391-396 | loading gives each row of the version once, in order |
| IndexCache.CloudKnowledgePlatform.IndexDocuments | src/cloud-platform.ts:353-376 | the indexing loop computes the specified rows, marks and cache, at most `maxDocuments` parsed; a failure rolls back the table but not the cache |
| IndexCache.CloudKnowledgePlatform.IndexedBlocks | src/cloud-platform.ts:380-405 | the reading loop computes the specified blocks and cache |
| IndexCache.CloudKnowledgePlatform.CacheIndexedBlocks | src/cloud-platform.ts:407-415 | an entry goes to the end and the oldest fall out |
| IndexCache.CloudKnowledgePlatform.PutTrust | src/cloud-platform.ts:325-335 | setting trust makes the document due for indexing and drops its entry |
| IndexCache.CloudKnowledgePlatform.EnforceRetention | src/cloud-platform.ts:1285-1302 | retention removes what it is given and clears the cache when that is anything |
| IndexCache.EvictedIsLeastRecent | src/cloud-platform.ts:407-415 | whatever falls out was used before everything that stays |
| IndexCache.FailureIsHarmlessExactly | src/cloud-platform.ts:353-376 | a failing call keeps the cache in step with the table exactly when every document it indexed ahead of the failure yields the blocks the table already held at that version |
| IndexCache.ReadsTellTransparency | src/cloud-platform.ts:380-405 | the cache is in step exactly when every read gives what the table holds |
| IndexCache.FailureShowsExactly | src/cloud-platform.ts:353-405 | after a failing call some read differs from the table exactly when the call had indexed something new |
| IndexCache.AllAreRemembered | src/cloud-platform.ts:407-415 | of documents listed once, at most 512 of them, every one indexed counts in that condition |
| IndexCache.RunIsTransparent | src/cloud-platform.ts:325-415 | over any run of indexing, harmless failures included, reads, trust updates and retention every entry equals the table's view of its document |
| IndexCache.CacheIsTransparent | src/cloud-platform.ts:380-405 | a read returns exactly what the table holds at each document's version, in order, and the cache holds at most 512 documents |
| IndexCache.EveryDocumentIsIndexed | src/cloud-platform.ts:353-376 | a call that goes through and may parse all leaves each document indexed from the blocks it was given, unless it was indexed or cached at its version and nothing forced the call |
| IndexCache.OneDocument | src/cloud-platform.ts:353-376 | a call for one document does nothing exactly when unforced and cached or indexed at its version, or when it may not parse; else it indexes it, or fails cleanly |
| IndexCache.ReadRemembers | src/cloud-platform.ts:380-405 | a read makes a cached document the last used, caches an indexed one with what the table holds, and leaves the cache alone for any other |
| IndexCache.ParsesAtMost | src/cloud-platform.ts:353-376 | no call parses more documents than it may |
| IndexCache.RemovalsTakeExactly | src/cloud-platform.ts:325-335 | retention takes exactly the rows and marks it removes and clears the cache if that is anything; setting trust takes one mark and one entry |
| IndexCache.FailedCallLeavesStaleBlocks | src/cloud-platform.ts:366-376 | a call that cannot load an attachment's text after indexing another document leaves a block in the cache that the table does not hold |
| IndexCache.EarlyFailureIsClean | src/cloud-platform.ts:353-376 | a call that fails on the first document it parses changes nothing |
| Scores.CosineSimilarity | src/cloud-embeddings.ts:106-120 | the accumulating loop computes the clamped cosine, which lies in [0, 1] |
| Scores.CauchySchwarz | src/cloud-embeddings.ts:106-120 | the inequality that bounds the unclamped side, for vectors of any length |
| Scores.CosineInUnit | src/cloud-embeddings.ts:106-120 | the similarity of any two vectors lies between 0 and 1 although only the lower end is clamped |
| Scores.CosineIsSymmetricAndReflexive | src/cloud-embeddings.ts:106-120 | order does not matter and a vector that is not zero is fully similar to itself |
| Ranking.LexicalScore | src/cloud-platform.ts:1569-1575 | the counting loops compute the share of query words found, in [0, 1] |
| Ranking.FreshnessInUnit | src/cloud-platform.ts:1553-1565 | freshness lies in [0, 1] |
| Ranking.ScoreInUnit | src/cloud-platform.ts:614-645 | every retrieval score lies in [0, 1] and is stable under rounding |
| Ranking.RankIsBest | src/cloud-platform.ts:614-645 | results descend and no relevant block is left out for a worse one |
| Ranking.UniqueCitations | src/cloud-platform.ts:1605-1613 | the first result of every block is kept |
| Ranking.EveryBlockIsKept | src/cloud-platform.ts:1605-1613 | no block among the results is left without a record |
| Ranking.SelectCitations | src/cloud-platform.ts:1615-1631 | the selection loops compute the specified citations |
| Ranking.CitationsAreClose | src/cloud-platform.ts:1615-1631 | citations come from the results, best first, at most five, none far below the best hit |
| Ranking.CitationConfidence | src/cloud-platform.ts:1633-1638 | the summing loop computes the specified confidence |
| Ranking.ConfidenceIsBelowBest | src/cloud-platform.ts:1633-1638 | confidence lies between the weakest and the best citation's score |
| Ranking.AnswerIsNeverOverconfident | src/cloud-platform.ts:659-663 | for every search confidence never exceeds the best citation's score, and an answer is insufficient exactly when nothing is cited or the best citation is weak in both words and meaning |
| Ranking.SearchIsBounded | src/cloud-platform.ts:614-645 | the bounds hold whichever vectors each block is compared by |
| Results.WorthOfEachPart | src/cloud-platform.ts:628 | what a perfect word match, meaning, type, freshness, verification and link count are each worth |
| Results.ScoreIsLinear | src/cloud-platform.ts:628 | the parts add up, so their worths fix every score |
| Results.BetterBlocksScoreNoLower | src/cloud-platform.ts:614-645 | a block that is no worse in any respect never scores lower |
| Results.PerfectBlockScoresOne | src/cloud-platform.ts:614-645 | a block perfect in every respect scores one |
| Results.FreshnessTells | src/cloud-platform.ts:1553-1565 | only an overdue review makes a source worthless, only one thirty days ahead makes it perfectly fresh, and what age alone gives |
| Results.FreshnessFades | src/cloud-platform.ts:1553-1565 | nothing gets fresher as time goes by |
| Results.ResultsAnswerInOrder | src/cloud-platform.ts:614-645 | the results are records of blocks that answer the query, by score, document and line, and one that answers is missing only when the list is full of records before it |
| Results.CitationsAreDistinctAndComplete | src/cloud-platform.ts:1605-1631 | no block and no excerpt is cited twice, all are close to the best result, and a close first result of a block is cited by its excerpt unless five others are |
| CanvasDiff.SameStructureExactly | src/canvas-review.ts:247-255 | two values of any shape, in which no inherited name holds undefined, have the same structure exactly when `equalValues` says so and no `__proto__` field is one-sided |
| CanvasDiff.EqualIsSameStructure | src/canvas-review.ts:247-255 | so `equalValues` decides structural equality of JSON values without a field named `__proto__`, whatever the order of keys |
| CanvasDiff.ProtoIsHiddenExactly | src/canvas-review.ts:247-255 | for every object without such a field and every value: adding the value as `__proto__` goes unnoticed exactly when it looks like the base object |
| CanvasDiff.InheritedNameHidesChange | src/canvas-review.ts:247-255 | an empty object and one with an empty object as `__proto__` compare equal |
| CanvasDiff.ChangedFieldsDiffer | src/canvas-review.ts:257-261 | the changed fields are exactly those in which two objects differ |
| CanvasDiff.DiffCanvasDocuments | src/canvas-review.ts:34-64 | the nested loops compute the specified change list |
| CanvasDiff.NoChangeMeansSameElements | src/canvas-review.ts:46-61 | no element change is listed exactly when both lists hold equal elements in the same order |
| CanvasDiff.NoChangeMeansSameCanvas | src/canvas-review.ts:34-64 | the change list is empty exactly when the identified pages agree in order, fields and identified elements in order |
| CanvasChanges.EveryChangeTells | src/canvas-review.ts:34-64 | every entry is true of the page or element it names: it went, came, lies elsewhere, or exactly the named fields differ |
| CanvasChanges.EveryDifferenceIsTold | src/canvas-review.ts:34-64 | of every page and element of either document every such difference has an entry, and no action two |
| CanvasChanges.ListsAreRead | src/canvas-review.ts:231-237 | pages and elements are the objects with a string for an id in their lists, all and in order |
| AttrDiff.IndexById | src/diff.ts:87-97 | the loop indexes identified directives in document order or reports the first repeated id |
| AttrDiff.DiffAttrs | src/diff.ts:65-85 | each differing attribute other than `id` once, in key order, with absence written out |
| AttrDiff.DiffDocs | src/diff.ts:33-55 | a missing date or a repeated id is an error; otherwise exactly the changes between shared blocks, each once |
| AttrDiff.IndexingFailsExactlyOnRepeats | src/diff.ts:87-97 | a document is refused exactly when two identified directives share an id |
| AttrDiff.ApplyingRestoresAttributes | src/diff.ts:33-85 | carrying out the changes on the old blocks gives the new attributes exactly when no new value is literally `(absent)` where the old one is not |
| AttrDiff.AbsentValueWitness | src/diff.ts:65-85 | a block that gains such a value is not restored by the one change emitted |
| AttrDiff.OnlySharedBlocksChange | src/diff.ts:33-55 | ids and blocks of only one document are never touched |
| AttrDiff.ReverseDiffSwaps | src/diff.ts:65-85 | diffing the other way gives the same changes with both values swapped |

## Left out

- HTTP routes, sockets, timers, SQLite itself and the command line: only the state changes they trigger are modelled.
- Yjs and the `.noma` parser: updates, fresh documents, server edits, parsed blocks and syntax trees are parameters.
- The checkpoint that writes a live document back to its page: only its last part, filling in block ids and the snapshot.
  Frames that do not carry updates (presence, saved, pong) are not modelled; a kicked client is one that leaves.
- Relay.CloudCollabHub.Join: does not model who may open a page; the decision arrives as `readOnly`, and a refused visitor does
  not join.
- Relay.CloudCollabHub.HandleUpdate: does not model the limit on frames per ten seconds, which closes a connection.
- Relay.CloudCollabHub.Unload: whether a checkpoint is still scheduled or queued is a parameter, because clocks are.
- Relay.CloudCollabHub.EndLateCheckpoint: a checkpoint that finds the page's source unchanged or the room clean, or fails to write,
  ends without a step; which of them do is not derived from the room's history, except that one without an editor does.
- Purging a page also removes its live-editing rows; that is not a step of the runs.
- PageTree.CloudDatabase.WriteSite: does not model the permissions and share links the same transaction rewrites.
- Sync's `--state` mode (rename detection, trashing, wiki moves): only the frontmatter mode.
- Sync.SyncSpace: does not model manifest paths the client refuses, the creation of directories, nor files that cannot be written. How the server makes
  paths from titles is not modelled; the theorems about the directory take pages with distinct ids and paths.
- Parsing a label list that is not a JSON array of strings, including `\u` escapes of surrogates: a parameter of the stripping
  loop.
- Template values: names inherited from the runtime's base object, such as `{{constructor}}`, are taken as unknown; a value is
  cut after 500 characters, where the source counts UTF-16 units.
- Awareness: numbers are integers, so the rounding of decoded numbers above 2^53 is not modelled; printing and parsing of JSON
  states are parameters.
- ChatLog.CloudChatStore.PostMessage: only the number and the keys of the row; mentions, reply counts and the published event
  are not part of this model.
- ChatLog.CloudChatStore.ListMessages: does not model the `before` mode and the mode without a bound, because the reader uses
  neither.
- ChatRetention.CloudChatStore.PurgeBefore: requires that a reply names an earlier message of its channel, which the chat
  routes check and the store does not. Reply counts go down as in the source, but are not claimed to equal the replies left,
  because posts of system notes never counted.
- EventLog: the clock is a parameter of each step; events of unreadable JSON, which stop the tail, are not modelled.
- IndexCache: record ids of different documents are taken as different, since they hash the document's id; the background update
  of text hashes is not modelled.
- IndexCache.CloudKnowledgePlatform.IndexDocuments: does not model the number of blocks it returns.
- IndexCache.CloudKnowledgePlatform.EnforceRetention: does not model the cutoff and the legal holds that choose the records; they
  arrive as what was removed.
- Ranking: language-dependent comparison of document ids is comparison of numbers, and dates that cannot be parsed are not
  modelled; freshness does not follow a later clock, because it is computed when a block is indexed.
- CanvasDiff.DiffCanvasDocuments: does not model the kind of an element change (moved, resized, restyled), a display label.
- AttrDiff: minus zero, and attributes named like properties every object inherits, are not modelled.
- Embedding providers, language models, storage backends, rendering, settings, budgets and leases: foreign calls or simple
  records without an invariant of this kind.
