# News feed backend: a verified model

A Dafny model of the backend's content pipeline, of what readers are served from it, and of its sessions.

**Links.** A stored article body holds no URLs. Every `<a href>` holds the id of a row in
`article_outbound_links`, and the row holds the current target. Persisting an article, deleting one and
deleting a source update those rows; reading swaps the ids back. `LinkView` proves that this
incrementally maintained table is, after every run, the view "look the original url up among the active
articles now", and `Reader` proves that a served body is what url treatment would produce at this very
moment. `ViewLimits` gives, as equivalences, where that ends: administrator edits, and transactions of one
article that are interleaved with others. `NoDangling` proves the weaker property that survives all of it
in serial runs, and `NoStraying` what survives every interleaving: no link ever leads to an article of
another url. `Removal` says exactly when the set-based source cascade equals deleting one article at a time.

**Form.** `Html.Node` are linked, mutable nodes and the walks over them rewrite attribute values in place;
`Stores.Store`, `FeedStores.FeedStore` and `SessionStores.SessionStore` are the tables, with one method per
SQL statement or controller operation, rollback included. Each method is proved against a function of the
old contents (`Tables`, `Feeds`, `Sessions`), and the theorems about runs are about those functions.
A statement that the database does not serve, and an HTML body that the library does not parse or render,
are inputs, so the error paths are in the contracts.

**Concurrency.** `Pool` is the semaphore-and-wait-group worker pool as a transition system. `Interleaving`
runs the batch on that pool with deduplication, treatment and persist as separate transactions, mixed with
other sweeps and requests; `Completion` shows that such a batch always comes to an end. `Feeds` does the same for judgement: saving an article, looking its candidates
up and each insert are separate, and feeds may be edited, users removed and sessions opened in between.

**The rest.** `Judgement` and `Candidates` are the two layers of judgement, `Feeds` also the queries that
agree only by the cascades, `Pagination` the paging arithmetic and the order behind it, `Sessions` the life of refresh tokens
and the maintenance switch, `Sweeps` one tick of the sweep.

| file | content |
|---|---|
| `Sequences`, `Strings`, `Html`, `Places`, `OutboundLinks` | the token, the trees and nodes, the places in a tree, Assign and Resolve |
| `Tables`, `Effects`, `Stores` | the tables, statement by statement, as functions, row by row, and as an object |
| `Removal`, `Runs`, `Soundness`, `LinkView`, `Reader`, `NoDangling`, `ViewLimits`, `NoStraying` | the runs and their invariants |
| `Discovery`, `Endpoints`, `Pool`, `Interleaving`, `Completion`, `Sweeps` | the pipeline, requests, the worker pool |
| `Keywords`, `Accounts`, `Judgement`, `Candidates`, `Feeds`, `FeedStores` | users and feeds, judgement, associations, counters |
| `Pagination`, `Sessions`, `AccountEffects`, `Handlers`, `SessionStores` | paging, sessions row by row, maintenance |

`dafny verify dfyconfig.toml` verifies the whole project.

## Assumptions

They are `requires` clauses (`Runs.Admissible`, `NoStraying.Fits`, `Feeds.Admissible`) or parameters:

- Ids come from a generator: of UUID form, never used before. The order of steps is arbitrary.
- An article's own url and the hrefs of its clean body are external: not under the client URL, not
  spelling the token `{CLIENT_URL}`, not of UUID form.
- Embed treatment followed by sanitizing (`Config.clean`) lets the treated anchors through.
- The client URL is not empty where the link view is claimed. That it ends in no slash is not needed.
- Transactions are serial. The program sets no isolation level, so this is an assumption on the database.
- A step of `Sessions` is a whole request. `Handlers` takes requests apart; the one property that this
  costs is that active feeds have active owners, exactly as `OwnersAgreeExactly` says. No route removes users
  yet (`services/controllers/users.go:118-123`), so the current routes cannot produce the trace that
  `FeedSurvivesSomewhere` gives.
- A save of `Feeds` is `processOne` up to persist as one step; its lookup and its inserts are steps of
  their own.

## Where the documentation and the code differ

- `services/judgement/judgement.go:49` documents the coherence inequality as non-strict. The code needs it
  strict, as the example at lines 53-55 of the same file shows (`EqualityIsNotEnough`, `CoherentExactly`).
- `services/controllers/system.go:50-51` calls the watermark the lower bound for what counts as new. The
  sweep passes no lower bound (`services/cron/cron.go:173`); deduplication decides
  (`SecondSweepChangesNothing`).
- `services/outboundlinks/outboundlinks.go:168-169` calls `expand` the inverse of the token step. It is not
  for an href that itself spells the token (`RoundTripExactly`, `TokenInHrefIsLost`).

## Model

| member | source | states |
|---|---|---|
| `Strings.ReplaceAllFixed` | services/outboundlinks/outboundlinks.go:170-172 | replacing every token leaves a text alone iff the token does not occur or is replaced by itself (left-to-right, non-overlapping replacement) |
| `Strings.ReplaceFirstAndOn` | services/outboundlinks/outboundlinks.go:170-172 | the first token is replaced, and the rest after it is gone through in the same way |
| `Html.CollectedFacts` | services/outboundlinks/outboundlinks.go:182-199 | the collected hrefs are distinct, non-empty, and the first hrefs of the anchors; that no anchor at any depth is missed is `Places.CollectedExactly` |
| `Places.CollectedExactly` | services/outboundlinks/outboundlinks.go:182-199 | a href is collected iff some anchor, at any depth of the tree, has it as its first, non-empty href |
| `Places.CollectedInOrder` | services/outboundlinks/outboundlinks.go:182-199 | of two collected hrefs, the one that is listed first stands at an anchor before every anchor to the other in document order |
| `Places.RewriteEverywhere` | services/outboundlinks/outboundlinks.go:203-224 | at every place of the tree the rewritten node has the same tag, text and attributes, but each renamed href of an anchor |
| `Places.AllHrefsExactly` | services/outboundlinks/outboundlinks.go:203-214 | what a rewrite may look up are the hrefs of anchors at any depth, repeated attributes included |
| `Html.RewriteAgree` | services/outboundlinks/outboundlinks.go:203-214 | a rewrite depends only on what the renaming does to the hrefs of the anchors |
| `Html.RewriteCompose` | services/outboundlinks/outboundlinks.go:203-214 | two rewrites in a row are one, at any depth of nesting and with repeated attributes |
| `Html.RewriteIdentity` | services/outboundlinks/outboundlinks.go:92-95 | a rewrite leaves the tree alone iff every anchor href is kept |
| `Html.CollectedRewrite` | services/urltreatment/urltreatment.go:91-108 | an injective renaming renames what is collected, order and distinctness included |
| `Html.Parse` | services/outboundlinks/outboundlinks.go:174-179 | new linked nodes holding the tree of a body |
| `Html.Render` | services/outboundlinks/outboundlinks.go:235-243 | the tree the nodes hold now, edits included |
| `Html.GetHref` | services/outboundlinks/outboundlinks.go:226-233 | on a linked node, the first href attribute |
| `Html.CollectInto` | services/outboundlinks/outboundlinks.go:182-199 | the walk over linked nodes appends the distinct hrefs in first-seen order, duplicates across siblings included |
| `Html.RewriteHref` | services/outboundlinks/outboundlinks.go:203-214 | overwrites in place exactly the href attributes that are renamed, and says whether there were any |
| `Html.RewriteAnchors` | services/outboundlinks/outboundlinks.go:203-224 | the in-place walk turns the tree under a node into its rewritten form and leaves no other node changed |
| `OutboundLinks.DomainMove` | services/outboundlinks/outboundlinks.go:144-172 | stored under one client URL and read under another, an own link moves to the new URL with its remainder, everything else (look-alike hosts included) stays |
| `OutboundLinks.RoundTripExactly` | services/outboundlinks/outboundlinks.go:144-172 | expand undoes toStored iff the part stored as written spells no token (or the client URL is the token) |
| `OutboundLinks.TokenInHrefIsLost` | services/outboundlinks/outboundlinks.go:144-172 | an https href, which sanitizing keeps, for which it does not |
| `OutboundLinks.ToStoredInjective` | services/outboundlinks/outboundlinks.go:144-152 | different token-free hrefs have different stored forms |
| `OutboundLinks.InternalLinkForms` | services/outboundlinks/outboundlinks.go:37-46 | the page that url treatment writes is stored in the very form that retargeting looks for |
| `OutboundLinks.ExpandInternal` | services/outboundlinks/outboundlinks.go:168-172 | that form is read back as the client page |
| `OutboundLinks.TokenFreeIsNotInternal` | services/outboundlinks/outboundlinks.go:44-46 | a token-free url is never mistaken for an internal page |
| `OutboundLinks.Assign` | services/outboundlinks/outboundlinks.go:63-97 | every anchor to something, wherever it stands, carries the id of a row with the stored form of its href; on an id error, a parse error or a render error, the body as it came and no rows |
| `OutboundLinks.AssignReachesAll` | services/outboundlinks/outboundlinks.go:63-97 | that, and conversely every row is carried by an anchor to its href |
| `OutboundLinks.OutboundLinksByID` | services/controllers/article_outbound_links.go:76-82 | id to href, a later row winning |
| `OutboundLinks.LaterRowWins` | services/controllers/article_outbound_links.go:76-82 | the last row of an id counts, and no other id occurs |
| `OutboundLinks.Resolve` | services/outboundlinks/outboundlinks.go:103-132 | the body with each known id replaced by its expanded target, unknown hrefs untouched; on a parse or render error the body as stored |
| `OutboundLinks.ResolveAfterAssign` | services/outboundlinks/outboundlinks.go:63-132 | Resolve after Assign replaces each collected href by what its stored form expands to, and nothing else, under any client URL |
| `OutboundLinks.AssignRoundTrip` | services/outboundlinks/outboundlinks.go:63-132 | on every tree, Resolve undoes Assign iff every distinct href survives its own round trip |
| `Tables.JoinMeans` | sqlc/article_outbound_links.sql.go:118-127 | the SQL join of the source retarget picks a row iff it holds the internal form of an unremoved article of that source, and then of one only |
| `Tables.InsertRowsFacts` | services/discovery/processor.go:329-333 | inserting rows under free keys adds exactly them and keeps the others |
| `Tables.ListedByID` | services/controllers/article_outbound_links.go:76-82 | the order of the listed rows does not matter |
| `Effects.SourceAdded` | sqlc/sources.sql.go:34-38 | after adding, exactly one more source is active |
| `Effects.SourceRemoved` | sqlc/sources.sql.go:190-194 | after the removal the source is not active, and every other one is active iff it was |
| `Effects.ArticlesOfSourceRemoved` | sqlc/articles.sql.go:238-242 | every article of the source is marked, no other row changes |
| `Effects.RowsOfSourceFallBack` | sqlc/article_outbound_links.sql.go:118-127 | row by row: which row falls back to which url |
| `Effects.ArticleRemoved` | services/endpoints/v1/articles/delete.go:24-39 | the article is marked, the rows naming it hold its url, everything else is as it was |
| `Effects.OwnerMeans` | sqlc/articles.sql.go:100-104 | who owns a url: an active article of that url, if there is one |
| `Stores.Store.constructor` | schema.sql:56-157 | an empty database |
| `Stores.Store.Begin` | services/controllers/transaction.go:27-33 | what a rollback returns to |
| `Stores.Store.Rollback` | services/controllers/transaction.go:32-37 | after an error every table is as at the begin |
| `Stores.Store.FindSourceByID` | sqlc/sources.sql.go:68-72 | a row iff the source is active |
| `Stores.Store.SoftDeleteSource` | sqlc/sources.sql.go:190-194 | marks an unremoved source: afterwards it is not active, and every other source is as it was |
| `Stores.Store.FindArticleByID` | sqlc/articles.sql.go:75-79 | the active article |
| `Stores.Store.FindArticleByURLOriginal` | sqlc/articles.sql.go:100-104 | the one active owner of the url |
| `Stores.Store.CreateArticle` | sqlc/articles.sql.go:32-36 | refused exactly on a used id or an indexed url (partial unique index at schema.sql:91); otherwise one new active row |
| `Stores.Store.UpdateArticleContent` | sqlc/articles.sql.go:411-416 | replaces the body of an active article |
| `Stores.Store.SoftDeleteArticle` | sqlc/articles.sql.go:227-231 | marks an unremoved article |
| `Stores.Store.SoftDeleteArticlesBySourceID` | sqlc/articles.sql.go:238-242 | marks all unremoved articles of the source |
| `Stores.Store.CreateArticleOutboundLink` | sqlc/article_outbound_links.sql.go:14-18 | one new row, or a key violation |
| `Stores.Store.RetargetArticleOutboundLinksByHref` | sqlc/article_outbound_links.sql.go:96-100 | moves exactly the rows holding the old href |
| `Stores.Store.RetargetArticleOutboundLinksBySourceID` | sqlc/article_outbound_links.sql.go:118-127 | moves exactly the rows naming an unremoved article of the source back to its url |
| `Stores.Store.ListArticleOutboundLinksByArticleIDs` | sqlc/article_outbound_links.sql.go:54-58 | the rows of the given articles, each once, in some order |
| `Removal.DeleteIsRemoveAll` | services/endpoints/v1/articles/delete.go:24-39 | deleting an article is the removal of one id: its rows back to the url, the article marked |
| `Removal.CascadeIsRemoveAll` | services/controllers/sources.go:122-147 | the three statements of the source cascade remove all its articles at once |
| `Removal.CascadeEqualsFoldExactly` | services/controllers/sources.go:122-147 | the set-based cascade equals deleting the articles of the source one by one, in every order, iff no row names one of them whose url_original is the internal page of another one of them |
| `Removal.CascadeEqualsFold` | services/controllers/sources.go:122-147 | one direction, for a given order |
| `Removal.HopBreaksFold` | services/controllers/sources.go:122-147 | the other: given such a row, the order of deletions that ends elsewhere |
| `Removal.CascadeDiffersOnInternalUrl` | services/discovery/discovery.go:55-65 | such tables exist: the link of an item is stored as it comes |
| `Removal.RetargetMustComeFirst` | services/controllers/sources.go:128-143 | after the soft delete the retarget finds nothing: rows that name an article of the source stay |
| `Discovery.AlreadyExists` | services/discovery/processor.go:256-270 | whether an active article owns the url; an infrastructure error is neither |
| `Discovery.ResolveInternalURLs` | services/discovery/processor.go:276-293 | the client page of every href that has an active owner now |
| `Discovery.Treat` | services/urltreatment/urltreatment.go:33-82 | the body with exactly those hrefs replaced; on a lookup, parse or render error the body as it came |
| `Effects.PagesMean` | services/discovery/processor.go:276-293 | a href has a page iff an active article is of that url, and then the page of that article |
| `Effects.TreatedEverywhere` | services/urltreatment/urltreatment.go:91-126 | at every place of the body nothing but hrefs of anchors is touched |
| `Effects.LinkTreated` | services/urltreatment/urltreatment.go:91-126 | wherever an anchor stands: its href becomes the page of the active article of that url, or stays when none is |
| `Discovery.CreateArticle` | services/controllers/articles.go:30-67 | source check, then the id, then the insert of the row with normalized keywords; a failing id and a unique violation told apart, both without effect |
| `Discovery.CreateLinks` | services/discovery/processor.go:329-333 | all rows, or a report that one was refused |
| `Discovery.StoreLinks` | services/discovery/processor.go:324-338 | best-effort id form: failing to assign keeps the body and no rows, a failing write is an error |
| `Discovery.PersistArticle` | services/discovery/processor.go:316-348 | all four parts of the transaction or none of them, and exactly when it saves |
| `Effects.SavesExactly` | services/discovery/processor.go:316-348 | the transaction saves iff the source is active, the id is new, the url is free and the row ids are |
| `Effects.ArticleSaved` | services/discovery/processor.go:316-348 | the one new article, column by column; no other article and no source changes |
| `Effects.RowsSaved` | services/discovery/processor.go:324-346 | every old row holds what it held, or the new page where it held the url; no row goes |
| `Effects.NewRowsSaved` | services/discovery/processor.go:324-338 | every new row is of the new article, under a given id, for a href of the body |
| `Effects.RowsInserted` | services/discovery/processor.go:329-333 | the row of the n-th href, column by column |
| `Effects.CreatedMeans` | services/controllers/articles.go:30-67 | what an administrator create adds, and when |
| `Effects.UpdatedMeans` | services/controllers/articles.go:131-158 | what an administrator update changes, and when it is refused |
| `Discovery.ProcessOne` | services/discovery/processor.go:145-203 | whatever statement or library call fails, the tables end unchanged or as one whole discovery step leaves them; with every statement served, exactly that step |
| `Effects.DiscoveredMeans` | services/discovery/processor.go:145-203 | an item whose url has an owner, whose source is gone or whose keywords failed changes nothing; any other is the persist of its treated body |
| `Discovery.ProcessSequentially` | services/discovery/processor.go:101-115 | the sequential path is the fold of that step over the batch |
| `Runs.NextMatchesTables` | services/discovery/processor.go:145-209 | the history-carrying state machine moves its tables as the transactions do |
| `Runs.IdIsTokenFree` | services/discovery/processor.go:350-356 | an id of UUID characters never spells the token |
| `Runs.PagesInjective` | services/discovery/processor.go:276-293 | url treatment never merges two hrefs |
| `Runs.TreatedHrefs` | services/urltreatment/urltreatment.go:91-126 | what Assign collects from a treated body are the clean hrefs, each turned into its page when it has one |
| `Runs.StoredBody` | services/discovery/processor.go:324-338 | treatment followed by Assign is one renaming of the clean tree, href by href, to row ids |
| `Soundness.WrittenRows` | services/discovery/processor.go:316-346 | after a persist: the old rows retro-linked, one row per distinct href, nothing else |
| `Soundness.InsertKeepsUnique` | schema.sql:91 | storing an article under a free url keeps one active article per url |
| `Soundness.UpdateKeepsUnique` | services/controllers/articles.go:131-158 | so does an administrator update that may change the url |
| `Soundness.StepKeepsSound` | services/discovery/processor.go:145-209 | every step keeps ids, urls, uniqueness and row ownership |
| `Soundness.EveryRunSound` | services/discovery/processor.go:145-209 | they hold after every run of all steps |
| `LinkView.OwnersAfterPersist` | services/discovery/processor.go:316-346 | a persist gives its url to the new article and no other url changes owner |
| `LinkView.PersistKeepsViewExactly` | services/discovery/processor.go:316-346 | a persist keeps the link view iff every link of its body has, at persist time, the owner (or none) that url treatment saw |
| `LinkView.RemoveAllKeepsView` | services/controllers/sources.go:122-147 | removals keep it |
| `LinkView.StepKeepsView` | services/discovery/processor.go:145-209 | so does every step of processing with a working treatment, article removal and source removal |
| `LinkView.EveryRunKeepsView` | services/discovery/processor.go:340-346 | in every reachable state each outbound row holds the internal page of the active article that owns its original url now, or that url; self-links and rediscovery included |
| `LinkView.EveryRunRowMeans` | services/discovery/processor.go:340-346 | the same without the lookup function: the row of url u holds the page of whatever active article is of url u, and u when none is |
| `Reader.ReadIsTreatNow` | services/outboundlinks/outboundlinks.go:103-132 | in a state of the view, resolving a stored body gives what url treatment of the clean source would give at this moment |
| `Reader.EveryRunReadsAsTreatedNow` | services/outboundlinks/outboundlinks.go:103-132 | the same for every article the pipeline wrote, after every run |
| `Reader.WrittenFrom` | services/discovery/processor.go:145-203 | the clean source a history records is that of the processed item, and the url is its url |
| `Reader.RecordedExactly` | services/discovery/processor.go:316-346 | a history is kept exactly of the articles that were saved with their rows |
| `Reader.OriginsMean` | services/discovery/processor.go:329-333 | of each new row the history holds the href it is for |
| `Reader.RecordsStay` | services/controllers/articles.go:131-158 | no other step changes the history, but an edited article loses its own |
| `Reader.ReaderSeesLink` | services/outboundlinks/outboundlinks.go:103-132 | anchor by anchor, after every run: what is served at the place of an anchor to h is an anchor to the page of the active article of url h, or to h when none is |
| `Reader.ReaderSeesRest` | services/outboundlinks/outboundlinks.go:103-132 | and at no place is anything else than an href of an anchor different from the clean source |
| `Reader.PageResolvesApart` | services/endpoints/v1/articles/list.go:39-57 | one merged map resolves each article of a page as its own rows alone would |
| `Reader.EveryRunResolvesApart` | services/endpoints/v1/articles/list.go:39-57 | so after every run, for the rows as the queries list them |
| `NoDangling.PersistKeepsLinksLiveExactly` | services/discovery/processor.go:316-346 | a persist leaves no dangling row iff no article its body was linked to was removed since treatment |
| `NoDangling.RemoveAllKeepsLinksLive` | services/controllers/sources.go:122-147 | after removing any set of articles no row names one of them |
| `NoDangling.EveryRunLinksLive` | services/endpoints/v1/articles/delete.go:24-39 | over every run, administrator creates and updates and failed treatments included, every internal link names an active article |
| `NoDangling.EveryRunNamesLive` | services/endpoints/v1/articles/delete.go:24-39 | the same row by row: the article whose page a row holds is active |
| `ViewLimits.AdminCreateKeepsViewExactly` | services/controllers/articles.go:30-67 | an administrator create keeps the view iff no row links its url |
| `ViewLimits.AdminUpdateKeepsViewExactly` | services/controllers/articles.go:131-158 | an update keeps it iff the url stays or no row links the old or the new one |
| `ViewLimits.TreatPersistPersistLosesView` | services/discovery/processor.go:276-346 | treat A, persist B, persist A: whenever A links B, the view is lost |
| `ViewLimits.TreatRemovePersistDangles` | services/discovery/processor.go:276-346 | treat A, remove an article A links, persist A: a row dangles |
| `ViewLimits.ViewIsLostSomewhere` | services/discovery/processor.go:276-346 | a concrete such trace |
| `ViewLimits.LinkDanglesSomewhere` | services/discovery/processor.go:276-346 | a concrete trace of the second kind |
| `NoStraying.EveryInterleavingSound` | services/discovery/processor.go:256-346 | the table invariant at the grain of transactions: a draft treated against any earlier state, stored at any later one |
| `NoStraying.AtOnce` | services/discovery/processor.go:145-209 | treated and stored at one moment, a draft is the discovery step of the serial runs |
| `NoStraying.SerialIsInterleaved` | services/discovery/processor.go:145-209 | every serial run without an update that changes a url is one of these interleavings |
| `NoStraying.EveryInterleavingResolvesApart` | services/endpoints/v1/articles/list.go:39-57 | so under every interleaving of transactions |
| `NoStraying.NoneEverStrays` | services/discovery/processor.go:256-346 | under every such interleaving with removals and administrator requests, each row holds its original url or the page of an article of exactly that url |
| `NoStraying.EveryInterleavingRowMeans` | services/discovery/processor.go:256-346 | the same row by row |
| `NoStraying.UpdateKeepsRowsExactly` | services/controllers/articles.go:131-158 | an administrator update leads a link astray iff it changes the url of an article that some row names |
| `NoStraying.UpdateStraysSomewhere` | services/controllers/articles.go:131-158 | a concrete such update |
| `NoStraying.ReadersNeverStray` | services/outboundlinks/outboundlinks.go:103-132 | so a reader is served the clean tree with each href left alone or led to an article of that very url |
| `Endpoints.DeleteArticleRequest` | services/endpoints/v1/articles/delete.go:14-48 | removes exactly the article, or nothing; once done it is not active any more; not found iff inactive |
| `Endpoints.DeleteSourceRequest` | services/endpoints/v1/sources/delete.go:13-39 | the whole cascade, or nothing; once done, the source is not active and every other source is active iff it was |
| `Endpoints.ResolvePage` | services/endpoints/v1/articles/list.go:39-57 | every body of the page resolved against the one batch of rows; no page when the rows cannot be read or a response cannot be built |
| `Endpoints.ReadPage` | services/endpoints/v1/articles/list.go:36-46 | one batch of rows for the whole page as one map; no query for an empty page |
| `Endpoints.ServeBodies` | services/endpoints/v1/articles/list.go:47-57 | every body against that map, in order; nothing when one response cannot be built |
| `Pool.PoolIsBounded` | services/discovery/processor.go:117-138 | at most the configured workers run at any moment; on return nothing is in flight, each dispatched item ran once, and they are a prefix, all of it without cancellation |
| `Pool.BoundIsReached` | services/discovery/processor.go:117-138 | any number of items up to the bound may run at one moment |
| `Pool.CanGoOn` | services/discovery/processor.go:117-138 | until it has returned, a pool with a worker always has a step of its own to take |
| `Pool.PoolReturns` | services/discovery/processor.go:117-138 | no run has more than 3n + 2 such steps, and one that cannot go on has returned |
| `Pool.GatherOrder` | services/cron/cron.go:140-168 | appending results in any completion order gives the same multiset |
| `Pool.GatherMeans` | services/cron/cron.go:140-168 | what is appended for a source: its items when it was fetched, nothing when it failed |
| `Pool.GatherUptoMeans` | services/cron/cron.go:128-136 | source by source in order: the items of each that was fetched, and nothing for one that failed |
| `Pool.MergeIsSequential` | services/cron/cron.go:140-168 | the concurrent merge is, as a multiset, the sequential concatenation of the dispatched sources |
| `Pool.FetchSequentially` | services/cron/cron.go:128-136 | the sequential path: the concatenation in order, failed sources dropped |
| `Interleaving.NeverTwoForOneUrl` | services/discovery/processor.go:145-209 | under every interleaving of check, treat and persist transactions, overlapping sweeps and other requests, at most one active article per url |
| `Interleaving.UninterruptedIsDiscover` | services/discovery/processor.go:145-209 | check, treat and store of an item with nothing in between are its serial discovery step |
| `Interleaving.BatchIsComplete` | services/discovery/processor.go:101-138 | a smooth batch ends with exactly the initial urls and those of the dispatched items |
| `Interleaving.ActiveUrlsMean` | sqlc/articles.sql.go:100-104 | the urls counted there are those of the active articles |
| `Interleaving.BatchBegins` | services/discovery/processor.go:101-109 | every batch has such a start |
| `Completion.MovesAreBounded` | services/discovery/processor.go:101-138 | whatever else happens, a batch of n items makes at most 6n + 2 moves of its own |
| `Completion.BatchGoesOn` | services/discovery/processor.go:117-138 | until it has returned, a batch with a worker always has such a move; with active sources, one without failure |
| `Completion.StuckBatchReturned` | services/discovery/processor.go:117-138 | a run that cannot be continued has returned |
| `Completion.BatchCanFinish` | services/discovery/processor.go:101-138 | smooth runs to the end exist, and end with every url of the batch |
| `Sweeps.Sweep` | services/cron/cron.go:60-114 | skipped or aborted, a sweep touches nothing; the watermark moves iff everything was done |
| `Sweeps.CappedMeans` | services/cron/cron.go:92-97 | the throttle keeps the first cap items, all of them when there are fewer or there is no cap |
| `Sweeps.TurnStoresExactly` | services/discovery/processor.go:145-203 | after the turn of an item its url has an owner iff it had one before or its article was saved |
| `Sweeps.SecondSweepChangesNothing` | services/cron/cron.go:116-121 | sweeping the same articles again changes nothing at all, so the unread watermark is not needed |
| `Judgement.Evaluate` | services/judgement/judgement.go:75-104 | one result per candidate, in order: associated and passed when the overlap reaches the ratio of a non-empty keyword list; else discarded and not passed below minMatches; else judged with the answer for that very candidate, passed iff it reaches the threshold. Nothing at the first error; the judger called on a prefix of the borderline ones, on all of them on success |
| `Judgement.ResultDecided` | services/judgement/judgement.go:75-104 | the same of the specification function |
| `Judgement.PassedExactly` | services/judgement/judgement.go:75-104 | a candidate passes iff it reaches the ratio or was asked about and scored at the threshold |
| `Judgement.TriageMeans` | services/judgement/judgement.go:80-100 | without division: the ratio decides first, the minimum next, the judger last |
| `Judgement.AskedExactly` | services/judgement/judgement.go:85-101 | the judger is asked about exactly those that neither reach the ratio nor fall below the minimum |
| `Judgement.AskedFacts` | services/judgement/judgement.go:85-101 | those are the borderline candidates and no others, each once, in order |
| `Judgement.CoherentExactly` | services/judgement/judgement.go:44-55 | no feed of at least the minimum size is auto-associated below minMatches iff the strict inequality holds (with the overlap capped by the feed size) |
| `Judgement.StrictInequalityIsEnough` | services/judgement/judgement.go:47-49 | the documented inequality, made strict, implies it |
| `Judgement.EqualityIsNotEnough` | services/judgement/judgement.go:49-55 | at equality, which the documented form allows, it fails |
| `Judgement.TriageMonotone` | services/judgement/judgement.go:80-100 | more overlap never lowers the decision, in any configuration |
| `Keywords.NormalizeIdempotent` | services/controllers/articles.go:251-258 | normalizing twice is normalizing once |
| `Keywords.NormalizeMeans` | services/controllers/articles.go:251-258 | a keyword is blanks, a core that neither begins nor ends with one, and blanks; what remains is the core with its capitals made small |
| `Keywords.EachNormalized` | services/controllers/articles.go:251-258 | the same of every keyword of a list, in order |
| `Candidates.LayerOneExactly` | sqlc/feeds.sql.go:87-100 | candidates are exactly the eligible feeds sharing a keyword, the count is the size of the intersection and at most the feed size, and the prefilter changes nothing |
| `Candidates.CandidateExactly` | sqlc/feeds.sql.go:87-100 | a feed is a candidate iff it and its owner are active, the owner was active less than the given number of days ago (-1: whenever), and it has a keyword of the article; the count is of the keywords they share |
| `Candidates.ListingMeans` | services/controllers/feeds.go:145-157 | the candidates listed are exactly those, each with its own keywords and count |
| `Feeds.JustSeenIsCandidate` | sqlc/feeds.sql.go:91-95 | after a refresh, every active feed of that user that shares a keyword is a candidate, for every window |
| `Feeds.JustLoggedInIsCandidate` | sqlc/feeds.sql.go:91-95 | so after a login |
| `Candidates.ListRows` | services/controllers/feeds.go:145-157 | every group becomes one candidate |
| `Candidates.FindCandidatesByKeywords` | services/controllers/feeds.go:131-158 | the candidates for the normalized article keywords; none without keywords |
| `Accounts.AddingKeepsLimit` | services/controllers/feeds.go:28-58 | adding a feed keeps everybody within the limit |
| `Accounts.AddedMeans` | services/controllers/feeds.go:28-58 | a feed is added iff the id is new and fewer than five are active; its columns; every other feed stays |
| `Accounts.UpdatedMeans` | sqlc/feeds.sql.go:343-348 | an update reaches exactly an active feed of that user |
| `Accounts.DeletedMeans` | sqlc/feeds.sql.go:316-320 | a deletion removes exactly a feed of that user |
| `Accounts.AllRemovedMeans` | sqlc/feeds.sql.go:332-336 | with a user all their feeds go, and nobody else's |
| `Feeds.EveryRunAssociatesSafely` | services/discovery/processor.go:211-254 | over every interleaving of saves, lookups, single inserts and account requests: at most one association per article and feed; each at the ratio or scored at the threshold, on the keywords its article was saved under at one visited state and those its feed, active and of an active owner, had at another where the article was waiting, with at least one shared; no user above the feed limit |
| `Feeds.ActMeans` | services/discovery/processor.go:211-254 | acts on accounts and on content are those of their own machines |
| `Feeds.SavedWaits` | services/discovery/processor.go:204-209 | a saved article waits to be judged under the keywords it was named with |
| `Feeds.LookedUpOpens` | services/discovery/processor.go:215-235 | a lookup without an error opens the inserts of its results |
| `Feeds.MarkedMeans` | sqlc/articles_feeds.sql.go:301-310 | row by row: read afterwards iff read before, or of the active article in an active feed of the user |
| `Feeds.RecordsMean` | sqlc/articles_feeds.sql.go:134-150 | the records of a user: the rows of the active article in their active feeds |
| `Feeds.UnreadMeans` | sqlc/articles_feeds.sql.go:60-70 | what the unread poll counts, row by row |
| `Feeds.ListMeans` | sqlc/articles_feeds.sql.go:186-200 | what the list shows, row by row |
| `Feeds.CountersAgree` | sqlc/articles_feeds.sql.go:16-33 | in every reachable state the unread count of a feed equals the total of its list filtered to unread, although only the list joins sources |
| `Feeds.OwnerJoinIsRedundant` | sqlc/feeds.sql.go:91-94 | in every reachable state, with the inactivity window off, the join on users excludes no active feed |
| `Feeds.IsReadState` | services/controllers/articles_feeds.go:136-148 | none without records, true iff all are read |
| `Feeds.MarkReadExactly` | sqlc/articles_feeds.sql.go:301-310 | marks exactly the records of that user, takes exactly them from the unread counts, and is idempotent |
| `FeedStores.FeedStore.constructor` | schema.sql:11-131 | empty tables |
| `FeedStores.FeedStore.Create` | services/controllers/feeds.go:28-58 | inserts iff both statements are served and the user is below the limit; the limit is reported iff the count says so |
| `FeedStores.FeedStore.MarkAsRead` | services/controllers/articles_feeds.go:112-131 | found iff the user has a record, and then exactly the marking; a failed statement is no answer and no change |
| `FeedStores.FeedStore.Judge` | services/discovery/processor.go:215-254 | an uninterrupted judgement is the lookup and then one insert after another; each candidate that reaches the ratio or was scored at the threshold, and whose own insert does not fail, has its association, and no other has; nothing after a failed lookup, no association after an evaluation error |
| `FeedStores.JudgingMeans` | services/discovery/processor.go:215-254 | the same of the specification: the new rows, one per deserving candidate whose insert does not fail, and every older row as it was |
| `FeedStores.FeedStore.InsertResults` | services/discovery/processor.go:236-253 | a failed insert is skipped, the others stand |
| `FeedStores.FeedStore.InsertResult` | services/controllers/articles_feeds.go:19-36 | one turn: the row of a passed result, or nothing |
| `Pagination.ParseParams` | services/pagination/pagination.go:49-70 | page at least 1 and kept otherwise, size clamped to 1..100, defaults on malformed input |
| `Pagination.Offset` | services/pagination/pagination.go:87-93 | the product, or MaxInt32 when it would exceed it, with no step overflowing |
| `Pagination.BuildResponse` | services/pagination/pagination.go:100-121 | metadata against the true total, for every int64 count; rounding up wraps around exactly for counts within a page of the largest int64, and total_pages is then not positive |
| `Pagination.PageHasRowsExactly` | services/pagination/pagination.go:100-121 | a page has rows iff its number is at most total_pages, so has_next_page tells whether the next one has |
| `Pagination.PagesPartition` | services/pagination/pagination.go:87-121 | pages 1 to total_pages concatenate to the list, up to MaxInt32 rows |
| `Pagination.FarPagesEmptyExactly` | services/pagination/pagination.go:77-93 | far pages are empty iff there are at most MaxInt32 rows |
| `Pagination.BeforeIsTotal` | sqlc/articles.sql.go:173 | no two rows tie |
| `Pagination.LessMeans` | sqlc/articles.sql.go:173 | ids compare at the first character where they part |
| `Pagination.AnswerMeans` | sqlc/articles.sql.go:169-175 | an answer is the kept rows, newer ones first, and of one moment the greater id first |
| `Pagination.SomeAnswer` | sqlc/articles.sql.go:169-175 | the ordered list query has an answer |
| `Pagination.OneAnswer` | sqlc/articles.sql.go:169-175 | it has one only, whose length the count query reports |
| `Pagination.SeparateRequestsPartition` | sqlc/articles.sql.go:169-175 | pages fetched by separate requests give every matching row once, in order, while the table stands still |
| `Pagination.DateAloneRepeatsARow` | sqlc/articles.sql.go:173 | without the id tie-break two requests may repeat one row and skip another |
| `Sessions.StepKeepsSafe` | services/controllers/auth.go:56-163 | every request, taken as one step, keeps the session invariant |
| `Sessions.EveryRunSafe` | services/controllers/users.go:28-57 | over every run of such steps: at most one unrevoked token per user, active users have active preferences, live tokens and feeds have active users, claims name a session of their own user |
| `Handlers.AtOnce` | middlewares/auth.go:17-22 | let in and handled at one moment, a request is that step |
| `Handlers.SerialIsInterleaved` | middlewares/auth.go:17-22 | every run of whole requests is one of these interleavings |
| `Handlers.EveryInterleavingKeepsCore` | middlewares/auth.go:74-107 | with guard, session check, administrator check and handler at separate moments and anything in between, every part of the invariant but the owners of feeds holds |
| `Handlers.MoveKeepsOwnersExactly` | services/endpoints/v1/feeds/create.go:15-50 | a move keeps an active owner for every active feed iff it does not create a feed for a user who is gone |
| `Handlers.OwnersAgreeExactly` | services/endpoints/v1/feeds/create.go:15-50 | over whole interleavings: active feeds always have active owners iff no feed is ever created for a user removed after being let in |
| `Handlers.DeathIsFinalAnyway` | sqlc/refresh_tokens.sql.go:41-93 | a revoked or expired token is never accepted again, whatever handlers still run |
| `Handlers.RemovedUserIsOutAnyway` | services/controllers/users.go:124-142 | nor is anything of a removed user |
| `Handlers.SwitchNeedsAdminBefore` | middlewares/admin.go:99-121 | whoever moves the maintenance switch was an administrator at some moment before |
| `Sessions.DeathIsFinal` | sqlc/refresh_tokens.sql.go:41-93 | a revoked or expired token is never accepted again, by refresh or by any access token that names it |
| `AccountEffects.LogoutEnds` | services/endpoints/v1/auth/logout.go:18-20 | after a logout its session is dead and the access token refused; every other session is live iff it was |
| `AccountEffects.InvalidationEnds` | services/endpoints/v1/auth/invalidate.go:26-28 | the same of the session an administrator names |
| `AccountEffects.InvalidationOfAllEnds` | services/endpoints/v1/auth/invalidate_all.go:22-24 | the same of every session of the user an administrator names, and of nobody else's |
| `AccountEffects.LogoutIsFinal` | services/endpoints/v1/auth/logout.go:18-20 | over every later run: no refresh and no access token of that session is accepted again |
| `AccountEffects.InvalidationIsFinal` | services/endpoints/v1/auth/invalidate.go:26-28 | the same after an invalidation |
| `AccountEffects.InvalidationOfAllIsFinal` | services/endpoints/v1/auth/invalidate_all.go:22-24 | the same after an invalidation of all |
| `AccountEffects.AuthenticatedMeans` | middlewares/auth.go:51-107 | an access token is accepted iff signed, unexpired, and of a live session |
| `AccountEffects.LiveMeans` | services/controllers/refresh_tokens.go:46-60 | live: unrevoked and not past the expiry |
| `AccountEffects.AccessTokenEnds` | middlewares/auth.go:51-72 | from its expiry on, an access token is refused in every later state |
| `AccountEffects.GuardMeans` | middlewares/app_status.go:21-53 | during maintenance administrators pass the guard, and nobody else |
| `AccountEffects.LetInMeans` | main.go:193-220 | what each route asks of a request |
| `AccountEffects.ToggleMeans` | services/endpoints/v1/system/update_app_status.go:33-38 | the switch ends where the request says, and nothing else moves |
| `AccountEffects.PreferencesMean` | services/endpoints/v1/users/update_preferences.go:49-61 | saved preferences add one access token of the same session, and nothing else |
| `AccountEffects.FeedCreationMeans` | services/endpoints/v1/feeds/create.go:15-50 | the feed created is the bearer's, and there is one iff fewer than five are active |
| `AccountEffects.PromotionMeans` | sqlc/users.sql.go:105-110 | the flag of that user, if active, and no other row |
| `AccountEffects.RemovalMeans` | services/controllers/users.go:124-142 | user and preferences removed, nobody else's |
| `AccountEffects.RemovalReaches` | services/controllers/users.go:124-142 | their sessions and feeds removed, nobody else's |
| `Sessions.LoginLeavesOneSession` | services/controllers/auth.go:71-101 | after a login the new token is its user's only live one |
| `AccountEffects.EnrolledMeans` | services/controllers/users.go:28-57 | a user is enrolled iff the ids are new and no row, removed ones included, holds the identity or the address; active, no administrator, with active preferences |
| `AccountEffects.LoginMeans` | services/controllers/auth.go:56-115 | a login is of the active user of the identity, or else of a new one; it stamps that user and adds one access token; nobody else's row changes |
| `AccountEffects.LoginSessions` | services/controllers/auth.go:77-101 | the new session lasts for the configured time, the user's others end, nobody else's do |
| `AccountEffects.RefreshMeans` | services/controllers/auth.go:117-163 | a refresh extends the very session, adds one access token, stamps its user, and touches nothing else |
| `Sessions.LoginSucceedsExactly` | services/controllers/auth.go:226-237 | a login succeeds iff the identity is an active user's or entirely new; a removed identity is refused |
| `Sessions.RefreshSucceedsExactly` | services/controllers/auth.go:117-145 | in a reachable state a refresh succeeds iff the token is unrevoked and unexpired |
| `Sessions.RemovedUserIsOut` | services/controllers/users.go:124-142 | nothing of a removed user is accepted in any later state, and none of their feeds is active |
| `Sessions.DevLoginKeepsOneSessionExactly` | services/endpoints/v1/users/dev_login.go:29-60 | the development login keeps the single session iff the user had none |
| `Sessions.HandlerKeepsFeedsExactly` | services/endpoints/v1/feeds/create.go:15-50 | whatever happened since the session check, creating a feed leaves every active feed with an active owner iff the user is still active (or the id is refused) |
| `Sessions.FeedAfterRemovalSurvives` | middlewares/auth.go:74-83 | so a request let through before its user is removed leaves a feed the cascade does not reach |
| `Sessions.FeedSurvivesSomewhere` | middlewares/auth.go:74-83 | a concrete such trace |
| `Sessions.NonAdminsStayOut` | middlewares/admin.go:46-71 | without a promotion, a user who is no administrator (any more) passes no administrator route and no maintenance guard, whatever tokens they hold |
| `Sessions.SwitchNeedsAdmin` | main.go:193-220 | without an administrator the maintenance switch never moves |
| `Sessions.RefreshThenToggle` | main.go:193-207 | during maintenance, an administrator with a live refresh token brings the application back in two requests |
| `Sessions.LoginThenToggle` | main.go:193-212 | without one, a login does |
| `Sessions.RecoverableExactly` | main.go:193-220 | some run without promotion ends the maintenance iff there is an administrator |
| `SessionStores.SessionStore.constructor` | schema.sql:11-62 | a migrated database is safe |
| `SessionStores.SessionStore.FindByID` | services/controllers/refresh_tokens.go:46-60 | found, not found and expired, told apart exactly |
| `SessionStores.SessionStore.CheckSession` | middlewares/auth.go:74-83 | accepted iff live; an empty id is refused unasked |
| `SessionStores.SessionStore.AskAdmin` | middlewares/admin.go:46-67 | read from the table; a missing user is no, a failed lookup is no answer |
| `SessionStores.SessionStore.IsRequestFromAdmin` | middlewares/admin.go:75-97 | true iff signed, live, an administrator, and every lookup worked |
| `SessionStores.SessionStore.AppStatusGuard` | middlewares/app_status.go:21-53 | which requests pass, which get 503 and which 500 |
| `SessionStores.SessionStore.AdminRoute` | middlewares/admin.go:99-121 | 401 and 403 only on what the tables hold; a failed lookup is a 500 |
| `SessionStores.SessionStore.RevokeRefreshToken` | sqlc/refresh_tokens.sql.go:89-93 | afterwards the session is not live, and every other one is live iff it was |
| `SessionStores.SessionStore.RevokeAllRefreshTokensByUserID` | sqlc/refresh_tokens.sql.go:78-82 | afterwards no session of the user is live, and every other token is as it was |
| `SessionStores.SessionStore.FindUserByGoogleID` | sqlc/users.sql.go:53-57 | the one active user of the identity |
| `SessionStores.SessionStore.CreateUser` | services/controllers/users.go:28-57 | user and preferences, or a refusal |
| `SessionStores.SessionStore.FindOrCreateUser` | services/controllers/auth.go:226-237 | the known user, or a new one |
| `SessionStores.SessionStore.UpdateUserLastLogin` | sqlc/users.sql.go:165-169 | stamps the login of an active user |
| `SessionStores.SessionStore.UpdateUserLastActive` | sqlc/users.sql.go:152-156 | stamps the activity of an active user |
| `SessionStores.SessionStore.OpenSession` | services/controllers/auth.go:77-101 | all sessions of the user closed, both stamps set, and one session opened |
| `SessionStores.SessionStore.LogInTables` | services/controllers/auth.go:72-101 | the whole transaction of a login, or no change at all |
| `SessionStores.SessionStore.GenerateAccessToken` | services/controllers/auth.go:165-194 | one more access token of that user and session, or none |
| `SessionStores.SessionStore.LogIn` | services/controllers/auth.go:56-115 | the whole login; no change when a statement is refused; an open session without an access token when only signing fails, after the commit |
| `SessionStores.SessionStore.RefreshTables` | services/controllers/auth.go:124-145 | the whole transaction of a refresh, or no change at all |
| `SessionStores.SessionStore.RefreshAccess` | services/controllers/auth.go:117-163 | the whole refresh, with the same two ways to fail |
| `SessionStores.SessionStore.SoftDeleteUser` | services/controllers/users.go:124-142 | the four-part cascade, or no change at all |

## Left out

- Html.Parse: the parser is assumed; a body is its tree. That parsing fails is an input of its callers.
- Html.Render: the text it writes is not modelled, and parsing that text is assumed to give the tree back.
- Sibling nodes are one list in first-child / next-sibling form, so the source's loops over siblings are recursion here.
- Html.RewriteAnchors: does not say how many anchors changed, because only a verbose log line uses the counter.
- Judgement.Evaluate: ratios are exact rationals (`real`); the rounding of float64 division is not modelled.
- Keywords.NormalizeIdempotent: does not model Unicode case folding and white space, only ASCII.
- Discovery.ProcessSequentially: does not model context cancellation, which the sequential path does not look at either; the pool does model it.
- SessionStores.SessionStore.LogIn: does not model the profile fields and a clock that moves within one transaction.
- SessionStores.SessionStore.AdminRoute: does not check signatures; which tokens carry a valid one is the set `issued`.
- Feeds.CountersAgree: the list's period filters are unset, as in the poll it is compared with.
- Pagination.SeparateRequestsPartition: the text filter of the list is an arbitrary predicate on rows, and rows written between two requests are not modelled.
- Sweeps.Sweep: only the sequential path; the concurrent one is `Pool` and `Interleaving`.
- NoStraying.NoneEverStrays: runs contain no administrator update that changes the url of an article, because such an update does not retarget; `UpdateKeepsRowsExactly` says when it does harm.
- Sources: only status and removal; their names and urls, and the two unique indexes on those, are not part of this model.
- Articles: language_original, timestamps and the keyword suggestion queries.
- Deleting outbound rows by article id, which no code path calls.
- Outside services: OAuth exchange, AI providers, prompts and retries, language detection, RSS fetching and discovery, the restricted HTTP client. Their answers are parameters.
- HTTP plumbing: request validation, response shaping, CORS, logging, environment parsing, seeds.
- Query plans, indexes other than the unique one on active urls, and real isolation of the database.
- Skipping a tick while a sweep runs: overlapping sweeps are allowed instead, which is more general.
