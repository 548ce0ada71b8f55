# fyom: the import pipeline and its neighbours, verified

A Dafny model of the parts of the media server where behaviour emerges from several functions at once, with proofs of
what they keep. `dafny verify dfyconfig.toml` checks everything.

## What is modelled

**Import.** A library import reads a directory tree into a snapshot, classifies the directories and videos into show,
movie and episode candidates, and reconciles the candidates with the catalogue. Every stage has two forms.

- The imperative form follows the Go code: `Snapshot.BuildSnapshotRecursive`; the seven mutually recursive methods of
  `Classifier.Importer`, which append to result objects and write one claims map object shared by all walk contexts;
  `Reconcile.Reconciler` over `Catalogue.MediaRepository`; and the entry points in `ImportService`.
- Each method is proved equal to a specification function (`Snap`, `Tree`, `Run`, `ImportTree`), and the theorems are
  about those functions.

The classifier's meaning is given four times, each simpler than the one before: `Classify.Tree` passes the claims map
and the identifier supply along; `Visits.VisitsOf` is a traversal with neither; `PathMeaning.Follow` looks at the
directories above one place only; `Trails` names the files and directory names on the way down and nothing else.
`Visits.TreeRefines`, `PathMeaning.CandidateIffReached` and the lemmas of `Trails` prove that all four agree.
A filesystem (`FileSystem.FS`) is a set of fixed functions of the path; what NFO files and artwork contribute
(`showInfo`, `movieInfo`, `episodeInfo`) is uninterpreted. A store (`Catalogue.Store`) says, operation by operation,
whether a lookup errs, whether a write is accepted, and what time it is; a write that fails changes nothing. Nothing else
is assumed of it, unless a theorem says so. `Schema` adds the shipped database: `file_path` UNIQUE
(migrations/0001_init.up.sql:21), `parent_id` a foreign key (line 30) with foreign keys switched on
(internal/repository/db.go:105), dropped by no later migration. `Schema.Schematic` stores refuse exactly the violations of
these, and exist (`Schema.SchemaStoreIsSchematic`); `SchemaReimport`, `SchemaTheorems`, `SchemaRuns` and most of
`FirstImport` are about them. `Overlap` lets any number of imports interleave statement by statement.

A path (`Paths.Path`) is its cleaned components and, when it was typed in a way that filepath.Clean would change, the text
as typed: library source paths are stored as typed (internal/handler/admin_library.go:53-61) and the show at the source
directory is stored under that text. `Spelling` ties paths to texts: `Parse` and `Render` invert each other, and a path is
`Walkable` exactly when its text is clean and neither "/" nor ".".

**Migrations.** `Migrations` is a state machine: any number of starting processes take their statements in any order
over one committed database, and each statement may succeed, report busy, fail, lose its process, or (for COMMIT) take
effect and still report an error; a ROLLBACK may fail and leave the lock behind. `MigrationStart.DB` is the same code as
methods, for one start with the database to itself; `MigrationRun` gives the sequential meaning both are compared with.
Both get through busy errors: `MigrationRun.BusyStart` for the machine, `MigrationStart.AppliedIff` and `DB.Migrate` for
the methods.

**Presigned URLs** (`Presign`), with int64 arithmetic written out and the HMAC of RFC 2104 as a parameter.
**The refresh token** (`Refresh`): the coordinator, `MediaHandler.Import` and the scheduler as methods, their
interleavings as a state machine, and lemmas that the methods act as its events. **Names and paths** (`Names`, `S3Join`).

## What came out

Properties that turned out to hold only under a condition are stated with that condition, as an if-and-only-if.

- *Re-import.* README.md line 112 of the repository promises idempotence by `INSERT OR IGNORE` with stable show ids. The
  code finds, then inserts or updates, and show ids are drawn anew in each run. On any store that accepts a write which
  leaves its row as it is, re-import changes nothing exactly when every episode's upward walk leads to a show row
  (`ImportTheorems.ReimportIdempotentIff`). That fails only for episodes of a show whose directory is the source root
  itself, when the source path as typed is "/", ".", or not what filepath.Clean makes of it, such as "/srv//tv", "./tv" or
  "/srv/tv/": the show is stored under the typed text and looked up under the clean one (`FirstImport.RepeatableIff`,
  `FirstImport.SecondImportOfTyped`, `Spelling.TypedUnclean`).
- *Re-import on the shipped database.* No row ever changes, update times aside, even when the first import had
  rejections (`SchemaTheorems.SecondImport`). From a source path that is clean and neither "/" nor "." the second import
  repeats the first exactly, rejections included (`SchemaTheorems.SecondImportRepeats`). From any other it refuses the root's own episodes,
  because their update names a show id that is no row (`FirstImport.SecondImportOfNew`; example:
  `FirstImport.SlashRootNotRepeatable`).
- *Parents.* Under the foreign key every accepted episode hangs under the show row of its nearest show directory, wherever
  that is and whatever else is rejected (`SchemaTheorems.AcceptedEpisodesHaveParents`), and after any sequence of imports every
  episode row's parent is a show row of its own library (`SchemaRuns.ImportsKeepShows`).
- *One show per database.* Every show is written with an empty `file_path`, so under UNIQUE a second show is always refused
  (`CatalogueKeys.OneShowPerDatabase`, `CatalogueKeys.SecondShowRejected`). A library's first import accepts everything
  exactly when none of its files is stored in any library and it brings at most one show, the first of the database
  (`FirstImport.NewLibraryAcceptedIff`).
- *Key uniqueness.* UNIQUE(file_path) keeps catalogue keys unique over any sequence of imports, whatever lookups do
  (`Schema.SchemaKeepsKeys`), and however imports overlap (`Overlap.OverlapKeepsKeys`). The code alone does not: it drops lookup errors, and on a database without that constraint a
  step makes a key ambiguous exactly when the key is stored, its lookup errs, the identifier is new and the store accepts
  the row (`CatalogueKeys.LookupErrorDuplicates`, with an instance in `CatalogueKeys.LookupErrorExample`), or when a show candidate without a root path, looked up as "" and stored as
  "/", meets a show row at "/" (`CatalogueKeys.UniqueExactlyWhenRooted`; the classifier produces no such candidate).
- *Season directories.* The season number is read only after the spellings "season" and "Season", although the pattern
  accepts any case and the letter long s (`Names.SeasonNumberIffSpelling`).
- *Grouping directories.* A directory without videos between a show and its season directories hides the seasons: none of
  the videos below becomes an episode (`Trails.GroupingHidesEpisodes`). Inside a season any depth will do
  (`Trails.EpisodesBelowSeason`).
- *Movie directories.* The video lookup is called with an empty title, so a file whose name is only an extension, such
  as ".mkv", wins over every other video (`DirContents.VideoChoice`).
- *Presigned URLs.* The path is normalized once when signing and twice when validating: the URL generated for p admits a
  GET or HEAD request for p' if and only if, besides the shared secret and the time window, p' normalized twice is p
  normalized once (`PresignURL.GeneratedURLAcceptedIff`). Media paths do (`PresignURL.MediaURLAcceptedIff`); "/%2525" never does
  (`PresignURL.TwiceEncodedRefused`). The window is exact if and only if an int64 sum stays in range
  (`Presign.WindowExactIff`).

## Model

| member | source | states |
|---|---|---|
| Snapshot.BuildSnapshotRecursive | internal/service/importer_snapshot.go:14-51 | builds exactly the specified snapshot; an unreadable root is an error, an unreadable subdirectory is left out |
| Snapshot.SnapshotFaithful | internal/service/importer_snapshot.go:14-51 | the tree contains a path if and only if it is reachable in the filesystem through readable directories, as a directory or as a file |
| Snapshot.SnapshotOrdered | internal/service/importer_snapshot.go:28-48 | at every directory of the tree the children are the listing's readable entries in listing order, and every file has the kind its name tells |
| Snapshot.SnapshotWellFormed | internal/service/importer_snapshot.go:20-48 | when no listing repeats a name, every child lies where its name says and siblings' names differ, at every level |
| FileSystem.PathsIdentifyNodes | internal/service/importer_snapshot.go:28-48 | in a well-formed tree two places with the same path are the same place and the same node |
| FileSystem.PathAt | internal/service/importer_snapshot.go:29-47 | a node's path is the root's path extended by the names that lead to it, hence a proper extension of every ancestor's |
| Classifier.FindMovieNFO | internal/service/importer_util.go:87-141 | the two scans return the specified choice |
| DirContents.MovieNFOChoice | internal/service/importer_util.go:87-141 | the first decodable movie.nfo in any case, else the first other file ending in .nfo in any case with a titled movie, else none |
| Classifier.FindVideoFileInDir | internal/service/importer_util.go:144-172 | the scan with an empty title returns the specified choice |
| DirContents.VideoChoice | internal/service/importer_util.go:144-172 | a file that is only a video extension wins; otherwise the first video; nothing only when there is no video |
| Classifier.IsTransparentContainer | internal/service/importer_classify.go:104-118 | true exactly for a directory with a subdirectory and no video file of its own |
| Classifier.Importer.ClassifyTree | internal/service/importer_classify.go:18-98 | the result object, the shared claims map and the identifier supply end exactly as the specification says |
| Classifier.Importer.ClassifyContainerDir | internal/service/importer_classify.go:122-144 | appends to the result what the specification of a container adds, in the container's context |
| Classifier.Importer.ClassifyShowDir | internal/service/importer_classify.go:147-200 | a refusal in a movie library; else the show first, its claim, then its subtree in the show's context |
| Classifier.Importer.ClassifyMovieDir | internal/service/importer_classify.go:203-247 | a refusal, nothing when the video is claimed, or one movie and its claim |
| Classifier.Importer.ClassifyMovieDirNoNFO | internal/service/importer_classify.go:251-295 | the same for the first video child, without an NFO |
| Classifier.Importer.ClassifySeasonDir | internal/service/importer_classify.go:298-330 | subdirectories and unclaimed videos in order, in the season's context |
| Classifier.Importer.ClassifyEpisodeDir | internal/service/importer_classify.go:333-351 | the same in the unchanged context |
| Classifier.Importer.ClassifyEpisodeFile | internal/service/importer_classify.go:354-402 | one episode with a fresh identifier, its show, its numbers, and the claim to its path |
| Visits.TreeRefines | internal/service/importer_classify.go:18-402 | from any claims outside the subtree, the classifier with claims and identifiers yields what the plain traversal without them yields, identifiers aside |
| Scan.ClaimsChangeNothing | internal/service/importer_classify.go:18-402 | for a whole scan: candidates and rejections are those of the claim-free meaning, and final claims and candidates correspond one to one with matching identifiers |
| ImportContext.ClaimsBijective | internal/service/importer_classify.go:173-177 | claims made in order by candidates with distinct keys are in bijection with them |
| Scan.TreeBookkept | internal/service/importer_classify.go:146-402 | on every snapshot, repeated paths included: the claims are exactly those the candidates made, each video was unclaimed when taken, identifiers are drawn in order |
| Scan.NoVideoTakenTwice | internal/service/importer_classify.go:214-351 | on every snapshot no two movie or episode candidates share a primary path |
| Scan.SeasonVideosTakenOnce | internal/service/importer_classify.go:313-351 | every video directly in a directory handled as season or episode directory gives exactly one candidate, an episode |
| Scan.LibraryPolicy | internal/service/importer_classify.go:18-351 | movie libraries yield no show and no episode, show libraries no movie; scanned directories do not exceed the directories there are |
| Separation.CandidatesApart | internal/service/importer_classify.go:18-351 | any two candidates have different keys, different roots, and none lies inside a movie's directory |
| Separation.MovieDirsAreLeaves | internal/service/importer_classify.go:42-83 | no other candidate's root or video lies in a movie candidate's directory |
| Separation.KeysAndRootsDistinct | internal/service/importer_classify.go:146-402 | claimed keys are pairwise distinct, and so are show and movie roots |
| Separation.ContainersAreNeverRoots | internal/service/importer_classify.go:64-144 | a directory handled as a container is no candidate's root |
| Separation.RefusedExactlyOnce | internal/service/importer_classify.go:148-222 | every refused directory is in the rejections, only refused ones are, and none twice |
| PathMeaning.VisitedIffReached | internal/service/importer_classify.go:18-351 | the traversal visits exactly the places that following names downwards reaches, in the context those directories give |
| PathMeaning.CandidateIffReached | internal/service/importer_classify.go:18-402 | a candidate is produced if and only if some place reached by its own directories alone yields it: siblings, order and claims play no part |
| PathMeaning.RejectionIffReached | internal/service/importer_classify.go:148-222 | the same for rejections |
| PathMeaning.EpisodeIffInSeason | internal/service/importer_classify.go:49-59 | a video in a reached directory becomes an episode exactly when that directory is handled as season or episode directory, with numbers from its name and that context |
| Trails.EpisodeIff | internal/service/importer_classify.go:18-98 | from names and files alone: a video is an episode exactly when the search gets to its directory, and above it or there is a season-named directory of a show, with no tvshow.nfo or movie NFO below the show on the way and videos in every directory between show and season |
| Trails.EpisodeFields | internal/service/importer_classify.go:354-402 | its numbers are those of its name; a missing season is that of the nearest season-named directory, at any depth |
| Trails.EpisodesBelowSeason | internal/service/importer_classify.go:298-351 | below a season directly in a show, every video at any depth is an episode as long as no directory on the way holds an NFO of its own |
| Trails.GroupingHidesEpisodes | internal/service/importer_classify.go:104-144 | a grouping directory between a show and its seasons hides all episodes below it |
| Trails.SeasonFromDirectory | internal/service/importer_classify.go:298-359 | a video without a season in its name gets the number of the nearest "Season n" directory |
| Trails.ShowIff | internal/service/importer_classify.go:35-40 | a directory is a show exactly when the search gets there, it holds tvshow.nfo and the library is no movie library; with its columns |
| Trails.MovieIff | internal/service/importer_classify.go:42-83 | a directory is a movie exactly when the search gets there and its NFOs, its videos, the library type and what it lies in say so; with its video and NFO |
| Trails.RejectedIff | internal/service/importer_classify.go:148-222 | a directory is rejected, with which reason, exactly when the same say so |
| Trails.EveryCandidate | internal/service/importer_classify.go:18-402 | there are no other candidates |
| Trails.ScannedExactly | internal/service/importer_classify.go:33-96 | the number of scanned directories is the number of directories that the search gets to |
| Names.SeasonNumberRoundTrip | internal/service/importer_classify.go:405-416 | "Season " and any int, padded to any width, is read back |
| Names.SeasonNumberIffSpelling | internal/service/importer_classify.go:405-416 | a matching directory name has a number exactly when spelled "season" or "Season" and the number fits an int, and then which |
| Names.EpisodeInfoRange | internal/service/importer_util.go:176-188 | for every string the season is at most 99 and the episode at most 999 |
| Names.EpisodeInfoRoundTrip | internal/service/importer_util.go:176-188 | season 0 to 99 and episode 0 to 999, printed with or without padding behind a harmless prefix, are read back |
| Names.EpisodeDigitsRoundTrip | internal/service/importer_patterns.go:13 | the same for any spelling of the digits, either case of the letters, and any extension |
| Names.AltDigitsRoundTrip | internal/service/importer_patterns.go:16 | the 1x02 form is read back when the name holds no S01E02 form |
| NamePatterns.LeftmostEpisode | internal/service/importer_util.go:176-188 | for every name: the leftmost S01E02, told character by character, gives the numbers |
| NamePatterns.LeftmostAlt | internal/service/importer_util.go:176-188 | without one, the leftmost 1x02 does |
| NamePatterns.NoNumbers | internal/service/importer_util.go:187 | with neither the numbers are 0 and 0 |
| NamePatterns.SeasonNameIff | internal/service/importer_patterns.go:10 | a season directory is named "season" in any case, the long s included, any spaces, and digits |
| NamePatterns.FileKindIff | internal/service/importer_snapshot.go:54-75 | for every name: it is a video, NFO, image or subtitle exactly when it ends in one of the listed extensions, in any case |
| ShowLinks.GetShowRootPath | internal/service/importer_util.go:256-275 | the loop computes the specified upward walk |
| ShowLinks.UpwardWalkFindsNearest | internal/service/importer_util.go:256-275 | the walk returns the nearest directory with tvshow.nfo exactly when that is spelled clean and is neither "/" nor ".", and what it returns otherwise |
| Spelling.WalkableIffOrdinary | internal/service/importer_util.go:262-273 | in terms of the typed text: the walk can return exactly the texts that filepath.Clean leaves alone, "/" and "." aside |
| Spelling.TypedUnclean | internal/handler/admin_library.go:53-61 | a source path typed with a double slash, a final slash or "./" in front is not one of them |
| Spelling.ParseRender | internal/service/importfs_local.go:43-45 | every clean path with canonical components is what its spelling parses to |
| Spelling.CleanedCanonical | internal/service/importfs_local.go:43-45 | cleaning any text leaves non-empty components, no ".", and ".." only in front of a relative path |
| Spelling.DotsResolved | internal/service/importfs_local.go:43-45 | ".." takes back the name before it, wherever the two stand, and "." changes nothing |
| ShowLinks.UpwardWalkSound | internal/service/importer_util.go:256-275 | whatever the walk returns is the nearest show directory; it returns none exactly when no directory above the video but "/" and "." holds tvshow.nfo |
| ShowLinks.NearestUnique | internal/service/importer_util.go:256-275 | a file has one nearest show directory, however it is spelled |
| ShowLinks.DownwardContextIsUpwardWalk | internal/service/importer_classify.go:179-199 | every episode is preceded by the show it names, whose directory is its nearest tvshow.nfo ancestor, and the upward walk returns that directory exactly when it is walkable |
| Catalogue.MediaRepository.Create | internal/repository/media.go:255-342 | appends a row with the item's columns, the defaults, and the time of the write as both times, unless its id is taken or the write is refused; otherwise the rows stay |
| Catalogue.MediaRepository.Update | internal/repository/media.go:346-437 | the row with that id gets the item's columns and the time of the write, and keeps id, type, status and creation time; every other row, or on refusal every row, stays |
| Catalogue.MediaRepository.FindExistingItem | internal/repository/media.go:441-460 | the first row with that library, file path and type, or none |
| Catalogue.MediaRepository.FindByRootPath | internal/repository/media.go:465-484 | the first row with that library, root path and type, or none |
| Reconcile.Reconciler.ReconcileShow | internal/service/importer_reconcile.go:80-190 | the new catalogue and the result are those of the specified step |
| Reconcile.Reconciler.ReconcileMovie | internal/service/importer_reconcile.go:193-310 | the same; a candidate without a video is rejected and nothing is touched |
| Reconcile.Reconciler.ResolveShowId | internal/service/importer_reconcile.go:323-330 | the show row the upward walk leads to, else the candidate's own show id |
| Reconcile.Reconciler.ReconcileEpisode | internal/service/importer_reconcile.go:313-440 | the new catalogue and the result are those of the specified step |
| Reconcile.Reconciler.ReconcileCandidates | internal/service/importer_reconcile.go:20-77 | the final catalogue and report are those of the specified run, and accepted, rejected and unknown add up to done and total |
| Reconcile.CountsConserved | internal/service/importer_reconcile.go:20-77 | every candidate is accounted for exactly once; known kinds leave nothing unknown |
| StoredRows.AcceptedRow | internal/service/importer_reconcile.go:80-440 | an accepted candidate's row is the only one written, at the time of the write, under the reported id; every modelled column is that of its candidate and files, an update keeps status and creation time |
| StoredRows.EpisodeRowNumbers | internal/service/importer_reconcile.go:313-372 | the season and episode stored for dir/stem.ext are the positive ones of dir/stem.nfo, if it exists and parses, else those of the file name, whatever other files there are |
| Reimport.StepSettles | internal/service/importer_reconcile.go:80-440 | after a resolved step the catalogue holds a row with the candidate's key that a repetition would leave as it is |
| Reimport.RunSettles | internal/service/importer_reconcile.go:20-77 | after a run without rejections this holds of all its candidates at once |
| Reimport.RunRedoes | internal/service/importer_reconcile.go:20-77 | on a store that accepts rewrites, a run of settled candidates rejects nothing, updates exactly those rows and changes no column but the update time |
| Reimport.RunStamps | internal/repository/media.go:346-367 | such a run gives each candidate's row the time of that candidate's write and leaves every other row exactly as it was |
| Reimport.ReimportIff | internal/service/importer_reconcile.go:20-440 | on a store that accepts rewrites, a second run of the same candidates under other identifiers changes nothing if and only if every episode's walk leads to a known show |
| Reimport.KnownStamps | internal/repository/media.go:346-367 | then the second import moves exactly the update times of its candidates' rows, each to the time of its write |
| CatalogueKeys.StepTouches | internal/service/importer_reconcile.go:80-440 | one step changes at most the row with its candidate's key, or adds one with that key, and keeps keys and ids unique |
| CatalogueKeys.KeysStayUnique | internal/service/importer_reconcile.go:130-430 | over any sequence of runs of arbitrary candidates with free write failures: one row per library, file and type, one show per library and directory |
| CatalogueKeys.UniqueExactlyWhenRooted | internal/service/importer_reconcile.go:130-180 | by the code alone, without the schema: a candidate keeps every valid catalogue on every store valid if and only if it is not a show without a root path |
| CatalogueKeys.KeysBreakIff | internal/service/importer_reconcile.go:80-440 | on any store, whatever lookups do: a step makes a key ambiguous if and only if its write goes through (identifier new or row found, row accepted by the store) and a row other than the one it writes holds the key |
| CatalogueKeys.StepVerdict | internal/service/importer_reconcile.go:80-440 | a candidate is accepted exactly in those cases, under the identifier found or its own |
| CatalogueKeys.LookupErrorDuplicates | internal/service/importer_reconcile.go:130-138 | for shows, movies and episodes, on any store: a step makes a key ambiguous if and only if the key is stored, its lookup errs, the candidate's identifier is new and the store accepts its row |
| CatalogueKeys.LookupErrorExample | internal/service/importer_reconcile.go:130-138 | one stored show, one failing lookup, one store without the constraint: two rows with one key |
| Schema.SchemaKeepsKeys | migrations/0001_init.up.sql:21 | under UNIQUE(file_path) keys stay unique over any sequence of runs of arbitrary candidates, whatever lookups and other writes do |
| Schema.RunKeepsSound | migrations/0001_init.up.sql:21-30 | a run keeps the schema's constraints: distinct file paths, parents that exist, shows without a file and with a directory |
| SchemaRuns.ImportsKeepShows | migrations/0001_init.up.sql:21-30 | after any sequence of imports of changing trees every episode row's parent is a show row of its own library |
| Overlap.OverlapKeepsKeys | internal/service/importer.go:113-127 | under UNIQUE(file_path), in every statement-by-statement interleaving of any imports, with stale lookups and deaths: keys stay unique and no row is lost |
| Overlap.AloneIsRun | internal/service/importer_reconcile.go:20-77 | the statements of an import that nothing overlaps make a run of the reconciler |
| Overlap.ArrivedRuns | internal/service/importer.go:113-127 | in any trace, an import that arrives and that nothing then overlaps leaves the database as the reconciler does |
| Schema.SchemaAcceptsRewrites | migrations/0001_init.up.sql:21-30 | the shipped database accepts every write that leaves its row as it is |
| Schema.StepAcceptedIff | internal/service/importer_reconcile.go:80-440 | on the shipped database a candidate is rejected exactly when another row holds its file path, or it is an episode that finds no show row and whose own show is no row; a rejection changes nothing |
| SchemaReimport.RunFates | internal/service/importer_reconcile.go:20-77 | after a run every accepted candidate has its row, and every rejected one is barred for good |
| SchemaReimport.RunAgain | internal/service/importer_reconcile.go:20-77 | a second run of those candidates changes no row, and accepts, as updates, exactly the accepted ones that are no orphans |
| SchemaReimport.ReportOf | internal/service/importer_reconcile.go:29-74 | the report lists exactly the accepted and the rejected results, in candidate order |
| CatalogueKeys.RunPreserves | internal/service/importer_reconcile.go:20-440 | whatever fails, lookups included: no row is lost or moved or changes id, library, type, status or creation time, and other libraries' rows are untouched |
| CatalogueKeys.NothingLost | internal/service/importer_reconcile.go:20-440 | the same over any sequence of runs; rows of a library no run names are exactly as before |
| CatalogueKeys.OneShowPerDatabase | migrations/0001_init.up.sql:21 | under UNIQUE(file_path) no sequence of runs ever leaves two show rows |
| CatalogueKeys.SecondShowRejected | migrations/0001_init.up.sql:21 | once a show is stored, a show under a new key is rejected and nothing changes |
| ImportTheorems.ScanWellOrdered | internal/service/importer_classify.go:18-402 | the classifier's candidates have distinct catalogue keys, and a show precedes every episode that walks to it |
| ImportTheorems.ReimportIdempotentIff | internal/service/importer.go:48-87 | importing a tree twice, the second time on a store that accepts rewrites: the second import accepts all as updates of the same rows and changes nothing if and only if every episode's walk leads to a known show |
| ImportTheorems.ReimportIdempotent | internal/service/importer.go:48-87 | it always does when the source path is clean and neither "/" nor "." |
| ImportTheorems.ReimportDirectory | internal/service/importer.go:48-87 | the same from the filesystem, through the snapshot |
| ImportTheorems.ParentIntegrity | internal/service/importer_reconcile.go:323-402 | when no lookup errs and no show is rejected, every accepted episode hangs under the row of its nearest show directory, in the same library, for every such directory the walk can return, on first import and re-import alike |
| ImportTheorems.EpisodeHasShow | internal/service/importer_classify.go:179-199 | every episode has a nearest show directory, the source directory or one below it, whose show candidate precedes it |
| SchemaTheorems.AcceptedEpisodesHaveParents | internal/service/importer_reconcile.go:323-402 | under the foreign key the same holds of every accepted episode, without those conditions |
| SchemaTheorems.AcceptedAreImported | internal/service/importer.go:48-87 | at the end of an import every accepted item has a row in the imported library, with the provider and the columns that its candidate and files give |
| SchemaTheorems.SecondImport | internal/service/importer.go:48-87 | a second import into the shipped database changes no row whatever the first rejected, and accepts a candidate exactly when the first did and it is no episode whose walk leads to no show row |
| SchemaTheorems.SecondImportRepeats | internal/service/importer.go:48-87 | from a walkable source root the second import rejects the same with the same reasons and accepts the rest as updates of the same rows |
| Parents.RunParents | internal/service/importer_reconcile.go:323-402 | the same at the level of runs: after any prefix, accepted episodes whose walk leads to a listed show hang under its row |
| ImportTheorems.ImportCounts | internal/service/importer.go:89-111 | for classifier output nothing is unknown and accepted plus rejected is the number of candidates |
| FirstImport.NewLibraryAcceptedIff | internal/service/importer_reconcile.go:20-440 | the first import of a library into the shipped database accepts everything if and only if none of its file paths is stored yet and it has at most one show |
| FirstImport.ImportedTwice | internal/service/importer.go:48-87 | then, from a walkable source root, a second import accepts everything as updates and changes nothing |
| FirstImport.RepeatableIff | internal/service/importer_util.go:256-275 | a library's first import, if nothing failed, can be repeated without change, on a store that accepts rewrites, if and only if the source root is walkable or owns no episode itself |
| FirstImport.SecondImportOfNew | internal/service/importer_util.go:256-275 | on the shipped database, from any source root: no row changes, and all that was accepted is accepted again except episodes owned by a root that is not walkable |
| FirstImport.SecondImportOfTyped | internal/service/importer.go:52-65 | the same for the source path as typed: the exception needs a text that is unclean, "/" or "." |
| FirstImport.SlashRootNotRepeatable | internal/service/importer_util.go:256-275 | the snapshot of a filesystem with a show directly under "/", imported twice into the empty shipped database: all accepted, then an episode refused, no row changed |
| ImportService.BuildImportSummary | internal/service/importer.go:89-111 | imported and updated count the two actions and add up to accepted; one warning per rejection in order |
| ImportService.SecondSummary | internal/service/importer.go:89-111 | the summary of a second import into the shipped database, from a walkable source root: nothing imported, all accepted items updated, as many skipped and the same warnings as the first time |
| ImportService.ImportService.ImportLibrary | internal/service/importer.go:48-87 | the catalogue ends as specified, imported + updated + skipped is the number of candidates, nothing happens on an unreadable root |
| ImportService.ImportService.RunImport | internal/service/importer.go:130-169 | a job marked done has equal totals, the number of candidates; the status follows from which job writes succeed |
| BusyRetry.WithSQLiteBusyRetry | internal/repository/db.go:261-299 | 1 to 6 calls, all but the last busy, nil exactly when the last returned nil, other errors at once, exact waiting time of at most 775 ms |
| Migrations.AppliedAtMostOnce | internal/repository/db.go:302-341 | in every interleaving with crashes, errors, lost commits, failing rollbacks and retries no version is recorded twice and the schema is the fold of the recorded scripts in log order |
| Migrations.ReturnedNil | internal/repository/db.go:302-341 | a start that returned nil has every version recorded; the versions one start applied ascend strictly |
| Migrations.LogOnlyGrows | internal/repository/db.go:419-469 | no continuation of a run loses or reorders a recorded version |
| Migrations.FailedRollbackBlocks | internal/repository/db.go:444-448 | a ROLLBACK that fails keeps every start, its own included, from applying anything until its process dies |
| Migrations.ExecKeeps | internal/repository/db.go:302-469 | the invariant behind them holds after every run |
| MigrationRun.BusyStart | internal/repository/db.go:261-469 | a start alone on its database completes and leaves exactly what running the unrecorded scripts once in order would, whatever the events, as long as at most five statements report busy, no ROLLBACK among them, and nothing else goes wrong |
| MigrationRun.UndisturbedStart | internal/repository/db.go:302-469 | in particular when nothing disturbs it |
| MigrationRun.SixTries | internal/repository/db.go:261-299 | a statement that keeps reporting busy is tried six times, then the start ends |
| MigrationRun.HardErrorEndsStart | internal/repository/db.go:261-299 | any other error, and the end of the context, ends the start without touching the database, after the ROLLBACK of an open transaction |
| MigrationStart.DB.AttemptTx | internal/repository/db.go:425-463 | the transaction takes effect as a whole or not at all, a lost commit report included |
| MigrationStart.DB.ApplyMigration | internal/repository/db.go:419-469 | over all busy retries the script is applied at most once; success means it was, by this call; result, database and statements used are those of the specified attempts |
| MigrationStart.AppliedIff | internal/repository/db.go:425-463 | in terms of the environment alone: an applicable migration is applied exactly when at most five attempts end busy, at whichever statement, and the next meets no error |
| MigrationStart.AppliedAfterBusy | internal/repository/db.go:425-463 | then it is applied once, by the last attempt |
| MigrationStart.SixAttemptsAtMost | internal/repository/db.go:261-299 | after a sixth busy attempt nothing is tried any more |
| MigrationStart.HardErrorEnds | internal/repository/db.go:261-299 | any other error ends the attempts at once, and is the result |
| MigrationStart.DB.CreateVersionTable | internal/repository/db.go:303-311 | succeeds exactly when one of at most six tries does, after busy ones with the context alive |
| MigrationStart.DB.IsMigrationApplied | internal/repository/db.go:380-417 | answers exactly when the first query succeeds, or is busy and one of six more does, after busy ones with the context alive; the answer is right |
| MigrationStart.DB.Migrate | internal/repository/db.go:302-341 | success leaves the sequential meaning; after a failure a new start has the same outcome ahead of it; when the database is merely busy, never for six attempts in a row, it fails only when a script does |
| MigrationFiles.CollectMigrations | internal/repository/db.go:348-378 | ascending by version, exactly the qualifying entries, each as often as listed |
| MigrationFiles.VersionOfNumbered | internal/repository/db.go:356-366 | a file named n_title.up.sql has version n |
| MigrationFiles.VersionOfIff | internal/repository/db.go:351-366 | exactly which entries have a version, and which |
| Presign.WindowExactIff | pkg/presign/presign.go:100-110 | the window is t-30 to t+E for every checking time if and only if t+2E+30 fits an int64 |
| Presign.ValidatesForIff | pkg/presign/presign.go:55-119 | expiry and signature that one signer makes for path p validate a GET or HEAD request for p' at another server exactly when they share a secret, the time is in the window both expiries give, and p' normalized twice is p normalized once |
| Presign.GeneratedValidatesIff | pkg/presign/presign.go:55-119 | for p itself: exactly in that window, if p survives a second normalization |
| PresignURL.URLCarries | internal/middleware/presign.go:43-45 | the middleware reads exp and sig back out of a generated URL, unless its path came with a parameter of that name, bare or escaped ones included |
| PresignURL.GeneratedURLAcceptedIff | internal/middleware/presign.go:35-47 | the same from two NewSigners through Generate to the middleware, for any method, secrets and configured expiries, the default included |
| PresignURL.MediaURLAcceptedIff | internal/provider/local.go:34-62 | the URLs the local provider signs admit GET and HEAD for their own paths exactly at servers with their secret, from 30 s before to the expiry after |
| PresignURL.MediaURLText | pkg/presign/presign.go:55-70 | their text, character by character, from secret, path and time |
| PresignURL.TwiceEncodedRefused | pkg/presign/presign.go:90-124 | the URL generated for "/%2525" is refused at every time, for that path and for the one its request has |
| Presign.EncodingInjective | pkg/presign/presign.go:122-132 | the signed string determines method, path and expiry, for every path, when the method holds no newline |
| Presign.SignatureBinds | pkg/presign/presign.go:85-132 | for token methods a signature validates only for its normalized method, signed path and expiry |
| Presign.HexRoundTrip | pkg/presign/presign.go:68-115 | decoding an encoded signature returns it |
| Presign.SharesGetIff | pkg/presign/presign.go:134-143 | among token methods exactly the spellings of GET and HEAD share a signature with GET |
| PresignURL.QueryIgnored | pkg/presign/presign.go:145-166 | a query is no part of the path that is signed |
| S3Join.Join | internal/service/importfs_s3.go:149-156 | the loop ends, leaves no double slash, and equals the single-pass collapse of slash runs |
| S3Join.JoinKeepsSegments | internal/service/importfs_s3.go:149-156 | the non-empty segments of the result are those of the elements in order |
| S3Join.BaseNameOfJoin | internal/service/importer_util.go:231-245 | the base name of dir joined with a plain name is that name |
| Spelling.RenderedBaseName | internal/service/importer_util.go:231-245 | on the spelling of a path, typed or clean, it returns the path's base name |
| Refresh.RefreshCoordinator.TryStart | internal/server/refresh_coordinator.go:24-33 | succeeds exactly when the library is not marked, and then marks it and nothing else |
| Refresh.RefreshCoordinator.Finish | internal/server/refresh_coordinator.go:37-41 | unmarks that library and nothing else |
| Refresh.Import | internal/handler/media.go:939-1033 | the HTTP status of every exit; a success keeps the token, a failure after TryStart gives it back exactly once, any other exit leaves it alone |
| Refresh.CheckAndRefreshLibraries | internal/server/server.go:524-596 | a worker, holding the token, for exactly the due libraries nobody held, one each even if listed twice |
| Refresh.RunWorker | internal/server/server.go:570-593 | the token is given back whatever the import does; the refresh time is stored only on success |
| Refresh.ImportActsAsEvents | internal/handler/media.go:939-1033 | Import leaves the coordinator as one Ask and, if granted, one success or one Finish do |
| Refresh.CheckActsAsEvents | internal/server/server.go:524-596 | the scheduler's check leaves it as one Ask for each due library in turn does |
| Refresh.TokenHasOneOwner | internal/server/refresh_coordinator.go:24-41 | in every interleaving a library is marked if and only if someone took its token and has not given it back, and then exactly one has |
| Refresh.FinishIsByOwner | internal/server/server.go:553-594 | every Finish is by the current owner, frees that library and no other |
| Refresh.GivesBackOnce | internal/handler/media.go:964-1033 | a user gives its token back exactly once if it ended that way, never otherwise |

## Left out

- StoredRows.AcceptedRow: titles, plots, credits, codecs, ratings and artwork are one uninterpreted column, since XML decoding, artwork lookup, JSON encoding and NFO field copying are not modelled.
- Classifier.Importer.ClassifyEpisodeFile: does not model the episode candidate's NFO path, confidence and evidence; they do not reach the rows, and reconciliation looks the NFO up again.
- Classifier.Importer.ClassifyTree: does not model the context's current path, depth, season root and scan id, which only the episode candidate's NFO path reads.
- Names.SeasonNumberIffSpelling: lower-casing and case-insensitive matching are modelled where the result is ASCII; other Unicode case pairs never match.
- Names.AltDigitsRoundTrip: prefixes with digits are excluded, because a digit directly before the number is read as part of it.
- ImportTheorems.ReimportDirectory: paths are those of the local filesystem, with "/" as separator; backslashes in names and S3 logical roots, which are joined without cleaning, are not modelled.
- ImportTheorems.ParentIntegrity: show directories the upward walk cannot return are left to SchemaTheorems.AcceptedEpisodesHaveParents, which needs the foreign key.
- Catalogue.MediaRepository.FindExistingItem: SQL row order among several matches is insertion order; with unique keys it does not matter.
- Catalogue.MediaRepository.Create: the primary key is modelled here, UNIQUE(file_path) and the parent foreign key in Schema; CHECK and NOT NULL constraints are not.
- Catalogue.MediaRepository.Update: the retry around each statement is not repeated; its outcome is the store's.
- ImportService.ImportService.ImportLibrary: the query for the library row is left out; its source path and type are parameters.
- ImportService.ImportService.RunImport: the job runs to its end; at most one job per library is not claimed, since the request returns before its goroutine finishes (Overlap covers what then happens to the catalogue).
- MigrationStart.DB.RollbackTx: a failing ROLLBACK shows as the error of the next BEGIN, which the fault oracle may report; Migrations models the lock it leaves behind.
- MigrationStart.DB.Migrate: one start with the database to itself; several at once are the state machine of Migrations. Its transaction's retry loop is written out, because the retried function changes state.
- Migrations.AppliedAtMostOnce: scripts are functions of the schema; a script that ends its own transaction is outside the model.
- BusyRetry.WithSQLiteBusyRetry: the recognition of busy errors by their text is a given of each call's result.
- MigrationFiles.CollectMigrations: the search for the migrations directory is a parameter; the order of equal versions is left open.
- Presign.SignatureBinds: HMAC is idealised as an uninterpreted injective function, URL parsing a parameter; upper-casing of methods outside ASCII is not modelled.
- PresignURL.URLCarries: paths with a fragment are excluded, since the appended parameters would belong to it.
- PresignURL.MediaURLAcceptedIff: of url.Parse it is assumed only that a string with one slash in front, no fragment and no control character yields the percent-decoding of what stands before "?", or an error.
- Refresh.Import: HTTP decoding, authorization and the library, provider and job repositories are outcomes of the request.
- Refresh.CheckAndRefreshLibraries: that refreshes are at least one interval apart is not claimed, since the due check precedes TryStart.
- Reading NFO metadata before reconciliation (stage 3) and the season of the candidate: reconciliation reads both again and ignores the earlier values.
- Listing, deletion, pagination, statistics, watch status, permissions, authentication, HTTP plumbing, S3 and AWS calls, the desktop shell and the web frontend.
