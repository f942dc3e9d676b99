# Meshploy: packing, the edge and the host agent

A Dafny model of six parts of Meshploy whose correctness needs more than one function to see, with
proofs of what they promise. `dafny verify dfyconfig.toml` checks the whole project.

| part | modules |
|---|---|
| Packing a folder for upload: ignore files, the pruning walk, the order of the archive, links | `Ignore`, `Regex`, `Scopes`, `Pack`, `Archive`, `Paths` |
| The counts the edge follows to reload what it serves from memory | `EdgeVersion` |
| The host agent's request runner and the requests it takes | `Requests`, `Runner` |
| The edge snapshot, the installer's merges into it, and an apply as a transaction | `Snapshot`, `Merge`, `EdgeConfig`, `EdgeRender`, `EdgeApply`, `EdgeRuns` |
| The host firewall's verdict on a port, from the reports of ufw and firewalld | `Firewall`, `PortSpec`, `PortRules`, `UfwStatus`, `UfwPrinted`, `UfwReport`, `Firewalld` |
| Text with exact guarantees: shell quoting, base domains, slugs | `Shell`, `BaseDomain`, `Slugs` |

`Prelude`, `Text` and `Sorting` hold what they share.

Code that works step by step is modelled as methods and classes with the source's own state: the walk
with its scope map and entries, the watch table, the follower's `seen` and `last`, the runner's
`running` map, the install directory with its backup, the gateway. Each method's contract ties the
new state to a function of the old, and the lemmas are about those functions. Where steps of several
parties interleave - transactions and a follower, an inbox and its workers, requests over a host's
life - the steps form a state machine, and the theorems speak of every run of it.

**Packing.** An ignore line is turned into a regular expression, written as text. The text is parsed
as the expression language parses it and given a meaning, and that meaning is compared with a direct
reading of the pattern as a glob. The walk finds `.gitignore` files as it goes; what it keeps is
compared with a definition that looks at all the ancestors of an entry at once.

**Edge counts.** Each open transaction holds the count rows it moved. `ServedAfterCheck` and
`StaleFor` hold for every interleaving, with reads of the count failing at will.

**Requests.** `Runner.CheckIsARun` ties the sweep as written to the steps of the machine.

**Edge apply.** `Gateway.Apply` follows the apply through every place it can fail, with the failure
of each write, restart and reload free. `EdgeApply.ApplyStep` lists what each way to end leaves,
`EdgeApply.Follows` ties each way to its cause, and `EdgeRuns` shows what whole runs keep. What a
service runs is the files it read when it was last restarted or reloaded; a restart that fails leaves
it down, a reload of Caddy that fails leaves Caddy as it was.

**Firewall.** The meaning of a source and of an application profile is left open: soundness holds for
every relation between sources and addresses. For ufw it goes from the report as printed to the host's
own rules.

## Where the code and its documentation differ

The model follows the code. Each of these is a lemma.

- A folder-only ignore line also ignores a file at the top of the folder when its pattern matches "."
  (`path.Dir` of a top name): `Scopes.FolderOnlyIff`.
- "Not a request the agent will ever run" also holds of a valid request whose file could not be read
  for a moment, or that was left under the name of a file just found to be none: it is discarded.
  `Runner.DiscardedIff`, with a run for each.
- "A changed token needs a reload" is not met after a rejected Caddyfile: the token is then on disk,
  is no change to the next apply, and stays unloaded. `EdgeRuns.TokensLoadedIff` gives the condition,
  `EdgeRuns.RejectedTokenExample` a host.
- "Never open", of a port that rules not interpreted might decide (packages/hostagent/report.go:73-76):
  it is open whenever an interpreted rule from anywhere lets it in, and a rule left out can then make
  that wrong. `Firewall.UnparsedExactly`; `Firewalld.RichZoneOpenIsWrong` gives a zone.
- A zone is known to have rich rules only when the first stands in the line of their heading. Listed
  under it, one a line (as in packages/hostagent/hostagent_test.go:170-187), they are not noticed:
  `Firewalld.RichRulesBelowAreMissed`.
- A ufw rule for some ports of one address (packages/hostagent/ufw.go:86-87) becomes one for those
  ports of every address: `PortRules.DestinationMeansIff`. The ports are then called blocked, or open,
  where packets for the host's other addresses are not: `UfwReport.AddressMisleads`,
  `UfwReport.AddressMisleadsOpen`. A rule for every port of one address, or for a protocol alone, is
  passed over or makes the verdict unknown: `PortRules.AddressIsPassedOver`.
- "The host firewall drops it" (packages/hostagent/port.go:14) is not so of a port firewalld lets in by
  its protocol, by its sender's port or by forwarding it: `Firewalld.ZoneVerdictIsTrueIff`, with a zone
  in `Firewalld.ProtocolsAreMissed`.
- A zone's name is "also its filename" (apps/cli/internal/edgeconfig/render.go:82-83), and two zones of
  a valid snapshot can have one name: `EdgeRender.OwnFilesIff`, `EdgeRender.SharedFileHappens`.
- "Every full regardless" bounds how long a change waits from the follower's start, when it was made
  before: `EdgeVersion.StaleFor` gives the bound, `EdgeVersion.StaleFromBeforeTheStart` a run past the
  one from the change.

## Model

| member | source | states |
|---|---|---|
| `Ignore.ReadsIff` | packages/client/pack.go:254-270 | a text gives a line exactly when it is that line as it is written - `!`, a slash, the pattern, a slash - with blanks after it, the line anchored by a slash before the pattern or in it; anything else, a comment among it, gives none |
| `Ignore.ParseIgnoreLine` | packages/client/pack.go:254-304 | builds, character by character, exactly the rule whose expression `CompiledLineMeans` gives a meaning |
| `Ignore.WritePattern` | packages/client/pack.go:271-297 | the loop over the pattern writes one piece of expression for each glob piece |
| `Ignore.SourceCompiles` | packages/client/pack.go:298-301 | every expression a line is turned into is well formed and reads back as the intended syntax tree |
| `Ignore.BodyMatches` | packages/client/pack.go:277-297 | from a given start, the expression of a pattern matches to the end exactly when the pattern read as a glob does |
| `Ignore.SearchIsGlob` | packages/client/pack.go:271-297 | an unanchored search for the expression succeeds on a path exactly when the glob matches it, at the top when anchored, at some component otherwise |
| `Ignore.GlobChar` | packages/client/pack.go:277-297 | in a glob `?` stands for one character of a component and any other but `*` for itself |
| `Ignore.GlobStar` | packages/client/pack.go:277-297 | `*` for any part of a component |
| `Ignore.GlobAny` | packages/client/pack.go:277-297 | `**` for anything within a line |
| `Ignore.GlobFolders` | packages/client/pack.go:277-297 | `**/` for nothing or whole components |
| `Ignore.CompiledLineMeans` | packages/client/pack.go:254-304 | compilation keeps the meaning: a text gives a rule exactly when it says a line, as `ReadsIff` has it, and for every path the rule answers as that line's glob does |
| `Scopes.LoadIgnore` | packages/client/pack.go:236-252 | the rules of a file are those of its lines, in order |
| `Scopes.Decide` | packages/client/pack.go:313-323 | carrying on from what was asked before, the last rule that applies decides |
| `Scopes.Match` | packages/client/pack.go:211-228 | terminates; a path is ignored exactly when, of the whole list of (view of the path, rule) pairs, the last rule that applies is there and is not one that takes back |
| `Scopes.FolderDecides` | packages/client/pack.go:313-323 | the rules of a folder decide as its lines say, the last line that speaks first, and leave a path none speaks of to what was decided before |
| `Scopes.PathDecides` | packages/client/pack.go:205-228 | the rules of the folders above a path take it out exactly when, of all their lines from the top down, the last that speaks of it, read as a glob, does |
| `Scopes.ViewsOfPath` | packages/client/pack.go:213-227 | the scan visits exactly the top and the proper folder prefixes of the path, from the top down, each with the rest of the path |
| `Scopes.MatchIsAskPath` | packages/client/pack.go:205-228 | with a scope map that agrees with the folders above a path, the scan asks the rules of those folders and no others |
| `Scopes.MatchesBeneath` | packages/client/pack.go:296-297 | a pattern that matches a path matches everything beneath it |
| `Scopes.FolderOnlyIff` | packages/client/pack.go:312-318 | a folder-only rule decides a file by its folders exactly when the file is below the top or the pattern does not match both "." and its name |
| `Scopes.FolderOnlyIgnoresATopFile` | packages/client/pack.go:312-318 | an input on which a folder-only rule ignores a file: `*/` and a file at the top |
| `Pack.Packer.LeavesOut` | packages/client/pack.go:87-101 | the visit stops at a name exactly when the rules of its own ancestors, found so far, say so |
| `Pack.Packer.Enter` | packages/client/pack.go:102-106 | entering a folder keeps the scope map in agreement with the tree |
| `Pack.Packer.Visit` | packages/client/pack.go:80-117 | visiting a node appends the pruned listing of its subtree to what was collected, whatever was collected before |
| `Pack.Packer.VisitKids` | packages/client/pack.go:80-117 | the same for the nodes of a folder still to visit |
| `Pack.WalkFolder` | packages/client/pack.go:72-120 | the walk collects the pruned listing of the whole tree |
| `Archive.WalkKeepsExactly` | packages/client/pack.go:72-120 | an entry is collected exactly when neither it nor any folder above it is always skipped, an env file or ignored by its own ancestors, and it is a file, folder or symlink |
| `Archive.NeverPackedIff` | packages/client/pack.go:39-54 | the names never packed are the six listed, and `.env` or `.env.x` that does not end as an example does |
| `Archive.KeptIff` | packages/client/pack.go:80-120 | with no rule in between: a file, folder or link is kept exactly when no name on its path is one of those, and of no part of its path the last line that speaks, in the folders above it, takes it out |
| `Archive.CollectedDistinct` | packages/client/pack.go:80-121 | no path is collected twice |
| `Archive.EntriesAreKeptInOrder` | packages/client/pack.go:80-121 | the archive lists exactly the kept entries, strictly increasing by path |
| `Archive.ArchiveIgnoresListingOrder` | packages/client/pack.go:56-59 | two trees with the same files, listed in any order, give the same entries |
| `Archive.FoldersComeFirst` | packages/client/pack.go:121-132 | every folder above an entry is in the archive, before it |
| `Archive.PackFolder` | packages/client/pack.go:72-187 | the headers written carry the path of each entry in order, a slash after a folder's and the target of a link, and the folder is refused exactly for the first link that leads outside or, without one, for no file at all |
| `Archive.PacksIff` | packages/client/pack.go:133-179 | a folder packs exactly when some file is kept and no kept link leads out of it at any step |
| `Paths.LinkAllowedIff` | packages/client/pack.go:138-143 | a link is accepted exactly when its target is relative and walking it from its folder never rises above the packed folder |
| `Paths.JoinInjective` | packages/client/pack.go:87-87 | two paths of valid names are written the same only when they are the same |
| `Text.LessIff` | packages/client/pack.go:121-121 | in the order of the archive a path comes before another when it is a proper prefix or smaller where they first differ |
| `EdgeVersion.EdgeTables.WatchEdgeTables` | packages/db/edge_version.go:58-64 | appends the count to each named table, changing no other |
| `EdgeVersion.WatchedAdds` | packages/db/edge_version.go:58-64 | registering watches each table for the name once more for each time it is listed, and changes no other |
| `EdgeVersion.WriteMoves` | packages/db/edge_version.go:91-111 | a write to a table that is named moves each count by the number of times the table is watched for it |
| `EdgeVersion.Session.BumpEdgeVersions` | packages/db/edge_version.go:91-111 | in its session moves every count by the number of times the table is watched for it, nothing for a failed or empty write or one that names no table, and those of a prefix when one bump fails |
| `EdgeVersion.BumpedValue` | packages/db/edge_version.go:101-110 | a count moves by the number of times it stands in the list, and no other moves |
| `EdgeVersion.TurnsKeepUp` | packages/db/edge_version.go:129-146 | over any turns of the loop, whatever is read: what was seen is the last count read, it reloads at each turn that reads another count, and never is `full` past a reload; `Follower.Check` is one turn |
| `EdgeVersion.BumpsAreBumped` | packages/db/edge_version.go:101-110 | the machine's single bumps, held in an open transaction, add up to what the loop does |
| `EdgeVersion.RunKeeps` | packages/db/edge_version.go:91-146 | every step of every interleaving of transactions, outside changes, checks and loads keeps the invariant tying rows, log and cache together |
| `EdgeVersion.CountMovesIff` | packages/db/edge_version.go:14-22 | in any step a count moves exactly when a transaction commits that wrote a table watched for it; it never moves back |
| `EdgeVersion.FirstReadReloads` | packages/db/edge_version.go:125-128 | the first check that reads the count reloads everything |
| `EdgeVersion.ServedAfterCheck` | packages/db/edge_version.go:120-146 | no lost update: a counted change to a table watched for the count, committed before a check that reads it, is served once that check is over, in every interleaving, transactions open at the start included |
| `EdgeVersion.StaleFor` | packages/db/edge_version.go:120-146 | even if no read of the count succeeds, a change not served between reloads is less than `full` and one tick old, counted from the follower's start if that is later |
| `EdgeVersion.StaleFromBeforeTheStart` | packages/db/edge_version.go:120-128 | a run in which a change from before the start is older than that and not served |
| `Requests.ValidateRequest` | packages/hostagent/requests.go:203-229 | accepts exactly the valid requests, and of any other names the first check it fails |
| `Requests.FileNameInjective` | packages/hostagent/requests.go:199-200 | two pairs of type and id share no file name |
| `Requests.FileNameNeedsTheIdLength` | packages/hostagent/requests.go:199-200 | which rests on the id: two pairs that do share one, when ids may be any text |
| `Requests.ValidRequestIsRead` | packages/hostagent/requests.go:193-197 | the file name of a valid request matches the pattern and is none of the reserved names, so the request is read back |
| `Runner.RequestRunner.TryStart` | apps/cli/cmd/host_requests.go:119-124 | marks a type running and tells whether it was |
| `Runner.RequestRunner.Done` | apps/cli/cmd/host_requests.go:142-146 | clears a type |
| `Runner.RequestRunner.Start` | apps/cli/cmd/host_requests.go:119-138 | a request read is started exactly when its type was not running and its file could be removed; otherwise nothing changes |
| `Runner.RequestRunner.Check` | apps/cli/cmd/host_requests.go:92-140 | one sweep, told from the files and types of before: it starts, in the order of the listing, exactly the first request of each type that was not running and whose file can be removed; it marks their types; and it removes their files and those that are no requests, and no others |
| `Runner.SweepStartsFirsts` | apps/cli/cmd/host_requests.go:92-140 | that this is so of sweeping the names one by one |
| `Runner.ReservedIff` | apps/cli/cmd/host_requests.go:100-111 | the names it passes over are those that begin with a dot and the three files of the API |
| `Runner.CheckIsARun` | apps/cli/cmd/host_requests.go:92-140 | a sweep on its own is a run of the machine below, ending in the state its result describes |
| `Runner.RunKeeps` | apps/cli/cmd/host_requests.go:83-146 | every interleaving of deposits, sweep steps, worker finishes and takings keeps the invariant |
| `Runner.OneOfEachType` | apps/cli/cmd/host_requests.go:83-146 | at most one live worker of a type, and between sweeps `running` is exactly the live workers' types |
| `Runner.EachRequestOnce` | apps/cli/cmd/host_requests.go:92-140 | a valid request deposited is in exactly one of inbox, hand, live, finished and discarded, no other is in any, and none is started twice |
| `Runner.DiscardedIff` | apps/cli/cmd/host_requests.go:112-117 | over every run: a valid request is thrown away exactly when, at some step of it, the sweep removes the file it stands in as one it read no request from |
| `Runner.UnreadableIsDiscarded` | apps/cli/cmd/host_requests.go:112-117 | a run from the start that does it: the file of a request cannot be read for a moment |
| `Runner.ReplacedIsDiscarded` | apps/cli/cmd/host_requests.go:112-117 | another: a request is left under the name of a file just found to be none |
| `Runner.NothingDiscarded` | apps/cli/cmd/host_requests.go:112-117 | nothing is, in a run in which every read of a waiting request succeeds and none is left under a name just looked at |
| `Runner.ReservedFilesStay` | apps/cli/cmd/host_requests.go:100-111 | no step of a sweep touches the credential, the domain set, the DNS tokens or a dot file |
| `Runner.JunkIsRemoved` | apps/cli/cmd/host_requests.go:112-117 | two steps of the machine read together: a file that is not a request goes, with no type marked |
| `Snapshot.ValidEdgeName` | packages/hostagent/edge.go:303-329 | accepts exactly names of labels of 1 to 63 letters, digits and inner hyphens, at most 253 characters in all |
| `Snapshot.NamesAreInert` | packages/hostagent/edge.go:296-302 | an accepted name holds no character a generated file could take as syntax |
| `Snapshot.ValidateDomains` | packages/hostagent/edge.go:200-250 | the loop accepts exactly domains each fit to serve, no two of one name, with one primary |
| `Snapshot.ValidateProjectNames` | packages/hostagent/edge.go:261-279 | accepts exactly two-label names outside every internal zone, none twice |
| `Snapshot.Validate` | packages/hostagent/edge.go:193-290 | accepts exactly the valid snapshots |
| `Snapshot.Primary` | packages/hostagent/edge.go:178-185 | the first primary |
| `Snapshot.SortedIsTheOrder` | packages/hostagent/edge.go:331-347 | the order is the primary first, the rest strictly ascending, none lost or added, and no other list is |
| `Snapshot.RowOrderDoesNotShow` | packages/hostagent/edge.go:331-347 | two valid snapshots of the same domains in any order are rendered in one order |
| `Merge.MergeEnvIntoSnapshot` | apps/cli/cmd/domain.go:264-341 | gives the snapshot of a domain already known in its new mode, or of a new primary before the others demoted, or refuses |
| `Merge.MergeGoesThroughIff` | apps/cli/cmd/domain.go:264-341 | exactly when a merge into a valid snapshot goes through, as a condition on the settings |
| `Merge.MergeKeeps` | apps/cli/cmd/domain.go:284-336 | a merge is valid, keeps every domain with its label, provider and project, keeps the platform's names on every domain that had them, keeps the mesh's name, and moves the primary exactly for a new name |
| `Merge.MergeTakes` | apps/cli/cmd/domain.go:240-336 | what a merge takes from the settings: the mode asked for or delegation, the mesh address given or the usual one, the public one given or, for a domain already known, that of before; every other field stays, or starts blank for a new domain |
| `Merge.MergeTwice` | apps/cli/cmd/domain.go:284-336 | merging the same settings again changes only the time written |
| `Merge.InstallerKeeps` | apps/cli/cmd/domain.go:240-341 | over every run of re-installs from an empty host or any valid snapshot: always valid, no base domain lost, whatever was primary still serves the platform, the mesh's name never changes |
| `EdgeConfig.Plan` | apps/cli/internal/edgeconfig/apply.go:79-137 | finds every difference once and sorts them by path |
| `EdgeConfig.PlanGivesAfter` | apps/cli/internal/edgeconfig/apply.go:72-104 | installing a plan gives the rendered files, keeps challenge zones already there, removes the stale zones and touches nothing else |
| `EdgeConfig.NothingPlannedIff` | apps/cli/internal/edgeconfig/apply.go:75-78 | nothing is planned exactly when the disk is what the rendering says, and then installing changes nothing |
| `EdgeConfig.InstallDoes` | apps/cli/internal/edgeconfig/apply.go:72-137 | what an install does to each file: a generated zone no longer rendered goes, a challenge zone already there stays as it is, whatever else is rendered is written, and every other file, a zone without the header among them, stays as it is |
| `EdgeConfig.InstallDir.Save` | apps/cli/internal/edgeconfig/apply.go:141-170 | the backup holds what each change replaces and the list of what is created |
| `EdgeConfig.InstallDir.Install` | apps/cli/internal/edgeconfig/apply.go:141-188 | installs all when no write fails, and otherwise stops after some of the changes with the backup complete before the first |
| `EdgeConfig.InstallDir.RemoveCreated` | apps/cli/internal/edgeconfig/apply.go:198-208 | removes exactly the names listed |
| `EdgeConfig.InstallDir.WriteBack` | apps/cli/internal/edgeconfig/apply.go:209-229 | writes back exactly what was saved |
| `EdgeConfig.InstallDir.Restore` | apps/cli/internal/edgeconfig/apply.go:193-230 | succeeds when there is a backup and no write fails, and then the disk is what the backup says |
| `EdgeConfig.ManifestListsCreated` | apps/cli/internal/edgeconfig/apply.go:145-170 | the manifest reads back as exactly the files created |
| `EdgeConfig.RestoreUndoes` | apps/cli/internal/edgeconfig/apply.go:190-230 | restoring after any prefix of an install gives exactly the files of before |
| `EdgeRender.RowOrderChangesNothing` | apps/cli/internal/edgeconfig/render.go:101-140 | rows in another order, written at another time, render to the same files, so where those are served nothing is planned |
| `EdgeRender.PlansFit` | apps/cli/internal/edgeconfig/render.go:101-180 | every plan of a valid snapshot has paths the backup can carry, whatever the templates give |
| `EdgeRender.OwnFilesIff` | apps/cli/internal/edgeconfig/render.go:82-87 | each zone of a valid snapshot has a file of its own exactly when no domain is delegated under the name of another's mesh zone |
| `EdgeRender.SharedFileHappens` | apps/cli/internal/edgeconfig/render.go:140-177 | valid snapshots in which two zones are one file, for any base name and label that fit |
| `EdgeRender.RenderedReachesOne` | apps/cli/cmd/domain.go:389-403 | every rendered file is read by exactly one service, which a change to it selects |
| `EdgeRender.UntouchedReadsSame` | apps/cli/cmd/domain.go:381-388 | a service no change reaches reads the same files after the install |
| `EdgeRender.ServicesOf` | apps/cli/cmd/domain.go:389-400 | selects a service exactly when a change reaches it |
| `EdgeRender.TouchesCaddy` | apps/cli/cmd/domain.go:196-203 | says whether a change reaches Caddy |
| `EdgeApply.Secrets.InstallSecrets` | apps/cli/internal/edgeconfig/secrets.go:49-90 | refuses, writing nothing, exactly when a named provider has no token anywhere; otherwise writes those handed over and reports whether any differs, or fails with those of some providers written whole |
| `EdgeApply.Secrets.RemoveStaleSecrets` | apps/cli/internal/edgeconfig/secrets.go:96-115 | removes only tokens no provider named needs, and says whether all are gone |
| `EdgeApply.ReloadServices` | apps/cli/cmd/domain.go:402-418 | succeeds exactly when no selected service fails, and then each runs on what is on disk; on failure Caddy and the services not selected are as before |
| `EdgeApply.TokensWritten` | apps/cli/internal/edgeconfig/secrets.go:49-90 | each provider named gets the token handed over, trimmed, where that is not blank, and every other token stays |
| `EdgeApply.Gateway.TakeBack` | apps/cli/cmd/domain.go:173-188 | puts back what was replaced and reloads the same services |
| `EdgeApply.Gateway.PutInService` | apps/cli/cmd/domain.go:168-193 | ends in one of the four ways described, with the files and services each leaves |
| `EdgeApply.Gateway.Apply` | apps/cli/cmd/domain.go:102-193 | one apply changes the host as the step of its outcome says; each place it can stop has its cause, and no cause is passed over |
| `EdgeApply.Gateway.TakeDNSCredentials` | packages/hostagent/edge.go:456-489 | gives the tokens left and removes the file, or fails with the file kept or gone |
| `EdgeApply.Gateway.RunDomainApplyRequest` | apps/cli/cmd/host_requests.go:330-367 | one request: the tokens taken unless dry, one apply with the causes of its end, and the record written only after it succeeded |
| `EdgeApply.FilledValid` | apps/cli/cmd/domain.go:104-112 | a snapshot that can be rendered on this host can be recorded |
| `EdgeRuns.JobShows` | apps/cli/cmd/domain.go:102-118 | what the templates see in an apply, field by field: each port the snapshot's when it has one, this host's own from .env when it says none, the usual one otherwise; the address likewise; every other field the snapshot's |
| `EdgeRuns.DoneShows` | apps/cli/cmd/domain.go:102-193 | an apply that is done leaves on disk what the templates make of that, but for challenge zones already there |
| `EdgeRuns.RefusalChangesNothing` | apps/cli/cmd/domain.go:114-150 | read off the steps `Gateway.Apply` is proved to take: a dry run, a refusal or a rejected Caddyfile changes no file, no service and no record |
| `EdgeRuns.PutBackIsAsBefore` | apps/cli/cmd/domain.go:173-188 | a failed reload that is taken back leaves the files exactly as before and the same services on them |
| `EdgeRuns.DoneServes` | apps/cli/cmd/domain.go:126-193 | an apply that is done has the rendering on disk and, when it reloads, every service on it |
| `EdgeRuns.WellEndsInService` | apps/cli/cmd/domain.go:102-193 | with nothing going wrong, an apply fails only for a snapshot that is not valid or a token that is nowhere; any other is in service |
| `EdgeRuns.RecordChangesOnlyWhenServed` | apps/cli/cmd/host_requests.go:354-361 | state/edge.json changes only by a request that succeeded, to what was asked, with its rendering on disk |
| `EdgeRuns.RecordIsServed` | apps/cli/cmd/host_requests.go:330-367 | over every run with steps failing and taken back, what is recorded is on disk and every service runs on it, until an event is left half done |
| `EdgeRuns.RecordWasServed` | apps/cli/cmd/host_requests.go:354-361 | over every run at all, what is recorded was asked for and was on disk when recorded |
| `EdgeRuns.AgainNothingToDo` | apps/cli/cmd/domain.go:138-141 | read off the same steps: an apply of what is already there does nothing |
| `EdgeRuns.TokensLoadedIff` | apps/cli/internal/edgeconfig/secrets.go:41-48 | an apply that succeeds leaves Caddy with its tokens exactly when, told beforehand, a token or a file of Caddy's differs or a forced apply has nothing to write, and it reloads; or Caddy has read the tokens already |
| `EdgeRuns.RejectedTokenStaysUnloaded` | apps/cli/cmd/domain.go:128-150 | a token written before a rejection is never loaded by applying the same again |
| `EdgeRuns.RejectedTokenHappens` | apps/cli/cmd/domain.go:128-150 | for every snapshot of one provider, a host in step with it and two applies that do that |
| `EdgeRuns.RejectedTokenExample` | apps/cli/cmd/domain.go:128-150 | one such snapshot and host |
| `Firewall.Evaluate` | packages/hostagent/port.go:35-87 | gives the verdict whose soundness is stated below |
| `Firewall.VerdictIsSound` | packages/hostagent/port.go:28-87 | for every meaning of the sources and every packet: blocked accepts none, restricted accepts only from a listed source, open refuses only by a rule for the packet's own source |
| `Firewall.NamedSourceIsAllowed` | packages/hostagent/port.go:66-71 | a source a verdict names is allowed by a rule for the port |
| `Firewall.UnparsedExactly` | packages/hostagent/port.go:72-84 | with rules not interpreted, there is a verdict exactly when the interpreted ones reach a rule from anywhere, it is open exactly when that rule allows, and exactly then a rule left out can make it wrong |
| `Firewall.OneHiddenRule` | packages/hostagent/port.go:72-84 | for any verdict but unknown there is a rule left out that makes it wrong |
| `Firewall.UnknownUnlessCurrent` | packages/hostagent/port.go:36-45 | a verdict other than unknown is made only from a recent report without error |
| `PortSpec.PortMatches` | packages/hostagent/port.go:102-123 | says whether a port is in some part of the specification |
| `PortSpec.ListMeansUnion` | packages/hostagent/port.go:98-123 | a printed list of ports and ranges stands for exactly their union |
| `PortRules.UfwMeansUnion` | packages/hostagent/ufw.go:86-107 | the rule made from ufw's form, with or without protocol and address, stands for exactly the union of its ranges |
| `PortRules.AddressIsDropped` | packages/hostagent/ufw.go:86-107 | a rule for some ports of one address becomes the rule for those ports of every address |
| `PortRules.DestinationMeansIff` | packages/hostagent/ufw.go:86-107 | a destination of an optional address of either family, masked or not, ranges and an optional protocol becomes a rule that means it, whatever addresses the host has, exactly when it names no address and has ranges or says anywhere and no more, or has ranges with no port in them; an address or protocol without ports becomes a rule that hits nothing |
| `PortRules.AddressIsPassedOver` | packages/hostagent/port.go:53-76 | what that does: a rule for an address that begins with a digit leaves every verdict as if it were not there |
| `PortRules.OtherAddressIsUnknown` | packages/hostagent/port.go:57-60 | and one for any other address makes the verdict unknown |
| `UfwStatus.SourceHasAWord` | packages/hostagent/ufw.go:76-82 | the first word of a source is taken only when there is one |
| `UfwStatus.ParseUFWStatus` | packages/hostagent/ufw.go:15-46 | the report is the fold of its lines, its rules dropped when the firewall is not active |
| `UfwPrinted.ActionFound` | packages/hostagent/ufw.go:9-12 | in a line with no capital before its action but perhaps the first, the leftmost match is that action with its direction |
| `UfwPrinted.LineReadsBack` | packages/hostagent/ufw.go:48-84 | every line ufw prints, of any destination, source and comment and with an interface in either column, is read back as its rule when incoming, and as nothing when outgoing, forwarded or the IPv6 copy |
| `UfwPrinted.RulesReadBack` | packages/hostagent/ufw.go:36-44 | every list of rules printed line by line is read back as its incoming IPv4 rules, in order |
| `UfwReport.StatusReadsBack` | packages/hostagent/ufw.go:15-46 | a whole report is read back, with lines of no account between those that are, any policies beside the incoming one, any heading of dashes and blank lines at the end: not active, with no rules; or active, with the incoming policy and the rules in order |
| `UfwReport.MeantMatches` | packages/hostagent/ufw.go:86-107 | a rule read back matches every packet its host rule matches and no other among those it is read rightly for, and does with them what that does |
| `UfwReport.PrintedVerdictIsSound` | packages/hostagent/port.go:28-87 | from printed report to verdict, rules for one address included: the verdict is true, by the host's own rules, of every packet they are read rightly for, and unknown only where a destination is an address or protocol without ports |
| `UfwReport.AddressMisleads` | packages/hostagent/ufw.go:86-107 | the input on which it is not: any rule that refuses ports of one address before one that allows them at every other is called blocked, and a packet for another address of the host is let in |
| `UfwReport.AddressMisleadsOpen` | packages/hostagent/ufw.go:86-107 | and one that allows ports of one address is called open, and a packet for another is let in by no rule |
| `Firewalld.FirewalldMeansRange` | packages/hostagent/firewalld.go:49-52 | the rule made from firewalld's a-b/proto stands for exactly that range |
| `Firewalld.ParseFirewalldZone` | packages/hostagent/firewalld.go:8-47 | the report is the fold of its lines, rules in the order read |
| `Firewalld.ZoneOpensExactly` | packages/hostagent/firewalld.go:8-47 | a listing of a zone, with any lines that add nothing before, between and after its own, opens a port exactly for its target ACCEPT, a range listed or a range of a service, and blocks every other, its services being known |
| `Firewalld.ZoneVerdictIsTrueIff` | packages/hostagent/firewalld.go:18-45 | of such a listing open is true of every sender, and blocked exactly when the zone lets in no whole protocol, forwards none of the port and goes by no source port for it, none of which is read |
| `Firewalld.ProtocolsAreMissed` | packages/hostagent/firewalld.go:18-45 | a zone that lets in a whole protocol, every port of which is called blocked |
| `Firewalld.OtherKeyIsIdle` | packages/hostagent/firewalld.go:12-21 | a line under any key but the four that are read adds nothing |
| `Firewalld.RichZoneExactly` | packages/hostagent/firewalld.go:41-44 | a zone known to have rich rules is open exactly when a rule of its own stops the walk, unknown otherwise, and exactly when open a rich rule can make it wrong |
| `Firewalld.RichZoneOpenIsWrong` | packages/hostagent/firewalld.go:41-44 | a zone of one range and a rich rule on which open is wrong |
| `Firewalld.RichRulesBelowAreMissed` | packages/hostagent/firewalld.go:41-44 | any lines that begin as rich rules do, under their heading, leave the report as it is without them |
| `Firewalld.MissedRulesCanMatter` | packages/hostagent/port.go:78-87 | and then every verdict but unknown is one such a rule can make wrong |
| `Shell.QuoteReadsBack` | apps/cli/cmd/node.go:491-494 | a shell reads a quoted string back as one word, that string, exactly when it holds no NUL |
| `Shell.EnvParts` | apps/cli/cmd/node.go:466-470 | the loop quotes each variable's value |
| `Shell.RemoteCommandReads` | apps/cli/cmd/node.go:466-474 | a shell reads the whole remote command as env, each K=V whatever V holds, and the installer's words |
| `BaseDomain.BaseDomainFor` | packages/db/brand.go:92-117 | finds nothing exactly when the host is under no verified domain, and otherwise the longest it is strictly under |
| `BaseDomain.NoTies` | packages/db/brand.go:109-113 | two domains of one length above one host are the same |
| `BaseDomain.BestIsUnique` | packages/db/brand.go:103-117 | the answer does not depend on the order of the rows |
| `BaseDomain.ChildBeatsParent` | packages/db/brand.go:109-113 | a domain delegated under another is never shadowed by it |
| `BaseDomain.PortIsIgnored` | packages/db/brand.go:93-98 | a port on the host does not change which host is looked up, whatever its case and final dot |
| `BaseDomain.NormalisedIs` | packages/db/brand.go:93-98 | a host written in any case, with blanks around it and with a final dot or without, is looked up by its name in lower case |
| `BaseDomain.BracketedPortIsIgnored` | packages/db/brand.go:93-98 | nor does the port of a bracketed address of IPv6 |
| `Slugs.Collapse` | packages/client/projects.go:58-61 | the loop ends, with the runs of letters and digits joined by single hyphens |
| `Slugs.ProjectSlug` | packages/client/projects.go:48-69 | gives a slug of at most 50 characters: the runs of the name joined by single hyphens, cut short and trimmed when longer |
| `Slugs.SlugTwice` | packages/client/projects.go:45-69 | making a slug twice is making it once |
| `Slugs.SlugOfWords` | packages/client/projects.go:48-69 | a slug is the words of its name, separated by blanks, underscores, dots or hyphens, joined by single hyphens and cut at 50 characters; of no words, `project` |
| `Slugs.SlugDrops` | packages/client/projects.go:52-57 | any other character is left out |
| `Slugs.ServiceNameFor` | packages/client/pack.go:325-344 | gives the runs of the folder's name joined by single hyphens, never empty |
| `Slugs.ServiceOfWords` | packages/client/pack.go:325-344 | a service's name is the words of its folder's name joined by single hyphens, whatever separates them; of no words, `app` |
| `Slugs.ServiceTwice` | packages/client/pack.go:325-344 | making a service name twice is making it once |

## Left out

- Characters stand for ASCII bytes. Non-ASCII input to the ignore compiler, the slugs and the host normalisation is not modelled; for the slugs `strings.ToLower` is a parameter, taken to leave slugs alone where idempotence is stated.
- gzip, tar bytes, the digest, the size limit and the executable bit of an archive; the entry sequence is modelled. The `Skipped` list is not.
- Errors of reading a tree while it is packed.
- Scopes.FolderOnlyIff: stated for paths without a newline, since the expression's `.` matches none.
- EdgeVersion.StaleFor: takes the ticker to fire on time and a reload to end before the next tick, and reload itself to succeed.
- EdgeVersion.RunKeeps: takes commits to be atomic and a count row to be held by one open transaction at a time; the database is not modelled further.
- Runner.EachRequestOnce: takes every request deposited to have a fresh identifier, and no file to be written under its name after it.
- The result and status files a worker writes, and the migration stages it calls.
- JSON encoding of requests and snapshots; a file holds a value or does not decode.
- The templates' text: `Render` maps each path to an arbitrary function of what the templates see. Template errors are not modelled.
- Which of the two zones a shared zone file holds.
- Directories, permissions and the temporary files of atomic writes: a write happens whole or fails.
- EdgeConfig.Plan: every file is readable; a failed read is an outcome of `EdgeApply.Gateway.Apply` instead.
- EdgeConfig.InstallDir.Restore: says nothing of the files when it fails part way; `EdgeRuns.HalfDone` names that outcome.
- EdgeRuns.RecordIsServed: leaves out the outcomes the apply reports as half done, an apply whose old tokens could not be removed, one not recorded, and one asked not to reload.
- What Caddy writes into challenge zones while it is serving, and CoreDNS reading its zones on a timer.
- The `--from-env` path writes the snapshot before rendering it; `Merge` models the merge, and `EdgeRuns` the paths that record after.
- Redaction of tokens in error messages, and every message's text; `Snapshot.Validate` says whether, not why.
- Reading `.env` itself and the ports in it.
- UfwPrinted.LineReadsBack: rules by application profile, with a source port, or on an interface with capitals in its name are read by the model as the code reads them, but are not among the lines printed.
- UfwReport.PrintedVerdictIsSound: speaks of the packets the rules are read rightly for, and takes no application profile to be called by an address or a protocol; what is read of other rules, and what that leads to, is stated by the lemmas named above.
- Firewalld.ZoneVerdictIsTrueIff: for zones without rich rules, whose effect `Firewalld.RichZoneExactly` and `Firewalld.MissedRulesCanMatter` give, and for what the zone itself does with a packet, its interfaces, sources and ICMP apart.
- Firewalld.ZoneOpensExactly: for zones whose services are all known; one that is not makes the verdict unknown where the walk reaches it.
- Rate limiting: `limit` counts as allow.
- The verdict's reason text.
- BaseDomain.BaseDomainFor: the query's rows are a parameter, and its errors are not modelled.
- The rest of the shell's language: `Shell.WordsOf` reads words of plain characters, blanks and the two kinds of quotes, and rejects every line that holds anything else.
- HTTP handlers, commands, wizards, the database schema, encryption and licences.
