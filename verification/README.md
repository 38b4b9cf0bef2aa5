# Verified models of Gnoblin's packaging, release and session logic

Gnoblin is a desktop compositor with its own package repositories, a local release pipeline, session agents and a
command line client. This project models the parts of it whose correctness rests on more than one function: version
orders and nightly versions, the nightly retention, publishing to an object store, the incremental pipeline and its
priority semaphore, the Polkit request lifecycle, the stop protocol of the PipeWire monitor, the screen saver
inhibitors, and four pieces of client state (one-use grants, line framing on a shared connection, Lua/JSON conversion,
and the "did you mean" distance).

`dafny verify dfyconfig.toml` checks all of it.

Loops and state changes of the program are methods and classes; each is proved equal to a specification function, and
what the program promises is proved of that function. The protocols are state machines whose steps are single critical
sections, callbacks or file operations (removing a folder is any number of them), so that a theorem over runs holds
for every interleaving and every place where a run can stop. Words used throughout: a *run* is any sequence of events;
a *valid* state is one that keeps the module's invariant, which every initial state has and every step preserves.

The specification functions say how the program computes its answers. What the answers are is said apart from them: the
modules whose names end in Laws, and AuthClients, state it of the strings, states and runs themselves, with every
condition and constant written out, so that a specification function that is wrong in the same way as the method that
is proved against it contradicts one of their theorems.

| module | what it is about |
|---|---|
| Options, Sets, Orders, Decimal, Scan | shared: results, set sizes, lexicographic orders and their laws, decimal strings, runs of characters |
| RpmOrder, DpkgOrder, PacmanOrder, ApkOrder | the four version orders. The dpkg one is the order of section 5.6.12 of the Debian Policy Manual |
| RpmLaws, DpkgLaws, PacmanLaws, ApkLaws | what the orders say of the characters of two strings |
| Nightly, NightlyLaws, NightlyOrder | nightly versions, their spellings, and where they sort |
| Retention, RetentionNights, RetentionLaws | merging a build into a channel and keeping the newest versions, once and night after night |
| PackageVersions | the four orders as one comparator by format, and what the nightly retention keeps with it |
| Publish, PublishLaws | the plan that uploads a tree to an S3 bucket |
| PrioritySlots, PipelineStages | the semaphore and the incremental stages of the local pipeline |
| AuthRequests, AuthClients | Polkit requests between the agent and the control, and what clients can do to them |
| PipewireMonitor | callbacks on one thread, a stop on another |
| Inhibitors, InhibitorLaws | cookies and logind descriptors |
| Grants, GrantLaws, EventFraming, EventLaws, LuaJson, LuaJsonLaws, EditDistance, EditLaws | gnoblinctl |

## What turned out not to hold as written

- The pacman segment comparison is not transitive on strings with a trailing separator: such a string is on a cycle
  with two strings that have none (`PacmanOrder.TrailingSeparatorIffCycle`, both directions).
- A pacman version without a pkgrel equals two versions that differ (`PacmanOrder.MissingPkgrelIffTie`, both directions).
- Alpine's nightly number does not grow with (date, count): it compares date and count written together, aligned at
  the last digit (`NightlyOrder.ApkOrdersAligned`), so the number of digits of the count comes first
  (`NightlyOrder.ApkOrdersByDigitsFirst`, with the example in `NightlyOrder.ApkLaterCanBeOlder`). It grows when
  neither the date nor the count goes back.
- The comment at the removal of stage results says that a stopped run never leaves a later result without the record
  of the stage it came from. One step breaks that if and only if it removes a record while a later one is there
  (`PipelineStages.NoOrphanIsKeptIff`). An invocation breaks it, wherever it ends or is stopped, if and only if it has
  run no stage and either stopped in a removal between two records, or cleared a stage and not yet a later one with a
  record, which --no-graphical never clears (`PipelineStages.InvocationLeavesOrphanIff`); no crash is needed
  (`PipelineStages.NoGraphicalLeavesOrphan`). What it finds decides whether it can (`PipelineStages.CanLeaveOrphanIff`).
  The leftover is never taken over (`PipelineStages.KeptIsCurrent`).
- A passed record outlives what is in its result folder if and only if a stop comes after the removal of the folder has
  begun and before the record goes, or between the record of the prefix or the packages and their stage.json
  (`PipelineStages.StepKeepsFoldersIff`). A lost stage.json is written again when the result is taken over
  (`PipelineStages.KeptContractIsWhole`); a lost report is not.
- An announced request always gets its one answer, but its end is published if and only if the control did not stop
  before (`AuthRequests.PublishedOnceIff`): at shutdown nobody is told (`AuthRequests.ShutdownIsSilent`, and a run from
  the beginning in `AuthRequests.ShutdownIsReached`).
- What clients are told about a request and what polkit gets can differ: a task whose cancellable was cancelled reports
  that, whatever it returns. A published end and the answer match if and only if the end is a cancellation or polkit did
  not cancel before it (`AuthRequests.AnswerMatchesIff`, and a run in which they do not in
  `AuthRequests.AuthorizedButCancelledIsReached`).
- Versions that tie make the nightly retention depend on the order of the entries (`RetentionNights.TieDependsOnOrder`,
  and two rpm versions that tie in `PackageVersions.VersionsCanTie`); the nightlies of one base never tie.
- A file of the tree below a directory whose name contains `.pkg.tar.` is neither a package file nor uploaded by the
  metadata sync (`Publish.SkippedIffDirectory`). The publishing promises hold exactly when such files do no harm
  (`Publish.ChannelIsTreeIff`, `Publish.PromiseHoldsIff`).
- A line with a NUL byte that belongs to another request is cut short when it is put back (`EventFraming.LostIffNul`,
  with the example in `EventFraming.LineIsCutAtNul`).
- A value with a null inside a container, an empty array, more than 64 levels, a number that is not finite or a text
  that is not UTF-8 does not survive json_to_lua and lua_to_json; every other value does (`LuaJson.RoundTripIffPlain`).

## Model

| member | source | states |
|---|---|---|
| Orders.LexIsTotalPreorder | scripts/pkgrepo/versions.py:137-199 | the lexicographic order of two token lists, padded with an end token, is a total preorder when the token order is one |
| Orders.EvrOrderIsTotalPreorder | scripts/pkgrepo/versions.py:202-206 | comparing epochs, then versions, then releases keeps the laws of a total preorder |
| Orders.StrCmpIsTextOrder | scripts/pkgrepo/versions.py:196-196 | the text order: a string is smaller if and only if it is a proper prefix or has the smaller character at the first difference |
| Decimal.StrippedOrder | scripts/pkgrepo/versions.py:191-196 | stripping zeros and comparing by length and then by character compares the numbers that the two digit strings write |
| RpmOrder.SkipSeparators | scripts/pkgrepo/versions.py:143-146 | skipping separators changes no token of the rest of the string |
| RpmOrder.CompareSegments | scripts/pkgrepo/versions.py:173-196 | one round on two segments decides as the token orders do, or leaves both strings at the next token with the comparison unchanged |
| RpmOrder.RpmVerCmp | scripts/pkgrepo/versions.py:137-199 | the two-index loop computes the lexicographic comparison of the two strings' own tokens, with tilde below the end, the end below caret, then letters, then numbers as naturals |
| RpmOrder.CompareIsTotalPreorder | scripts/pkgrepo/versions.py:137-199 | the RPM order is reflexive, antisymmetric in sign and transitive on all strings |
| RpmOrder.RpmEvrCompare | scripts/pkgrepo/versions.py:202-206 | the epoch decides first, then the version, then the release |
| RpmOrder.EvrCompareIsTotalPreorder | scripts/pkgrepo/versions.py:202-206 | the lifted order is a total preorder on all triples |
| RpmOrder.RpmCompare | scripts/pkgrepo/versions.py:409-429 | whole rpm versions are split into epoch, version and release and compared; an epoch that is no number is an error |
| RpmOrder.VersionOrderIsTotalPreorder | scripts/pkgrepo/versions.py:409-429 | on whole rpm version strings whose epoch is a number the order is a total preorder |
| RpmOrder.TokensConcat | scripts/pkgrepo/versions.py:141-199 | the tokens of a concatenation at a boundary are the tokens of both parts |
| RpmLaws.SeparatorsDoNotCount | scripts/pkgrepo/versions.py:143-146 | of any two strings, a separator in front of either changes nothing |
| RpmLaws.EndDecides | scripts/pkgrepo/versions.py:147-170 | a string that goes on with a tilde is older than one that ends there, and one that goes on with a caret, a letter or a digit is newer |
| RpmLaws.HeadsDecide | scripts/pkgrepo/versions.py:147-190 | whatever follows, a tilde is older than a caret, a caret older than a letter or digit, and a letter older than a digit; two equal marks change nothing |
| RpmLaws.NumbersDecide | scripts/pkgrepo/versions.py:173-196 | two digit runs decide by the numbers they write, and what follows decides between equal ones |
| RpmLaws.WordsDecide | scripts/pkgrepo/versions.py:180-196 | two letter runs decide as text, and what follows decides between equal ones |
| RpmLaws.ReleaseDecidesLast | scripts/pkgrepo/versions.py:202-206 | of any two versions without an epoch, what stands behind the last hyphen is the release; it decides, upwards, when nothing in front of it does |
| RpmLaws.MissingReleaseIsEmpty | scripts/pkgrepo/versions.py:426-429 | no hyphen means an empty release, and a hyphen with nothing in front of it separates nothing |
| RpmLaws.EpochDecidesFirst | scripts/pkgrepo/versions.py:202-204 | of two epochs the higher number is newer, whatever follows, and equal epochs change nothing |
| RpmLaws.EpochIsNumber | scripts/pkgrepo/versions.py:422-425 | no epoch is epoch 0, and leading zeros of an epoch do not count |
| RpmLaws.ErrorIffBadEpoch | scripts/pkgrepo/versions.py:422-425 | comparing fails if and only if what stands in front of a first colon is no number |
| DpkgOrder.CompareRuns | scripts/pkgrepo/versions.py:228-234 | the first inner loop has the sign of the comparison of the two non-digit runs, where tilde is below the end and letters are below everything else, and ends behind equal runs |
| DpkgOrder.CompareDigits | scripts/pkgrepo/versions.py:239-249 | the longer digit run wins, then the first different digit |
| DpkgOrder.CompareNumbers | scripts/pkgrepo/versions.py:235-249 | skipping zeros and comparing digits has the sign of the comparison of the two numbers |
| DpkgOrder.VerRevCmp | scripts/pkgrepo/versions.py:224-250 | the sign of the loop's result is the comparison of alternating (non-digit run, number) pairs, padded with an empty pair |
| DpkgOrder.CompareIsTotalPreorder | scripts/pkgrepo/versions.py:224-250 | the Debian order of upstream versions and revisions is a total preorder |
| DpkgOrder.DpkgCompare | scripts/pkgrepo/versions.py:253-274 | two Debian versions compare by epoch, upstream version and revision; an epoch that is no number is an error |
| DpkgOrder.VersionOrderIsTotalPreorder | scripts/pkgrepo/versions.py:253-274 | on whole Debian version strings whose epoch is a number the order is a total preorder |
| DpkgLaws.CharactersDecide | scripts/pkgrepo/versions.py:212-221 | of two non-digits, whatever follows, a tilde is older than all others, a letter older than all but the tilde, and otherwise the smaller character is older; equal ones change nothing |
| DpkgLaws.EndDecides | scripts/pkgrepo/versions.py:228-234 | a run of non-digits that goes on with a tilde is older than one that ends, and one that goes on with anything else is newer |
| DpkgLaws.NumbersDecide | scripts/pkgrepo/versions.py:235-249 | two digit runs decide by the numbers they write, what follows decides between equal ones, and no digits are zero |
| DpkgLaws.RevisionDecidesLast | scripts/pkgrepo/versions.py:269-273 | of any two versions without an epoch, what stands behind the last hyphen is the revision; it decides, upwards, when nothing in front of it does |
| DpkgLaws.MissingRevisionIsEmpty | scripts/pkgrepo/versions.py:258-261 | no hyphen means an empty revision |
| DpkgLaws.EpochDecidesFirst | scripts/pkgrepo/versions.py:267-268 | of two epochs the higher number is newer, whatever follows, and equal epochs change nothing |
| DpkgLaws.EpochIsNumber | scripts/pkgrepo/versions.py:254-257 | no epoch is epoch 0, and leading zeros of an epoch do not count |
| DpkgLaws.ErrorIffBadEpoch | scripts/pkgrepo/versions.py:255-257 | comparing fails if and only if what stands in front of a first colon is no number |
| PacmanOrder.CompareSegments | scripts/pkgrepo/versions.py:296-318 | one round on two segments behind separators of equal length decides as the token orders do, or moves both strings on with the comparison unchanged |
| PacmanOrder.AlpmRpmVerCmp | scripts/pkgrepo/versions.py:280-325 | the two-index loop with saved positions computes the comparison of the two strings' own (separator length, kind, value) tokens |
| PacmanOrder.CompareIsCleanOrder | scripts/pkgrepo/versions.py:280-325 | without trailing separators that is the plain lexicographic order of segments, with the end between letters that follow directly and everything else |
| PacmanOrder.CompareIsTotalPreorderOnClean | scripts/pkgrepo/versions.py:280-325 | so it is a total preorder on strings without a trailing separator |
| PacmanOrder.TrailingSeparatorIffCycle | scripts/pkgrepo/versions.py:286-325 | a string has a trailing separator if and only if it is on a strict cycle with two strings that have none |
| PacmanOrder.PacmanCompare | scripts/pkgrepo/versions.py:338-349 | epoch, pkgver and, only when both sides have one, pkgrel decide in this order |
| PacmanOrder.VersionOrderIsTotalPreorder | scripts/pkgrepo/versions.py:338-349 | on versions that all carry a pkgrel the order is a total preorder |
| PacmanOrder.MissingPkgrelIffTie | scripts/pkgrepo/versions.py:338-349 | a version has no pkgrel if and only if it equals two complete versions that differ from each other |
| PacmanLaws.SeparatorsDecide | scripts/pkgrepo/versions.py:293-295 | of two separators in front of segments the longer one is newer, and separators of one length change nothing |
| PacmanLaws.TrailingSeparatorDecides | scripts/pkgrepo/versions.py:291-325 | against a trailing separator a segment of letters is older and a number newer, whatever separator it has, and two trailing separators are equal |
| PacmanLaws.EndDecides | scripts/pkgrepo/versions.py:319-325 | a string that goes on with a letter is older than one that ends there, and one that goes on with anything else is newer |
| PacmanLaws.NumbersDecide | scripts/pkgrepo/versions.py:297-318 | two digit runs decide by the numbers they write, and what follows decides between equal ones |
| PacmanLaws.WordsDecide | scripts/pkgrepo/versions.py:303-318 | two letter runs decide as text, and what follows decides between equal ones |
| PacmanLaws.PkgrelDecidesLast | scripts/pkgrepo/versions.py:333-348 | of any two versions without an epoch, what stands behind the last hyphen is the pkgrel; it decides, upwards, when nothing in front of it does |
| PacmanLaws.MissingPkgrelDoesNotCount | scripts/pkgrepo/versions.py:347-348 | a version without a pkgrel compares with any other by its pkgver alone |
| PacmanLaws.EpochDecidesFirst | scripts/pkgrepo/versions.py:344-345 | of two epochs the higher number is newer, whatever follows, and equal epochs change nothing |
| PacmanLaws.MissingEpochIsZero | scripts/pkgrepo/versions.py:329-331 | no epoch is epoch 0, and what stands in front of the first colon is an epoch only if it is a number |
| ApkOrder.ComponentCmpIsKeyCmp | scripts/pkgrepo/versions.py:381-386 | the switch between text and numbers compares keys that each component has on its own |
| ApkOrder.ZipCmpIsLex | scripts/pkgrepo/versions.py:381-388 | walking the common components and then comparing lengths is the lexicographic order of those keys |
| ApkOrder.PartsCmpIsTotalPreorder | scripts/pkgrepo/versions.py:374-401 | numbers, letter, suffixes padded with nothing, and release make a total preorder of parsed versions |
| ApkOrder.ApkCompareIsTotalPreorder | scripts/pkgrepo/versions.py:354-401 | the comparison is a total preorder on the strings that the grammar accepts |
| ApkLaws.ParsesIffText | scripts/pkgrepo/versions.py:354-371 | a string is an Alpine version if and only if it is numbers with dots, a letter, suffixes with names and digits, a hash and a release, in this order |
| ApkLaws.PartsOfText | scripts/pkgrepo/versions.py:362-371 | parsing the text of such pieces gives them back, each suffix name with its place in the order |
| ApkLaws.NumbersDecide | scripts/pkgrepo/versions.py:381-388 | the first different numbers decide: by value at the beginning and where neither starts with a zero, as text elsewhere; of a version and a longer one the longer is newer |
| ApkLaws.LettersDecide | scripts/pkgrepo/versions.py:389-390 | behind equal numbers the smaller letter is older, and no letter is older than any |
| ApkLaws.SuffixNamesDecide | scripts/pkgrepo/versions.py:391-395 | behind equal numbers, letter and suffixes, the next suffix decides by its name: alpha, beta, pre, rc, then no suffix, then cvs, svn, git, hg, p |
| ApkLaws.SuffixNumbersDecide | scripts/pkgrepo/versions.py:391-395 | of two suffixes with one name the smaller number is older, and equal ones change nothing |
| ApkLaws.ReleaseDecidesLast | scripts/pkgrepo/versions.py:396-401 | behind equal pieces the higher release is newer, and no release is older than any |
| ApkLaws.HashDoesNotCount | scripts/pkgrepo/versions.py:362-371 | a hash changes no comparison |
| Nightly.ParseCoreText | scripts/pkgrepo/versions.py:22-26 | parsing the text of three numbers gives them back |
| Nightly.TextOfParsed | scripts/pkgrepo/versions.py:22-26 | a string that parses is the text of what it parses to, so there is one spelling of each version |
| Nightly.NextStableIsNewer | scripts/pkgrepo/versions.py:29-39 | the next stable version is a version, and strictly newer than the last stable one |
| NightlyLaws.NextStableIs | scripts/pkgrepo/versions.py:29-39 | it is the version in the tree if that is higher, and otherwise the last one with the next patch number |
| NightlyLaws.NextStableErrorIff | scripts/pkgrepo/versions.py:22-39 | there is none if and only if the last version or the one in the tree is not three numbers without leading zeros |
| NightlyLaws.MakeNightlyIs | scripts/pkgrepo/versions.py:77-84 | a nightly is made if and only if the date is eight digits, the count is not negative and the commit is 7 to 40 lower-case hexadecimal digits, and it has the next stable version, that date and count, and seven digits of the commit |
| NightlyLaws.NightlySpellings | scripts/pkgrepo/versions.py:51-74 | how a nightly is written for rpm, Debian, Arch, Alpine and as a semantic version |
| NightlyLaws.PrereleaseForRpm | scripts/pkgrepo/versions.py:90-95 | the hyphen in front of any prerelease becomes a tilde |
| NightlyLaws.PrereleaseForArch | scripts/pkgrepo/versions.py:98-113 | of one or two identifiers, commits are dropped, letters are joined to a number that follows, and other identifiers keep their dot |
| NightlyLaws.PrereleaseForApk | scripts/pkgrepo/versions.py:116-127 | of one or two identifiers the digits of those that are no commits follow _pre |
| Nightly.SemverParses | scripts/pkgrepo/versions.py:72-95 | the semantic version of a nightly is read back as its base and its prerelease |
| Nightly.SemverSpellings | scripts/pkgrepo/versions.py:51-127 | the rpm, arch and apk spellings made from the semantic version are the spellings of the nightly |
| NightlyOrder.RpmBetween | scripts/pkgrepo/versions.py:51-54 | the rpm spelling of a nightly is newer than any smaller version and older than its base |
| NightlyOrder.RpmGrows | scripts/pkgrepo/versions.py:51-54 | for one base a lexicographically larger (date, count) is a strictly newer rpm version |
| NightlyOrder.DebBetween | scripts/pkgrepo/versions.py:56-58 | as an upstream version the deb spelling is newer than any smaller version and older than its base |
| NightlyOrder.DebGrows | scripts/pkgrepo/versions.py:56-58 | for one base a larger (date, count) is a strictly newer deb version |
| NightlyOrder.PacBetween | scripts/pkgrepo/versions.py:60-64 | as a pkgver the arch spelling is newer than any smaller version and older than its base |
| NightlyOrder.PacGrows | scripts/pkgrepo/versions.py:60-64 | for one base a larger (date, count) is a strictly newer arch version |
| NightlyOrder.ApkBetween | scripts/pkgrepo/versions.py:66-70 | the apk spelling is newer than any smaller version and older than its base, whatever releases follow |
| NightlyOrder.ApkReleasesDecide | scripts/pkgrepo/versions.py:396-401 | of one plain version the higher release is newer, and no release is older than any |
| NightlyOrder.ApkByNumber | scripts/pkgrepo/versions.py:66-70 | for one base Alpine compares the number that date and count write together, and then the releases, the higher one newer and none older than any |
| NightlyOrder.ApkOrdersAligned | scripts/pkgrepo/versions.py:66-70 | for one base the order of any two nightlies is the text order of date and count written together, aligned at the last digit, and then that of the releases |
| NightlyOrder.ApkNumberGrows | scripts/pkgrepo/versions.py:66-70 | that number grows when neither the date nor the count goes back and one of them advances |
| NightlyOrder.ApkOrdersByDigitsFirst | scripts/pkgrepo/versions.py:66-70 | a count with fewer digits makes an older Alpine version than any date that does not begin with a zero with a longer count; with as many digits the later one of (date, count) is newer |
| NightlyOrder.ApkLaterCanBeOlder | scripts/pkgrepo/versions.py:66-70 | of any base, a later nightly that apk_compare takes for older |
| NightlyOrder.ApkNewerIff | scripts/pkgrepo/versions.py:66-70 | of two different nightlies of one base, with dates that do not begin with a zero, the newer Alpine version is the later one by number of digits of the count, date and count |
| NightlyOrder.LaterByDigitsIff | scripts/pkgrepo/versions.py:66-70 | that is the later one by date and count as long as the count does not go back |
| NightlyOrder.RpmReleasesDoNotMatter | scripts/pkgrepo/versions.py:421-429 | versions that differ decide the order of whole rpm versions, with or without releases |
| NightlyOrder.RevisionsDoNotMatter | scripts/pkgrepo/versions.py:253-274 | upstream versions that differ decide the order of whole Debian versions, with or without revisions |
| NightlyOrder.PkgrelsDoNotMatter | scripts/pkgrepo/versions.py:328-349 | pkgvers that differ decide the order of whole pacman versions, with or without pkgrels |
| NightlyOrder.NightlyIsBetween | scripts/pkgrepo/versions.py:77-84 | every nightly that can be made is newer than the last stable version and older than its base in all four orders, as whole versions with any releases |
| NightlyOrder.NightliesGrow | scripts/pkgrepo/versions.py:51-64 | as whole versions with any releases, a later nightly of one base is newer for rpm, dpkg and pacman |
| PackageVersions.LawsInOneFormat | scripts/pkgrepo/versions.py:409-418 | the comparator of each format obeys the laws on the versions it accepts |
| PackageVersions.CompareIsTotalPreorder | scripts/pkgrepo/versions.py:409-418 | the comparator that is chosen by format is a total preorder |
| PackageVersions.RunChannel | scripts/pkgrepo/tree.py:108-144 | the same with the real comparators, when no two versions of a group ever tie |
| PackageVersions.VersionsCanTie | scripts/pkgrepo/versions.py:191-196 | two different rpm versions that tie |
| PackageVersions.NewerIffFollows | scripts/pkgrepo/versions.py:51-70 | of two nightlies of one base in one format the newer version is the later one of (date, count), for Alpine of (digits of the count, date, count), and only equal ones tie |
| PackageVersions.NightliesNeverTie | scripts/pkgrepo/versions.py:51-70 | groups of nightlies of one base, one for each date and count, never tie |
| PackageVersions.RunNightlies | scripts/pkgrepo/tree.py:108-144 | of the code: after a night for each batch of nightlies of one base the channel holds a build if and only if fewer than k builds of its group follow it in that order |
| Retention.Published | scripts/pkgrepo/tree.py:109-110 | the published packages by group and version, the last one of equal keys |
| Retention.MergeLoop | scripts/pkgrepo/tree.py:111-122 | the loop stops exactly at a published key of a guarded channel, and otherwise holds the whole merge |
| Retention.Merge | scripts/pkgrepo/tree.py:108-123 | an error if and only if the stable channel has one of the keys and replacing is not asked for; otherwise each key once, with the new package over the old |
| Retention.NewestFirstSorts | scripts/pkgrepo/tree.py:141-141 | the sorted members are a permutation of the members, newest first |
| Retention.Grouped | scripts/pkgrepo/tree.py:132-134 | each group gets its members, all of them, in their order |
| Retention.KeepNewest | scripts/pkgrepo/tree.py:140-143 | the newest k members are kept, the rest dropped, and no dropped one is newer than a kept one |
| Retention.RetainGroups | scripts/pkgrepo/tree.py:139-143 | each group is treated on its own |
| Retention.ApplyRetention | scripts/pkgrepo/tree.py:126-144 | stable keeps everything, a nightly channel refuses to keep fewer than one and otherwise keeps the newest of each group |
| RetentionNights.TopCount | scripts/pkgrepo/tree.py:139-143 | a group with at least k versions keeps k that nothing dropped outranks |
| RetentionNights.KeptIffStays | scripts/pkgrepo/tree.py:126-144 | an entry is kept if and only if fewer than k versions of its group are newer |
| RetentionNights.KeptIsKeep | scripts/pkgrepo/tree.py:126-144 | what one retention keeps depends on the entries only, not on their order, when versions never tie |
| RetentionNights.RetentionComposes | scripts/pkgrepo/tree.py:108-144 | retaining what was already retained, merged with new packages, equals retaining everything merged with them |
| RetentionNights.NightsKeepTheNewest | scripts/pkgrepo/tree.py:108-144 | of the specification: retaining night after night is one retention over everything ever built |
| RetentionNights.RetentionConserves | scripts/pkgrepo/tree.py:135-144 | kept and dropped together are the input |
| RetentionNights.TieDependsOnOrder | scripts/pkgrepo/tree.py:141-143 | of two versions that tie, the first one is kept, so the hypothesis is needed |
| RetentionNights.Night | scripts/pkgrepo/tree.py:108-144 | one night, the merge and the retention of the code, keeps exactly the newest of the channel and the batch |
| RetentionNights.RunNights | scripts/pkgrepo/tree.py:108-144 | of the code: when no two versions of a group ever tie, merging and retaining night after night leaves the channel with exactly what one retention over everything ever built keeps |
| RetentionLaws.KeptIffFewNewer | scripts/pkgrepo/tree.py:108-144 | what that keeps, in terms of the batches: a build is kept if and only if some night built it and fewer than k newer versions of its group were ever built |
| Publish.PackagesAreExcluded | scripts/pkgrepo/publish.py:34-39 | no package file is touched by the metadata sync |
| Publish.SkippedIffDirectory | scripts/pkgrepo/publish.py:22-39 | a file is neither a package file nor synced if and only if the pacman pattern occurs in its path, but not in its name, and it has no package suffix |
| Publish.BaseBelow | scripts/pkgrepo/publish.py:34-39 | the name that decides is the same for the path in the tree and the path in the channel |
| Publish.Partition | scripts/pkgrepo/publish.py:76-79 | package files, metadata and skipped files are all files of the channel, and no file is two of them |
| Publish.ChangedPackages | scripts/pkgrepo/publish.py:88-103 | exactly the package files whose package is not published with the same sha256, and an error for a signature whose package is missing |
| Publish.OutsideIsUnchanged | scripts/pkgrepo/publish.py:250-336 | a complete run changes no key outside the channel but the site files and the retired page |
| Publish.TreeFileAt | scripts/pkgrepo/publish.py:298-336 | a file of the tree is listed at the end unless it is skipped and was not in the bucket before |
| Publish.ChannelIsTreeIff | scripts/pkgrepo/publish.py:310-336 | the channel's keys are the tree's files at the end if and only if every skipped file was in the bucket before |
| Publish.PackageContent | scripts/pkgrepo/publish.py:238-247 | each package in the bucket has the content of its file, or it was not known as changed, has the size of the file, and its ETag, if it is 32 hexadecimal digits, is the md5 of the file in either case |
| Publish.UploadKeepsSteady | scripts/pkgrepo/publish.py:278-323 | an upload in its phase leaves every package named by a kept metadata file present |
| Publish.DeleteKeepsSteady | scripts/pkgrepo/publish.py:310-336 | so does a delete after all metadata is current |
| Publish.EveryStateIsSteady | scripts/pkgrepo/publish.py:278-336 | after every single upload and delete of a run, every package named by a kept metadata file is present |
| Publish.CompleteRunEnds | scripts/pkgrepo/publish.py:250-336 | what a complete run leaves, key by key and with contents |
| Publish.UnsafeIsBroken | scripts/pkgrepo/publish.py:310-323 | a skipped metadata file that names a deleted key names something missing at the end |
| Publish.PromiseHoldsIff | scripts/pkgrepo/publish.py:250-336 | for all kept files the promise holds in every state of a complete run if and only if no skipped file in the bucket names a key that is deleted |
| Publish.Store.CopyAll | scripts/pkgrepo/publish.py:278-284 | uploads each of the files, and nothing else |
| Publish.Store.UploadMissingPackages | scripts/pkgrepo/publish.py:298-308 | uploads exactly the missing package files, those of MissingIff, and nothing else |
| Publish.SameObjectIs | scripts/pkgrepo/publish.py:238-247 | an object can be the file if and only if the size agrees and an ETag of 32 hexadecimal digits is, digit by digit in lower case, the md5 of the file |
| Publish.MissingIff | scripts/pkgrepo/publish.py:298-308 | a package that was not uploaded before is missing if and only if its key is not listed, the size differs, or the ETag is 32 hexadecimal digits and not the md5 of the file |
| Publish.Store.DropStale | scripts/pkgrepo/publish.py:310-336 | deletes the retired page and every listed key of the channel that is not in the tree, and nothing else |
| Publish.Store.Execute | scripts/pkgrepo/publish.py:250-336 | refuses a first publication over a channel; otherwise performs a run in phases that leaves out nothing |
| PublishLaws.PackageIsSentIff | scripts/pkgrepo/publish.py:278-308 | in a complete run a package is sent if and only if it is known as changed, its key is not in the bucket, its size differs, or its ETag is 32 hexadecimal digits and not the md5 of the file |
| PublishLaws.PackageEndsAs | scripts/pkgrepo/publish.py:238-308 | at the end its object is its file, or an untouched one whose size and any such ETag agree |
| PublishLaws.TrueEtagsMakeTruePackages | scripts/pkgrepo/publish.py:238-308 | when the ETags are the md5 of what is there and no two contents have one md5, every package in the bucket is its file at the end |
| PublishLaws.OtherIsSentIff | scripts/pkgrepo/publish.py:76-85 | of the other files a complete run sends those of the channel that no pattern excludes, and gpg.key, setup.sh and *.rsa.pub at the root |
| PublishLaws.KeyEndsAs | scripts/pkgrepo/publish.py:310-336 | at the end index.html is gone, and a key of the channel is there if and only if it is of a file of the tree and was there or was sent |
| PublishLaws.PackageFileIff | scripts/pkgrepo/publish.py:34-39 | a file is a package file if and only if its name ends in .rpm, .deb or .apk or holds .pkg.tar. |
| PublishLaws.ChangedIff | scripts/pkgrepo/publish.py:88-103 | a package has changed if and only if the manifest does not have its name with its sha256, and a signature exactly when its package has |
| PrioritySlots.StepKeepsValid | scripts/run-pipeline.py:151-165 | every critical section keeps the slots balanced, the heap equal to the tickets of the waiting threads, the first waiter awake while a slot is free, and the grants fair |
| PrioritySlots.RunKeepsValid | scripts/run-pipeline.py:141-165 | so does every interleaving; in particular the first in line never sleeps while a slot is free |
| PrioritySlots.SlotsAreConservedAndFair | scripts/run-pipeline.py:141-165 | in every run free plus held is the count, and of two grants the later one has the larger priority number, or the same and came later, or drew its ticket after the earlier grant |
| PrioritySlots.SlotGoesToFirst | scripts/run-pipeline.py:156-160 | a thread that runs gets a slot if and only if one is free and it has the smallest priority number that waits, and of those came first; otherwise it sleeps |
| PrioritySlots.FirstComeFirstServed | scripts/run-pipeline.py:153-160 | within one priority slots are given in the order of arrival |
| PrioritySlots.FreeSlotIsTaken | scripts/run-pipeline.py:156-160 | while a slot is free and somebody waits, an awake thread gets it as soon as it runs |
| PrioritySlots.Settle | scripts/run-pipeline.py:156-165 | woken threads running in any order come to rest, and then no slot is free or nobody waits |
| PrioritySlots.Slots.Acquire | scripts/run-pipeline.py:151-160 | acquire up to its first wait or its return is one step |
| PrioritySlots.Slots.TryTake | scripts/run-pipeline.py:156-160 | each turn of the waiting loop is one step |
| PrioritySlots.Slots.Release | scripts/run-pipeline.py:162-165 | release is one step, which wakes everybody |
| PipelineStages.StepKeepsValid | scripts/run-pipeline.py:460-581 | every decision, removal and write keeps the records derived from each other and backed by the artifacts |
| PipelineStages.KeptIsCurrent | scripts/run-pipeline.py:460-467 | over any invocations stopped anywhere, an earlier result is kept only if every stage before it passed and it was made from exactly the results of those stages that are there |
| PipelineStages.RecordsAgree | scripts/run-pipeline.py:470-490 | at every moment, of two records the later result came from the earlier one |
| PipelineStages.RunsOnCleanDisk | scripts/run-pipeline.py:470-474 | a stage runs only when neither it nor any later stage has a record |
| PipelineStages.NoOrphanIsKeptIff | scripts/run-pipeline.py:470-474 | a step keeps every record with the records before it if and only if it does not remove a record while a later one is there |
| PipelineStages.InvocationLeavesOrphanIff | scripts/run-pipeline.py:460-570 | wherever an invocation ends or is stopped, it leaves a later record without an earlier one if and only if it has run no stage and stopped in a removal between two records, or cleared a stage and not a later one with a record |
| PipelineStages.CanLeaveOrphanIff | scripts/run-pipeline.py:460-570 | an invocation can be stopped with an orphan if and only if, behind the first stage that is not taken over as passed, it finds a later record, or behind a kept failure one after the next |
| PipelineStages.CompletedKeepsPromise | scripts/run-pipeline.py:516-570 | an invocation with the graphical stage that comes to its end leaves no orphan |
| PipelineStages.NoGraphicalLeavesOrphan | scripts/run-pipeline.py:560-561 | from any disk with all four records a stop noticed before the first stage and --no-graphical leave exactly the first and the last |
| PipelineStages.LaterWithoutEarlier | scripts/run-pipeline.py:470-474 | from an empty disk a run with a stop between two removals reaches a passed packages record without a prefix record |
| PipelineStages.StepKeepsFoldersIff | scripts/run-pipeline.py:97-107 | every passed record keeps the contents of its folder for that run, but for one in flux, unless a stop comes while or after its folder is removed and before the record goes, or before its stage.json is written, and exactly then it does not |
| PipelineStages.KeptContractIsWhole | scripts/run-pipeline.py:499-535 | in every valid state, taking over a prefix or packages result writes its stage.json for that run again |
| PipelineStages.KeptHasFolder | scripts/run-pipeline.py:460-467 | over any invocations without such a stop, a passed result that is taken over still has the contents of its folder for that run |
| PipelineStages.Pipeline.Contract | scripts/run-pipeline.py:499-535 | the stage.json of the prefix and the packages is written behind a result, kept or new, and not without one |
| PipelineStages.Pipeline.RemoveResults | scripts/run-pipeline.py:272-281 | removes the results of a stage and of all later ones, path by path, and no others |
| PipelineStages.Pipeline.NotRun | scripts/run-pipeline.py:493-497 | a stage that does not run leaves no result of its own |
| PipelineStages.Pipeline.Stage | scripts/run-pipeline.py:460-491 | keeps a stage that has a record, is not asked for and has no stage before it that ran; otherwise runs it, unless a stop is noticed; each change of the disk is a step of the machine |
| PipelineStages.Pipeline.RunTarget | scripts/run-pipeline.py:516-570 | a whole invocation follows the machine to its end, keeps a stage if and only if every one before it passed, it has a record, nobody asked for a new result and none before it ran, runs it if and only if they passed, it is not kept and no stop is noticed, and leaves the earlier records of the kept stages, new ones of those that ran, and none behind a stage that did not pass |
| AuthRequests.FinishKeepsValid | src/agents/gnoblin-auth-agent.c:217-260 | whatever ends a request, its entry, its timer and its place in the agent's table go together, with one answer, and one end unless the control is stopping |
| AuthRequests.FinishIs | src/agents/gnoblin-control-auth.c:187-198 | ending a request first, whose callback removes the entry, in closed form |
| AuthRequests.RemoveIs | src/agents/gnoblin-control-auth.c:47-73 | removing the entry first, whose destructor ends the request, comes to the same state |
| AuthRequests.TurnedAwayIs | src/agents/gnoblin-control-auth.c:87-97 | a request that the control does not take is answered as cancelled and never announced |
| AuthRequests.ListKeepsValid | src/agents/gnoblin-control-auth.c:99-147 | a request that it takes gets an entry, an armed timer and one announcement |
| AuthRequests.RearmedKeepsValid | src/agents/gnoblin-control-auth.c:75-79 | arming replaces the timer of the entry and leaves no other behind |
| AuthRequests.OperatedKeepsValid | src/agents/gnoblin-control-auth.c:200-252 | begin, respond and cancel keep the tables mirrored |
| AuthRequests.StopKeepsValid | src/agents/gnoblin-auth-agent.c:430-451 | stopping, in any order of the snapshot, ends every request and leaves no entry and no timer |
| AuthRequests.StepKeepsValid | src/agents/gnoblin-control-auth.c:47-198 | every event, also a stop of the control, keeps the two tables equal, at most 8 entries, one armed timer each, and every story open or over |
| AuthRequests.RunKeepsValid | src/agents/gnoblin-auth-agent.c:217-366 | so does every run of arrivals, prompts, answers, cancels, timeouts, completions, stops of the agent and of the control, and restarts |
| AuthRequests.ExactlyOnce | src/agents/gnoblin-control-auth.c:87-198 | in every run an announced request was announced once, and has either an entry with an armed timer or exactly one answer, and exactly one published end unless the control stopped before; the answer is the one for that end unless polkit cancelled before |
| AuthRequests.PublishedOnceIff | src/control/gnoblin-control-publish.c:433-462 | in every run an announced request that ended has one published end if and only if the control did not stop before, and always one answer |
| AuthRequests.SilentIffStoppedBefore | src/control/gnoblin-control-publish.c:433-437 | in every run a request ends silently if and only if the control stopped before it ended |
| AuthRequests.ShutdownIsSilent | src/control/gnoblin-control-api.c:481-491 | when the control stops and then its agent, every announced request that is going on gets one answer and no published end |
| AuthRequests.ShutdownIsReached | src/control/gnoblin-control-api.c:481-491 | that happens in a run from the beginning |
| AuthRequests.AnswerMatchesIff | src/agents/gnoblin-auth-agent.c:250-371 | in every run a published end and polkit's answer match if and only if the end is a cancellation or polkit did not cancel before it |
| AuthRequests.CancelledIffSignalled | src/agents/gnoblin-auth-agent.c:318-321 | in every run a request counts as cancelled by polkit if and only if its cancellable was signalled while the request listened |
| AuthRequests.AuthorizedButCancelled | src/agents/gnoblin-auth-agent.c:311-321 | whenever a session ends well between polkit's cancellation and the main loop's turn, clients are told authorized and polkit cancelled |
| AuthRequests.AuthorizedButCancelledIsReached | src/agents/gnoblin-auth-agent.c:311-321 | that happens in a run from the beginning |
| AuthRequests.StopIsPossible | src/agents/gnoblin-auth-agent.c:430-451 | an agent can be stopped in every valid state |
| AuthRequests.StopEndsAll | src/agents/gnoblin-control-auth.c:319-322 | after a stop every announced request has exactly one answer, and exactly one end, which goes with it, unless it ended silently; those that the stop ends are silent if and only if the control is stopping |
| AuthRequests.TimerEndsRequest | src/agents/gnoblin-control-auth.c:65-73 | the timer of an entry can always fire, and then ends the request as cancelled, published unless the control is stopping |
| AuthRequests.StoryIsFinal | src/agents/gnoblin-auth-agent.c:217-219 | after its end nothing more is published or answered for a request, whatever happens |
| AuthRequests.Control.PublishFinished | src/control/gnoblin-control-publish.c:433-437 | an end is published unless the control is stopping |
| AuthRequests.Control.RequestFinish | src/agents/gnoblin-auth-agent.c:217-260 | the end of a request with its callbacks into the control and back |
| AuthRequests.Control.AuthFinished | src/agents/gnoblin-control-auth.c:187-198 | the callback removes and publishes the entry with the result, if there is one |
| AuthRequests.Control.RemovePending | src/agents/gnoblin-control-auth.c:47-73 | the entry leaves the table before its destructor ends the request |
| AuthRequests.Control.AuthStarted | src/agents/gnoblin-control-auth.c:87-147 | a new request is listed and announced, or cancelled |
| AuthRequests.Control.InitiateAuthentication | src/agents/gnoblin-auth-agent.c:323-366 | polkit's request is refused outright, turned away, or listed under the next id |
| AuthRequests.Control.OnSessionRequest | src/agents/gnoblin-auth-agent.c:185-194 | a prompt re-arms the timer of its request |
| AuthRequests.Control.OnTimeout | src/agents/gnoblin-control-auth.c:65-73 | a timer that fires removes its entry |
| AuthRequests.Control.AuthOperation | src/agents/gnoblin-control-auth.c:200-252 | an operation succeeds if and only if the request is listed, the client is one of its recipients or needs not be, and the request allows the call; the errors come in their order, the one for a client that is no recipient exactly for such a client, and a refused operation changes nothing |
| AuthClients.OperationNeedsEvents | src/agents/gnoblin-control-auth.c:200-252 | in every run an operation changes something if and only if the client, unless it is client 0, was noted for the request since it was listed, and a begin is the first one and names one of the identities, a response answers a prompt that came after the last response, and a cancel needs no more; otherwise it is refused and nothing changes |
| AuthClients.RecipientsAreNoted | src/agents/gnoblin-control-auth.c:324-333 | in every run a client is a recipient of a listed request if and only if it was noted for it since it was listed |
| AuthClients.BegunAtMostOnce | src/agents/gnoblin-control-auth.c:221-232 | in every run a request is begun at most once, and has begun exactly then |
| AuthClients.CancelEndsRequest | src/agents/gnoblin-control-auth.c:242-245 | the cancel of a recipient always ends a listed request, as cancelled |
| AuthClients.EndIs | src/agents/gnoblin-control-auth.c:187-198 | which end is published and what polkit gets when a session completes, a timer fires or a cancellation is handled |
| AuthClients.ArrivalIs | src/agents/gnoblin-control-auth.c:87-147 | a request is refused without an agent or an identity, cancelled unannounced while the control stops, is not ready or has eight, and otherwise listed for 15 seconds and announced |
| AuthClients.LimitsHold | src/agents/gnoblin-control-auth.c:75-97 | in every run at most eight requests are listed, with a timer of 15 seconds before they are begun and of 120 seconds from then on |
| AuthRequests.Control.AuthStop | src/agents/gnoblin-auth-agent.c:430-460 | the loop over the snapshot ends every request, and both tables are empty |
| PipewireMonitor.StepKeepsValid | src/agents/gnoblin-pipewire-monitor.c:77-496 | every critical section and PipeWire event keeps one stop at a time, truthful flags, sound reports, and the last report up to date |
| PipewireMonitor.RunKeepsValid | src/agents/gnoblin-pipewire-monitor.c:77-496 | so does every interleaving |
| PipewireMonitor.StopIsQuiet | src/agents/gnoblin-pipewire-monitor.c:467-496 | a stop that found the monitor started, on a thread that does not own the context, returns only when no callback runs, and none begins until the next start |
| PipewireMonitor.NothingStartsDuringStop | src/agents/gnoblin-pipewire-monitor.c:405-447 | while a stop waits, start is refused, retry does nothing, and callbacks only end |
| PipewireMonitor.StopReturns | src/agents/gnoblin-pipewire-monitor.c:475-481 | a waiting stop returns when it runs after the callbacks that were running have ended |
| PipewireMonitor.OwnerStopReturnsInsideCallback | src/agents/gnoblin-pipewire-monitor.c:479-481 | a stop from the thread that owns the context returns while a callback runs |
| PipewireMonitor.NeverActiveWhenUnavailable | src/agents/gnoblin-pipewire-monitor.c:112-157 | in every run no listener is told of activity of an unavailable server |
| PipewireMonitor.ListenerCatchesUp | src/agents/gnoblin-pipewire-monitor.c:112-157 | once the queue is empty, the listener has been told whether some microphone node and some camera node is running |
| PipewireMonitor.AvailableIff | src/agents/gnoblin-pipewire-monitor.c:209-496 | the server counts as available from the first answer on a connection that is not lost, until the connection is lost or made again, a node cannot be observed or a stop ends |
| PipewireMonitor.Monitor.NotifyOnContext | src/agents/gnoblin-pipewire-monitor.c:77-87 | a queued report is delivered if and only if the monitor is started and somebody listens |
| PipewireMonitor.Monitor.AnyNodeRunning | src/agents/gnoblin-pipewire-monitor.c:140-151 | whether some node of the kind is running |
| PipewireMonitor.Monitor.OnGlobal | src/agents/gnoblin-pipewire-monitor.c:209-242 | a new node is bound, or its failure marks the connection as lost |
| PipewireMonitor.Monitor.RetryConnection | src/agents/gnoblin-pipewire-monitor.c:405-424 | a retry reconnects only a started monitor without a connection |
| PipewireMonitor.Monitor.Start | src/agents/gnoblin-pipewire-monitor.c:441-465 | start succeeds if and only if the monitor is neither started nor stopping |
| PipewireMonitor.Monitor.Stop | src/agents/gnoblin-pipewire-monitor.c:467-496 | a stop up to its first wait or its return |
| PipewireMonitor.Monitor.ResumeStop | src/agents/gnoblin-pipewire-monitor.c:480-496 | a stop from a wakeup to its next wait or its return |
| Inhibitors.UsableIffRoom | src/idle.c:577-579 | there is a cookie for the search to find if and only if fewer than 2^32 - 1 are live |
| Inhibitors.NextUsableIsUnique | src/idle.c:577-579 | the first usable cookie behind the counter is one number |
| Inhibitors.StepKeepsValid | src/idle.c:511-602 | live cookies stay non-zero and within 32 bits, each with a descriptor of its own, and exactly those descriptors are open |
| Inhibitors.OnlyOwnerRemoves | src/idle.c:511-602 | an entry goes exactly when its owner asks, its owner disconnects or the service ends, and exactly then its descriptor is closed once |
| InhibitorLaws.CookieIs | src/idle.c:565-587 | a new inhibitor gets the first cookie behind the last one that is not live, with 1 behind 2^32 - 1 |
| InhibitorLaws.EntryGoesIff | src/idle.c:511-602 | an entry goes and its descriptor is closed if and only if its owner hands in its cookie, the unique name of its owner vanishes, or the service ends |
| Inhibitors.EntryStays | src/idle.c:565-602 | in every run an entry that nothing removes is there at the end, unchanged and open |
| Inhibitors.NothingLeaks | src/idle.c:177-183 | in every run each descriptor is closed at most as often as it was taken, and after the end of the service exactly as often |
| Inhibitors.IdleService.Search | src/idle.c:577-579 | the loop ends at the first usable cookie, also across the wrap of the counter |
| Inhibitors.IdleService.Inhibit | src/idle.c:565-587 | a refusal by logind changes nothing; otherwise the new cookie holds the descriptor |
| Inhibitors.IdleService.UnInhibit | src/idle.c:589-602 | succeeds if and only if the caller owns the cookie |
| Inhibitors.IdleService.NameOwnerChanged | src/idle.c:516-528 | a vanished unique name takes all of its entries with it, and no other change does |
| Inhibitors.IdleService.Shutdown | src/idle.c:719-754 | the end of the service closes every descriptor that is held |
| Grants.FirstRefusedNone | src/cli/gnoblinctl-lua-contexts.c:211-222 | narrowing is not refused if and only if every requested scope is in the grant and not used |
| Grants.NarrowedIsWithin | src/cli/gnoblinctl-lua-contexts.c:180-237 | a narrowed grant has no scope and no window beyond its parent's, and no scope that was used |
| Grants.StepKeepsValid | src/cli/gnoblinctl-lua-contexts.c:38-295 | every operation keeps the reference counts, the frees, the lineage and the one use of each scope right |
| Grants.EachScopeOnce | src/cli/gnoblinctl-lua-contexts.c:94-126 | in every run two operations of one gesture have different scopes, and a menu gesture never has two |
| Grants.DescendantIsWithin | src/cli/gnoblinctl-lua-contexts.c:180-237 | any number of narrowings never widens |
| Grants.TakenWithinAncestors | src/cli/gnoblinctl-lua-contexts.c:94-126 | in every run an operation has a scope, and if it names one a window, of every grant that its own was narrowed from |
| Grants.EveryRecordIsFreed | src/cli/gnoblinctl-lua-contexts.c:283-295 | once every handle is collected, every shared record has been freed exactly once |
| Grants.HeldRecordIsThere | src/cli/gnoblinctl-lua-contexts.c:38-45 | a record that a handle points at is not freed, and its count is the number of such handles |
| GrantLaws.NamesMean | src/cli/gnoblinctl-lua-contexts.c:199-210 | which name means which scope, up to the first NUL |
| GrantLaws.PushIs | src/cli/gnoblinctl-lua-contexts.c:47-59 | a gesture of a menu may move and resize, another one everything; nothing of it is used, and its record is new |
| GrantLaws.TakeSucceedsIff | src/cli/gnoblinctl-lua-contexts.c:94-126 | in every run an operation is taken if and only if the grant is of a live subscription of this client, has the scope, is for no other window, and no operation of its gesture had that scope before, or any at all if it is of a menu |
| GrantLaws.NarrowSucceedsIff | src/cli/gnoblinctl-lua-contexts.c:180-238 | narrowing to a list of names succeeds if and only if there are one to five, each of a scope that the grant has and its gesture has not used, and a window, if any, is an ID of 1 to 23 bytes that the grant does not exclude; it gives exactly those scopes and that window |
| Grants.LuaState.PushGrant | src/cli/gnoblinctl-lua-contexts.c:47-59 | a new gesture gets a record of its own and the scopes of its kind |
| Grants.LuaState.TakeGrant | src/cli/gnoblinctl-lua-contexts.c:94-126 | the errors in their order, and the mark on the record |
| Grants.LuaState.ReadNames | src/cli/gnoblinctl-lua-contexts.c:199-211 | the union of the named scopes, or nothing if one name is unknown |
| Grants.LuaState.CheckNarrowing | src/cli/gnoblinctl-lua-contexts.c:212-222 | the first scope of the table that cannot be passed on, and why |
| Grants.LuaState.NarrowGrant | src/cli/gnoblinctl-lua-contexts.c:180-238 | the errors in their order, and the new handle |
| Grants.LuaState.CollectGrant | src/cli/gnoblinctl-lua-contexts.c:283-295 | a finaliser gives up one reference, frees the record with the last one, and does nothing the second time |
| EventFraming.SplitGlues | src/cli/gnoblinctl-client.c:261-316 | complete lines stay what they are, whatever is read after them |
| EventFraming.PutBackIffNoNul | src/cli/gnoblinctl-client.c:264-293 | what is put back is what came if and only if no line put back holds a NUL |
| EventFraming.ExchangeAccounts | src/cli/gnoblinctl-client.c:261-326 | on every exit the stream splits into lines put back, at most one own line, and the rest |
| EventLaws.FirstLine | src/cli/gnoblinctl-client.c:263-294 | the first line of a buffer is put back up to its first NUL and the rest decides, or it settles the call: an invalid line is put back, an answer is not |
| EventLaws.CallEndsAt | src/cli/gnoblinctl-client.c:204-326 | every call ends at the first turn at which the stream holds an answer or an invalid line, or more than 4 MiB without one are left over or put back, or the socket fails or is closed; or when the time is over |
| EventFraming.NothingIsLost | src/cli/gnoblinctl-client.c:204-326 | of a stream without NULs the subscription keeps every byte in order, but for the first line that carries the request's id when that was the answer |
| EventFraming.LostIffNul | src/cli/gnoblinctl-client.c:264-293 | in general as many bytes are kept as came, but for the own line, if and only if no line put back holds a NUL |
| EventFraming.LineIsCutAtNul | src/cli/gnoblinctl-client.c:264-293 | an event with a NUL in front of the answer loses what follows the NUL |
| EventFraming.SplitsDoNotMatter | src/cli/gnoblinctl-client.c:261-326 | two calls that read the same bytes in different pieces and do not time out end alike |
| EventFraming.Subscription.TakeLines | src/cli/gnoblinctl-client.c:263-294 | the inner loop takes lines off the buffer up to the first that settles the call |
| EventFraming.Subscription.Request | src/cli/gnoblinctl-client.c:204-326 | the incremental loop computes what looking at the whole stream in every turn computes |
| EventFraming.Subscription.CallCompositor | src/cli/gnoblinctl-client.c:204-326 | a request goes to the subscription's own connection or to the shared one of the shortcut owner, accounts for that one's bytes and leaves the other alone |
| LuaJson.RoundTripIffPlain | src/cli/gnoblinctl-json.c:3-152 | a JSON value comes back from Lua unchanged if and only if it has no null in a container, no empty array, at most 64 levels, finite numbers and valid text |
| LuaJson.ToJsonIsPlain | src/cli/gnoblinctl-json.c:3-116 | every value that Lua hands over survives the way there and back |
| LuaJson.BackToLua | src/cli/gnoblinctl-json.c:3-152 | read back into Lua it is the value it was, with copies in place of read-only views |
| LuaJsonLaws.ScalarsMean | src/cli/gnoblinctl-json.c:10-152 | what each value that is no container becomes, both ways |
| LuaJsonLaws.ArrayMeans | src/cli/gnoblinctl-json.c:118-152 | an array becomes a table with its elements at 1, 2 and so on, without the nulls |
| LuaJsonLaws.ObjectMeans | src/cli/gnoblinctl-json.c:118-152 | an object becomes a table with its members under their names, without the nulls |
| LuaJsonLaws.DeepestNesting | src/cli/gnoblinctl-json.c:3-8 | 64 tables around an empty one convert, and 65 do not |
| LuaJson.ContainerIsArray | src/cli/gnoblinctl-json.c:47-76 | a table becomes a given array if and only if its keys are 1 to the length and its values are the elements |
| LuaJson.ContainerIsObject | src/cli/gnoblinctl-json.c:78-103 | a table becomes a given object if and only if its keys are the names and its values are the members |
| LuaJson.DenseIffBorder | src/cli/gnoblinctl-json.c:48-60 | the array test finds the same whichever border lua_rawlen answers with |
| LuaJson.IsArray | src/cli/gnoblinctl-json.c:48-60 | the counting loop decides whether the keys are exactly 1 to their number |
| LuaJson.LuaToJson | src/cli/gnoblinctl-json.c:3-116 | the recursion that builds arrays and objects step by step computes the conversion, or fails exactly when it fails |
| LuaJson.JsonToLua | src/cli/gnoblinctl-json.c:118-152 | the recursion that fills tables step by step computes the conversion |
| EditDistance.ComputeDistance | src/cli/gnoblinctl-cli.c:172-192 | one row overwritten in place computes the recursive distance, and names that are too long have none |
| EditDistance.OverwriteRow | src/cli/gnoblinctl-cli.c:180-190 | one pass turns a row of the table into the next one |
| EditDistance.LevenshteinIsMetric | src/cli/gnoblinctl-cli.c:172-192 | the distance is zero only on equal strings, symmetric, subject to the triangle inequality, and at most the longer length |
| EditLaws.DistanceIsFewestEdits | src/cli/gnoblinctl-cli.c:172-192 | the distance is the least number of insertions, deletions and replacements of one character that turn one word into the other |
| EditDistance.ClosestWord | src/cli/gnoblinctl-cli.c:195-210 | the first word of the smallest score if that is at most two or a third of the typed length, and nothing exactly when no word is that close |
| EditLaws.ScoreMeans | src/cli/gnoblinctl-cli.c:200-203 | a word that begins with the typed one, of two characters or more, scores one; otherwise a name of more than 40 characters is never close, and the score is the fewest edits |
| EditLaws.SplitsAtSpace | src/cli/gnoblinctl-cli.c:198-198 | a list is split at every single space |
| EditDistance.SplitWordsJoins | src/cli/gnoblinctl-cli.c:198-198 | splitting at spaces loses nothing, and no word holds a space |

## Assumptions about the surroundings

- A descriptor that logind hands over is not open at that moment, and fewer than 2^32 - 1 inhibitors are live when one
  more is asked for; without room the search of the source does not end (`Inhibitors.Possible`).
- PipeWire announces a node id again only after it was removed, and its thread runs only between connect and disconnect.
- Polkit's session signals come only while their handlers are connected and never from inside begin or respond, so they
  are steps of their own.
- The read results of a request, the classification of a line, digests, ETags of new objects, UTF-8 validity and the
  package names in a metadata file are parameters, and the theorems hold for all of them.
- A class method that stands for one critical section or callback is one step; what the lock of the source protects is
  not interleaved. Iteration over hash tables, sets and directory listings is in any order.

## Left out

- RpmOrder.RpmCompare: `int()` also accepts signs, blanks and underscores in an epoch; the model takes digits.
- PackageVersions.Compare: pacman versions without a pkgrel or with a trailing separator, which have no order, are left
  out, and so are strings that the comparator of the format refuses.
- DpkgOrder.VerRevCmp: digits and letters outside ASCII, which `str.isdigit` and `str.isalpha` accept, are not modelled.
- DpkgOrder.DpkgCompare: `int()` also accepts signs, blanks and underscores in an epoch; the model takes digits.
- PacmanOrder.AlpmRpmVerCmp: digits and letters outside ASCII are not modelled.
- ApkOrder.ApkCompareIsTotalPreorder: `$` of a Python pattern also matches before a final newline; the model does not.
- Nightly.SemverSpellings: the same for `$`, and `\d` also matches digits outside ASCII.
- Retention.ApplyRetention: the library's sort is modelled as a stable insertion sort.
- EditDistance.ClosestWord: the threshold is not reduced to 32 bits, which matters for names of twelve gigabytes.
- Publish.Store.Execute: `aws s3 sync` is a set of uploads in any order without deletes; that it may leave out an
  unchanged file, multipart uploads and the rsync and Pages back ends are not modelled.
- PrioritySlots.Slots.Acquire: the heap is a set with a least element; the layout of heapq is not modelled.
- PipelineStages.Pipeline.RunTarget: targets on the shared packages, what the stage.json files say, the verdict and the
  concurrency between targets are not modelled. The record's detail, times and evidence and the build logs of the prefix
  are not either.
- AuthRequests.ExactlyOnce: the control's other reasons not to take a request are one flag. Polkit looks at a result in
  the step that returns it. A cancellation between the return and that look, a cancellation before a refusal outright,
  the reference counts of requests, the texts of prompts, information messages and the capability event are not
  modelled.
- PipewireMonitor.RunKeepsValid: the reference count of the monitor, the lookup of a node by its proxy and the socket
  test are not modelled; a failed binding is an event that does not happen.
- Grants.TakenWithinAncestors: pointers are numbers, and the request that follows a take is not modelled.
- LuaJson.LuaToJson: which of several errors is reported, names that differ only behind a NUL, negative zero, and
  userdata that is not a read-only table (for which the source returns no value) are not modelled.
- EventFraming.Subscription.Request: building the request and parsing lines are parameters.
- JSON parsing, signing, createrepo, apt-ftparchive, repo-add, podman, git and network fetches are external.
- The prompt broker, the command line dispatch, help, completions, pages and manifests would only add easy members.
