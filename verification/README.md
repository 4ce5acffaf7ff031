# The back office, verified

A Dafny model of the parts of the back office that keep state, print or parse, and proofs of what they promise over
every input, every run and every interleaving. `dafny verify dfyconfig.toml` checks it all.

The modules follow the program:

- **Execution references** — `Placement` (the walk from a manifest item to the domain or capability it belongs to),
  `ParserModel`, `Parser`, `ParserTheorems`, `ParserContents` (the line-driven document parser, against a declarative
  segmentation of the document), `Import`, `ImportProofs`, `ImportContents`, `ImportTheorems`, `ImportConvergence`,
  `ImportAborts`, `ImportDocuments`, `ImportRuns` (the backlog import, previewed and real).
- **French amounts** — `French`, `FrenchProofs`, `FrenchSpelling` (the printer of numbers in words, a reader that undoes it,
  and the spelling rules the words keep).
- **Health** — `HealthRing`, `HealthProjection` (24-slot rings against a table by hour), `Incidents`, `IncidentRuns`
  (the incident machine that consumes the echo of its own events).
- **GitHub** — `BranchName`, `BranchNameProofs`, `BranchSlug`, `BranchNameRules`, `BranchReference` (naming a branch and
  finding the ticket again), `BranchTable`, `Webhooks`, `WebhookContents`, `WebhookRuns` (deliveries, what they leave on the
  rows, repeats and crossing retries), `StartWork`, `StartWorkRuns` (starting work and opening pull requests, step by step, between webhooks and failures).
- **Money** — `Money`, `Invoices`, `Quotes`, `CurrencyTotals`, `Cashflow`, `NumberSequence` with `Decimal`.
- **Registry** — `AppRegistry` (who is online, and the manifest history).

An object the program updates in place is a class whose methods are proved equal to a function on the abstract state;
what is promised is then proved of that function and of whole sequences of its steps. What is stored or reported is also
told on the rows, field by field, without the function that computes it. A database table is a map or a
sequence with the unique constraint it declares. SHA-256 is left as the text it is taken of, times are integers in
milliseconds (or months, for the cashflow), quantities and rates are exact integers in hundredths with half-up rounding,
and a line of a document comes classified by the pattern it matches. Where two requests can cross, their steps are the
steps of a state machine and the theorems quantify over every interleaving.

## What the proofs found

Some promises do not hold of the code on every input. Each of these is a lemma with the input that breaks it, beside a
theorem that says exactly when the promise holds.

- Two story blocks under one epic give two stories one key, and the parser lets them pass. Their first import is aborted on the
  unique `reference` although the preview reports no trouble (`RepeatedStoryAborts`), and every later import rewrites the story
  with the other content (`RepeatedStoryNeverSettles`). `AbortsExactly`, `PreviewAgreesExactly` and `ImportConverges` say for
  every manifest when an import is aborted, agrees with its preview, and converges; with distinct keys and distinct
  32-character prefixes no import is aborted (`ImportNeverAborts`), so no import of a document with one story block for each
  epic is (`DocumentNeverAborts`).
- The printer of amounts is meant for all whole non-negative integers; from two thousand milliards on it prints the word of
  an entry its table does not have. The reader recovers a number exactly below that bound.
- An incident can stay open although its service is online and no event is under way, when the echo of a close arrives after
  the next opening (`LateEchoLeavesIncidentOpen`; `OpenExactly` says when, for every run), or when the service came back during
  a restart (`RestartForgetsRecovery`).
- `errors24h` keeps hours that have left the day, because reads do not advance the ring, and drops hours of the day once a
  window ends later than it is read (`EarlyWindowHidesErrors`); `StaleHoursStay` says when it is right, at any hour.
- A reference that still ends in `.lock`, once one final `.lock` and then the separators at its ends are taken off, names a
  branch the rules refuse when no title follows (`DoubledLockIsRefused`), and so does one with a control character that is no
  white space; `NamePassesUnless` says exactly when. This is a fact of the functions: the references of tickets end in digits.
- A webhook can store a branch before the call that made it does: the call fails, the status stays, and the ticket counts as
  started (`WebhookWinsTheRace`). A name once stored blocks every later start under it, although readiness stays green
  once the branch is closed (`TakenStaysTaken`, `ClosedBranchLeavesReady`). A branch deleted while its pull request is
  being opened is open again afterwards (`DeletedWhileOpening`; `ReopensExactly` says when). Two calls at once can move a ticket back
  (`TwoCallsMoveBack`, `SaveLowersExactly`). Each is reached from a table at rest (`RaceIsReached`, `ReopeningIsReached`,
  `MoveBackIsReached`), the race and the move back by every ordinary ticket (`OrdinaryTicketRaces`).
- A null sent for an amount passes the invoice's checks as "unchanged" and is stored as zero (`NullWipesAmount`); a receipted
  invoice of amount zero loses its paid status with any update (`PaidNeedsAmount`, `ZeroReceiptCanReopen`).
- An invoice made from a quote stays stored when the quote can then not be accepted (`ConvertQuote`).
- The two-statement counter gives two crossing callers one number (`CrossingMints`).
- A heartbeat whose time does not parse keeps an application online for good (`UnparsedStaysOnline`).

## Model

| member | source | states |
|---|---|---|
| Placement.ResolvePlacement | src/execution-references/execution-placement.ts:32-69 | the loop over the growing `seen` set terminates on every manifest and computes the walk that the lemmas below speak about |
| Placement.ResolveExactly | src/execution-references/execution-placement.ts:41-68 | for every item, held by the manifest or not, a cycle is reported if and only if the chain has no end or comes back to the key it started from at an ancestor with a parent; any other answer is that of the nearest ancestor that settles |
| Placement.ResolveIsNearest | src/execution-references/execution-placement.ts:41-68 | an item that the manifest holds under its key, or whose key no ancestor with a parent has, is placed at its nearest ancestor that settles (registered capability before domain, no parent, or a dangling one), and a cycle is reported exactly when no ancestor settles |
| Placement.UnnamedNeverReturns | src/execution-references/execution-placement.ts:41-68 | the chain never comes back to a key that no item declares as its parent, as no item declares a story |
| Placement.StoryFollowsEpic | src/execution-references/execution-placement.ts:57-65 | such a story, the first of two under one key included, whose parent is an unregistered epic key is placed exactly as its epic is, and fails exactly when its epic fails |
| Placement.DuplicateKeyFalseCycle | src/execution-references/execution-placement.ts:42-44 | the exception is there: a chain that ends but comes back to the key of an item the manifest no longer holds is reported as a cycle; a fact of the function, since the parser files no second epic under a key |
| Parser.ReferenceParser.Parse | src/execution-references/execution-reference.parser.ts:194-479 | the streaming parser, with its open item, seen keys and look-ahead, yields exactly the items, issues and project of the declarative segmentation of the document |
| Parser.ReferenceParser.CloseOpenItem | src/execution-references/execution-reference.parser.ts:211-219 | closing a section gives the open item the body from its start to the given line, its hash input, and changes no other item |
| Parser.ReferenceParser.Push | src/execution-references/execution-reference.parser.ts:221-235 | an item is filed and opened under a new key, or reported with the line that took the key and not filed |
| Parser.ReferenceParser.ReadEpic | src/execution-references/execution-reference.parser.ts:308-328 | reading an epic heading takes the state that the lines before it declare (items, issues, keys, context, open section) to the one that they and it declare |
| Parser.ReferenceParser.ReadDomain | src/execution-references/execution-reference.parser.ts:241-265 | the same for a domain heading, which closes the section and resets the context |
| Parser.ReferenceParser.ReadCapability | src/execution-references/execution-reference.parser.ts:267-306 | the same for a capability heading, warned about under another domain than its own |
| Parser.ReferenceParser.ReadAboutEpic | src/execution-references/execution-reference.parser.ts:331-400 | the same for a priority, side, version or domain line, which speaks of the epic whose section it stands in, accepted or not |
| Parser.ReferenceParser.ReadStories | src/execution-references/execution-reference.parser.ts:402-447 | the same for a story block: its stories are filed past the key check, or it is warned about when it lists none |
| Parser.ReferenceParser.ScanStories | src/execution-references/execution-reference.parser.ts:404-438 | the look-ahead finds exactly the numbered lines up to the first heading, or the first prose after the list |
| Parser.ReferenceParser.ReadProject | src/execution-references/execution-reference.parser.ts:348-361 | the same for a project line: the first one is kept, a different one is warned about |
| Parser.ReferenceParser.ReadOtherHeading | src/execution-references/execution-reference.parser.ts:450-454 | the same for any other heading, which closes the section |
| Parser.ReferenceParser.ReadLine | src/execution-references/execution-reference.parser.ts:237-455 | reading any line takes the state its predecessors declare to the one it completes |
| Parser.ReferenceParser.SetEpic | src/execution-references/execution-reference.parser.ts:331-400 | a change of the current epic is a change of its item exactly when it was accepted |
| ParserTheorems.EpicsAreSections | src/execution-references/execution-reference.parser.ts:211-219 | the epics of a document are its accepted epic headings, and an epic's body is exactly the prose from after its heading to the next heading of any level or the end |
| ParserContents.HashedExactly | src/execution-references/execution-reference.parser.ts:211-219 | two epics, of one document or of two, have the same hash input if and only if they have the same title and the same body |
| ParserContents.ExcerptTells | src/execution-references/execution-reference.parser.ts:211-219 | a body is the text of its lines, joined by newlines, without the white space at its ends, and there is none when nothing is left |
| ParserContents.EpicsTell | src/execution-references/execution-reference.parser.ts:308-400 | every field of every epic, told on the lines: key, title and line of its heading, the last priority, last known side, last version that fits and last domain line of its section, and else the capability or domain it stands under |
| ParserContents.StoriesTell | src/execution-references/execution-reference.parser.ts:404-447 | every story of a block, told on the lines: numbered in order under the epic it stands in, titled and hashed by its sentence, its side tagged or the epic's, and priority and version as the epic's lines before the block say |
| ParserContents.HeadingsTell | src/execution-references/execution-reference.parser.ts:241-306 | a domain or capability heading files one item with its own number, title and line when it is the first of its key, and none else |
| ParserContents.ProjectTells | src/execution-references/execution-reference.parser.ts:348-361 | the project of a document is that of its first project line |
| ParserContents.IssuesExactly | src/execution-references/execution-reference.parser.ts:222-476 | an issue of any kind is reported if and only if the document holds its cause, told line by line: a repeated key with the line of the first, a capability under another domain, an unknown side, a version too long, a block that lists nothing, a second project, a parent that nothing declares, or nothing recognised |
| ParserTheorems.HeadingKeysDistinct | src/execution-references/execution-reference.parser.ts:221-235 | domain, capability and epic keys are pairwise distinct, and none is a story's |
| ParserTheorems.AllKeysDistinct | src/execution-references/execution-reference.parser.ts:412-432 | story keys are distinct as well exactly when no epic code has two story blocks that list stories, since stories bypass the key check |
| ParserTheorems.OneErrorPerDuplicate | src/execution-references/execution-reference.parser.ts:222-231 | the duplicate errors are those of the rejected headings, one each and in document order, with the heading's own key and line and the line that declared the key first |
| ParserTheorems.ParentsAccountedFor | src/execution-references/execution-reference.parser.ts:467-476 | every parent key is declared in the document, named by a domain line, or warned about |
| ParserTheorems.StoryLinesAreListed | src/execution-references/execution-reference.parser.ts:404-438 | the stories of a block are its numbered lines up to a heading or to the first prose after the list |
| ParserTheorems.RenderedInjective | src/execution-references/execution-reference.parser.ts:160-167 | two keys of a document are written alike only when they are the same key, padding included |
| Import.ResolveDocumentProject | src/execution-references/execution-import.service.ts:116-137 | a declared name designates a project exactly when one active project, and only one, answers to it |
| Import.ExecutionImport.Save | src/execution-references/execution-import.service.ts:372-426 | a row is stored under its id, or refused with nothing changed exactly when another row holds its reference |
| Import.ExecutionImport.ImportItem | src/execution-references/execution-import.service.ts:318-431 | one turn of the loop does to rows, epic ids, counts and lines what the step function says, for a preview and a real import alike |
| Import.ExecutionImport.ImportItems | src/execution-references/execution-import.service.ts:318-431 | the loop reports one line for each item with matching counts, and stops with what was written when a constraint aborts it |
| Import.ExecutionImport.Import | src/execution-references/execution-import.service.ts:221-449 | the import reports items, withdrawn rows and counts, and leaves the backlog its item steps make; a preview writes nothing |
| ImportProofs.LinesAreVerdicts | src/execution-references/execution-import.service.ts:318-431 | outcome and reason of an item follow from the backlog before the import and the epics alone, whatever was written in between |
| ImportProofs.ImportExplained | src/execution-references/execution-import.service.ts:356-431 | after any part of an import, aborted or not, every row is untouched or is what one item of the manifest wrote |
| ImportContents.RowTellsItem | src/execution-references/execution-import.service.ts:372-426 | after an import that was not aborted, the row of the last item written under a key holds that item's title cut at 200, body, kind, priority or P2, hash and version, domain and capability of its place, its side or the old one, project and release in the order old, reference, document and old, target version, and the old reference or else the first 32 characters of the key unless taken; a key no item was written under keeps its row |
| ImportContents.WrittenExactly | src/execution-references/execution-import.service.ts:318-359 | an item is written if and only if it finds its place and its row is missing, or still in triage with another hash |
| ImportContents.VerdictTells | src/execution-references/execution-import.service.ts:318-370 | the outcome and reason reported of an item, told on the row it finds: refused place, missing epic, new, same hash, triage, or accepted |
| ImportContents.TakenExactly | src/execution-references/execution-import.service.ts:284-300 | the first 32 characters of a key are taken exactly when a stored row has them for its reference and is not the row of a declared key that reads the same |
| ImportContents.ManifestHoldsLast | src/execution-references/execution-import.service.ts:315 | under a key the look-up of parents holds the last item that declares it |
| ImportContents.WithdrawnExactly | src/execution-references/execution-import.service.ts:433-446 | a withdrawn line is reported if and only if a manifest row of a version of the reference, under a key no longer declared, gives it: deprecated when accepted, removed when not |
| ImportContents.WithdrawnAscend | src/execution-references/execution-import.service.ts:433-446 | each such row has one line, in the order of their ids |
| ImportProofs.ImportNeverAborts | src/execution-references/execution-import.service.ts:284-300 | with distinct keys and distinct 32-character prefixes no import is ever aborted by the unique reference |
| ImportProofs.SharedPrefixAborts | src/execution-references/execution-import.service.ts:284-300 | two epic keys that share their first 32 characters abort the import on the second; a fact of the import alone, since epic codes of a parsed document are shorter |
| ImportAborts.AbortsExactly | src/execution-references/execution-import.service.ts:284-300 | for every manifest, repeated keys included, an import is aborted if and only if an item would mint a reference that a stored row has, or that an item before it mints for another row |
| ImportAborts.PreviewAgreesExactly | src/execution-references/execution-import.service.ts:216-220 | for every manifest the preview and the import agree in every outcome, reason and count if and only if no two items contend for a reference |
| ImportAborts.RepeatedStoryAborts | src/execution-references/execution-reference.parser.ts:412-432 | the manifest of a document with two story blocks under one epic, which the parser accepts without a word, aborts its first import on the second story although all prefixes are distinct and the preview reports no trouble; the first story stays stored |
| ImportAborts.RepeatedStoryNeverSettles | src/execution-references/execution-import.service.ts:332-359 | from then on no import of that manifest is aborted and every one rewrites the story with the content it does not have, for ever |
| ImportDocuments.TwoBlocksParse | src/execution-references/execution-reference.parser.ts:402-447 | that document parses to an epic and two stories of one key, and to no issue |
| ImportDocuments.ManifestKeysDistinct | src/execution-references/execution-import.service.ts:164-182 | the keys a parsed document is stored under, its headings numbered as their patterns have it, are distinct exactly when no epic code has two story blocks that list stories |
| ImportDocuments.DocumentNeverAborts | src/execution-references/execution-import.service.ts:313-446 | no import of a parsed document of fewer than 10^18 lines, its headings numbered as their patterns have it, is aborted, over any backlog, when none of its epic codes has two such blocks |
| ImportDocuments.ChangeIsSeen | src/execution-references/execution-import.service.ts:332-359 | an epic whose title or body changed between two documents is never reported as unchanged over the row the first one wrote |
| ImportAborts.StepFails | src/execution-references/execution-import.service.ts:372-426 | an item aborts the import exactly when it is written with a reference that another row holds at that moment |
| ImportTheorems.PreviewEqualsImport | src/execution-references/execution-import.service.ts:221-449 | for every manifest the preview is never aborted and changes nothing, and unless a constraint aborts the import both report the same outcome and reason for every item and withdrawn row and the same counts, although the import has written by then |
| ImportConvergence.LatestAfter | src/execution-references/execution-import.service.ts:318-431 | for every manifest, after any number of items the row of a key is the old one or the work of the last item written under the key |
| ImportConvergence.ImportConverges | src/execution-references/execution-import.service.ts:313-446 | after an import that was not aborted, a second one of the same manifest, at any later time and by anybody, changes no row if and only if no two items that find their place have one key, different contents and no accepted row; it then reports every item as unchanged, skipped or in conflict |
| ImportConvergence.DistinctKeysHaveNoRivals | src/execution-references/execution-import.service.ts:332-359 | so an import of distinct keys that was not aborted always converges |
| ImportTheorems.OneLinePerItem | src/execution-references/execution-import.service.ts:303-331 | every importable item has one line: nothing is dropped or counted twice |
| ImportConvergence.WrittenStays | src/execution-references/execution-import.service.ts:372-431 | what is written for an item stays as written to the end of the import unless a later item is written under its key |
| ImportConvergence.SettledAfter | src/execution-references/execution-import.service.ts:332-359 | after an import the row of an item that finds its place agrees with it or is accepted exactly when the last item written under its key, if any, has its content |
| ImportTheorems.WithdrawnAgree | src/execution-references/execution-import.service.ts:433-446 | the rows reported as withdrawn are the same before and after the import's own writes |
| ImportRuns.ImportKeepsDecisions | src/execution-references/execution-import.service.ts:326-359 | no import, completed, aborted or previewed, and whatever the manifest, deletes a row, changes one whose status is not triage, or replaces a project, release, reference or assignee that is set |
| ImportRuns.ImportKeepsHealthy | src/execution-references/execution-import.service.ts:372-431 | an import of a proper manifest keeps references unique, one row for each key, and every manifest story under a stored epic row |
| ImportRuns.HistoryIsHealthy | src/execution-references/execution-import.service.ts:313-446 | so does every run of imports, previews, status moves, hand-set fields and new rows |
| ImportRuns.AcceptedWorkSurvives | src/execution-references/execution-import.service.ts:332-359 | a row a person accepted stays exactly as they left it through any number of imports after any run, repeated keys, previews and aborted imports included |
| ImportRuns.HistoryIsSound | src/execution-references/execution-import.service.ts:284-300 | references stay unique over any run of imports, completed or aborted, of any manifests |
| ImportRuns.WrittenStoriesLinked | src/execution-references/execution-import.service.ts:326-331 | for every manifest, after an abort as well, a story row an import has written hangs off the stored row of the very epic its item names, an epic of the same manifest |
| ImportRuns.StoriesKeepEpics | src/execution-references/execution-import.service.ts:372-431 | after an import of a proper manifest every manifest story in the backlog, old or new, hangs off a stored manifest epic |
| French.NumberToFrenchWords | src/business/amount-in-words.ts:49-74 | the loop over the scales refuses negatives and yields the joined parts of the number |
| French.TakeScales | src/business/amount-in-words.ts:53-63 | each scale takes its count out of what remains, largest first |
| FrenchProofs.SaysTwoDigits | src/business/amount-in-words.ts:8-23 | read after whole hundreds, the words of a number below a hundred add exactly that number, irregular tens included |
| FrenchProofs.SaysThreeDigits | src/business/amount-in-words.ts:26-36 | the words of a number below a thousand say exactly that number |
| FrenchProofs.SaysDropped | src/business/amount-in-words.ts:39-41 | without its final s a number still says what it said |
| FrenchSpelling.SpelledByTheRules | src/business/amount-in-words.ts:8-74 | the words of every number below two thousand milliards keep the rules of spelling: hyphens join the words below a hundred and nothing else, « et » before « un » and « onze » exactly behind a ten that takes it, no « un cent » and no « un mille », « million » and « milliard » singular exactly behind a lone « un » |
| FrenchSpelling.WhereTheSStands | src/business/amount-in-words.ts:23-41 | « vingts » and « cents » stand nowhere but as the last word, and there exactly when n % 100 is 80, or n % 100 is 0 and n % 1000 at least 200 |
| FrenchProofs.ReaderUndoesPrinter | src/business/amount-in-words.ts:49-74 | a reader that knows the words and the grammar recovers n from its words if and only if n is below two thousand milliards |
| FrenchProofs.InWordsInjective | src/business/amount-in-words.ts:49-74 | no two amounts below that bound are printed alike |
| FrenchProofs.CountsInRange | src/business/amount-in-words.ts:56-63 | the counts handed to the three-digit printer are all within 0–999 exactly below a thousand milliards |
| HealthRing.Ring.Advance | src/health/health.service.ts:553-587 | moving the cursor clears one slot for each hour passed, all of them at most, and the slots then show the table's 24 hours up to the later of now and the ring's hour |
| HealthRing.Ring.Put | src/health/health.service.ts:363-408 | the slots show the table by hour in which the value counts in the later of its own hour and the ring's, after late values and jumps of any length |
| HealthRing.Ring.Ordered | src/health/health.service.ts:506-528 | the slots are listed from the oldest of the 24 hours to the ring's own |
| HealthRing.Ring.Total | src/health/health.service.ts:514-519 | the slots added up are what was counted in the 24 hours that end with the ring's own |
| HealthRing.WindowCounts | src/health/health.service.ts:514-519 | hours of the summing table add up to the values counted in them, each value once |
| HealthRing.AllCounted | src/health/health.service.ts:553-565 | every value counts in one hour: the hours from the ring's first to its own count all values there are |
| HealthRing.HourHolds | src/health/health.service.ts:553-565 | the hour of a time is the one of 3 600 000 ms it falls in, before the epoch as after it |
| HealthRing.TableIsWorst | src/health/health.service.ts:395-407 | an hour of the worst-case table is the largest of its starting value and the values counted in it |
| HealthRing.OwnHourUnlessLate | src/health/health.service.ts:553-565 | a value counts in its own hour exactly when nothing of a later hour came before it |
| HealthRing.RingHourIsLatest | src/health/health.service.ts:553-565 | the ring's hour is the latest hour it has seen |
| HealthProjection.ServiceHealth.ApplySnapshot | src/health/health.service.ts:363-370 | a snapshot with a time is taken into the wellness ring, made full at 100 on the first one; one without changes nothing shown |
| HealthProjection.ServiceHealth.ApplyMetrics | src/health/health.service.ts:382-408 | a metrics window replaces the last one, and with a time adds its errors if any and keeps its rounded p99 if any |
| HealthProjection.ServiceHealth.ToRow | src/health/health.service.ts:505-543 | after any history of snapshots and metrics the row shows the tables of that history: scores and their mean, the last latencies rounded, errors of the ring's own day or the last window's count, and a latency series only once there is one |
| HealthProjection.RoundedExactly | src/health/health.service.ts:511-528 | the shown mean and latencies are the nearest integers, and of two equally near the larger |
| HealthProjection.SumOfParts | src/health/health.service.ts:511-512 | the sum behind the mean is that of all hours |
| HealthProjection.UptimeIsPercent | src/health/health.service.ts:511-512 | snapshots with scores of 0 to 100, in any order, make an hourly series of 0 to 100 and an uptime of 0 to 100 percent, which is 100 exactly when every hour shows 100 |
| HealthProjection.DayLeft | src/health/health.service.ts:553-565 | the day that ends with the ring's hour counts at least what a later day does, and the same exactly when no counted value has left |
| HealthProjection.StaleHoursStay | src/health/health.service.ts:514-519 | once there are errors, and read at any hour, the row counts the 24 hours up to it exactly when what the ring has dropped of them is as much as what it shows of hours that have left them or not begun; read at the ring's hour or later it never shows fewer, and exactly them if and only if no error has left |
| HealthProjection.EarlyWindowHidesErrors | src/health/health.service.ts:382-392 | a window that its sender's clock ends in the next hour makes the row show one error where the day holds five and none has left |
| HealthProjection.FallbackIsUntimed | src/health/health.service.ts:515-519 | the last window's count stands in exactly when every window with errors had no valid time |
| Incidents.IncidentFeed.Sample | src/health/health.service.ts:252-292 | a sample records the status and acts on its change: leaving online, a first sight included, opens and emits a P2 when offline and a P3 else, at its time; a return closes, emits and files the open one among the newest 200; anything else changes nothing |
| Incidents.IncidentFeed.HandleTransition | src/health/health.service.ts:429-501 | leaving online opens and emits an incident, returning closes and emits the open one if there is one, any other change does nothing; the recent list keeps 200 |
| Incidents.IncidentFeed.ApplyIncident | src/health/health.service.ts:410-427 | an opening event sets the open incident, a closing one removes it and is filed first or replaces the entry of its id |
| Incidents.EchoesConverge | src/health/health.service.ts:252-292 | after any samples, delays and restarts a service none of whose events is under way is open exactly as a replay of the whole stream has it; with nothing under way the open sets are equal |
| IncidentRuns.FeedIsFaithful | src/health/health.service.ts:410-501 | when a service's echoes drain before its next sample, and restarts find nothing down, the feed is at every moment the replay of its stream, open and recent alike, and a service is open exactly when its last status is not online |
| IncidentRuns.EchoChangesNothing | src/health/health.service.ts:410-427 | the echo of a service's last event, still within the 200 recent ones, changes nothing |
| IncidentRuns.ReplayKeepsNewest | src/health/health.service.ts:410-427 | a replay's recent list is the newest 200 closed incidents, newest first |
| IncidentRuns.OpenExactly | src/health/health.service.ts:476-478 | over every run with any delays and restarts the stream leaves a service open if and only if its last status is not online, or its last return to online found no open incident to close or was forgotten in a restart; with none of its events under way the feed shows exactly that |
| IncidentRuns.LateEchoLeavesIncidentOpen | src/health/health.service.ts:410-501 | a run ends with nothing under way, the service online and its incident open |
| IncidentRuns.RestartForgetsRecovery | src/health/health.service.ts:281-291 | the first sample after a restart and replay leaves the feed right about the service exactly unless it came back online meanwhile |
| BranchNameProofs.SlugReadsTitle | src/github/branch-name.ts:80-102 | a slug is lower-case words with single hyphens, at most 40 characters; it spells the start of the title's letters and digits, all of them when it is shorter than 20, and is empty only when there are none |
| BranchSlug.WholeIsWords | src/github/branch-name.ts:80-89 | before any cut a slug is the words of the title, its longest runs of letters and digits, with a hyphen between them |
| BranchSlug.SlugIsCut | src/github/branch-name.ts:90-102 | the slug is all of it up to 40 characters; else it ends before the last hyphen between the 20th and the 40th, or at the 40th when there is none |
| BranchNameProofs.SegmentIsClean | src/github/branch-name.ts:142-150 | what is left of a reference holds no character git refuses, no slash and no two dots in a row, and neither starts nor ends with a dot or a hyphen |
| BranchNameProofs.KeyIsKept | src/github/branch-name.ts:142-150 | a key of letters, digits and hyphens that starts with a letter or digit and ends with a digit is kept as it is |
| BranchNameProofs.NameKeepsKey | src/github/branch-name.ts:120-133 | a name keeps prefix and key whole and cuts only the slug: at most 80 characters, or the head alone; it is refused exactly when nothing is left of the reference |
| BranchSlug.NameIsCut | src/github/branch-name.ts:120-133 | the name is its head alone when no word is left or fewer than two characters of room; else head and slug, cut at 80 characters, or at 79 when the 80th is a hyphen |
| BranchSlug.HeadTells | src/github/branch-name.ts:23-46 | the prefix is the one asked for, or feature, fix, spike or chore by the kind of ticket, and hotfix only when asked for |
| BranchNameRules.SegmentReads | src/github/branch-name.ts:142-150 | the sanitised reference is the hyphenated core of the reference: white space, then one `.lock` of a single dot, then separators at both ends taken off |
| BranchNameRules.NamePassesUnless | src/github/branch-name.ts:161-178 | for every reference and title there is a name unless nothing is left of the reference, and it passes the rules if and only if it is within 255 characters without its title (each run counting once), the reference holds no control character but white space, and the reference's core does not end in a `.lock` that ends the name as well, the title having no letter or digit or no room |
| BranchNameRules.FineExactly | src/github/branch-name.ts:161-178 | a name passes the rules if and only if it is 1 to 255 characters, none white space, control or reserved, with no two dots in a row, no dot or `.lock` at the end, not `@`, and no segment that is empty or starts with a dot; padding, double slashes and slashes at the ends follow |
| BranchNameRules.DoubledLockIsRefused | src/github/branch-name.ts:142-150 | a word with `.lock.lock` or `.lock.` behind it keeps a `.lock`, and without a title names a branch the rules refuse; a fact of the function, since ticket references end in digits |
| BranchReference.ReferenceCandidatesFrom | src/github/branch-reference.ts:32-50 | the scan for digit groups lists exactly the cuts the lemma below describes, longest first |
| BranchReference.MatchReference | src/github/branch-reference.ts:58-66 | the loop returns the first candidate that is known |
| BranchReference.CandidatesAre | src/github/branch-reference.ts:32-50 | the candidates are exactly the starts of the body that end with a group of digits and hold only letters, digits and hyphens, each longer than the next |
| BranchReference.CandidateExactly | src/github/branch-reference.ts:32-50 | a key is a candidate if and only if it is letters, digits and hyphens from the start of the body on and ends with a whole group of digits |
| BranchReference.PrefixComesOff | src/github/branch-reference.ts:32-36 | one of the five prefixes comes off, in any case of its letters |
| BranchReference.NoPrefixStays | src/github/branch-reference.ts:32-36 | a name that starts with none of them stays as it is |
| BranchReference.FoundIsLongestKnown | src/github/branch-reference.ts:58-66 | a key is found exactly when it is a known candidate and no longer candidate is known |
| BranchReference.KeyIsFoundAgain | src/github/branch-reference.ts:4-17 | the key of any composed name, plain or as a full ref, is among its candidates, and is found exactly when known with no longer one known; with no digit in the slug, exactly when known |
| BranchReference.LongerKeyWins | src/github/branch-reference.ts:12-16 | a slug that ends with digits can name another ticket, and then that one is found |
| Webhooks.GithubWebhooks.Receive | src/github/github-webhooks.service.ts:63-129 | a delivery is stored once by its id and only then applied; a repeat or a missing id changes nothing, an unknown repository is stored as ignored and changes no branch |
| WebhookContents.SpeaksOfExactly | src/github/github-webhooks.service.ts:319-336 | a delivery speaks of the first repository with its external id, and only when none has it of the first with its owner and name in any case |
| WebhookContents.StoredExactly | src/github/github-webhooks.service.ts:63-129 | a first delivery stores one row, with its event, the repository it speaks of and received or ignored; nothing else is stored or changed |
| Webhooks.GithubWebhooks.HandleBranchCreated | src/github/github-webhooks.service.ts:171-214 | a branch not yet linked joins the ticket its name carries, open, or nothing changes |
| WebhookContents.StripsRefsHeads | src/github/branch-reference.ts:19-22 | the full ref of a branch and its plain name designate one branch |
| WebhookContents.LinksExactly | src/github/github-webhooks.service.ts:171-214 | a pushed branch adds a row if and only if its name is free in the repository and carries a ticket's key; the row is the longest such key's ticket, open, made by github from the default branch, without a pull request |
| Webhooks.GithubWebhooks.HandleBranchDeleted | src/github/github-webhooks.service.ts:223-230 | row by row: an open row of this repository and name becomes deleted with nothing else of it changed, and every other row stays as it was |
| Webhooks.GithubWebhooks.HandlePullRequest | src/github/github-webhooks.service.ts:250-276 | the pull request fields of the named branch follow the event, and its state leaves open only on a merge |
| WebhookContents.PullRequestTells | src/github/github-webhooks.service.ts:250-276 | row by row and field by field: number, url or the old one, and merged, closed or open as the event says, on the row of the head branch alone; its state becomes merged exactly from open by a merge that closes now |
| WebhookRuns.EventEffect | src/github/github-webhooks.service.ts:138-276 | an event adds at most one open row under a free name; an existing row changes state only from open, to deleted or merged exactly as the event says |
| WebhookRuns.SlugIgnoresCase | src/github/github-webhooks.service.ts:328-335 | two spellings of a repository's name that differ only in case resolve alike |
| WebhookRuns.RepeatsAreHarmless | src/github/github-webhooks.service.ts:104-122 | any deliveries with any repetitions leave branches and journal exactly as the first occurrence of each id does |
| WebhookRuns.BranchesOutlive | src/github/work-item-branch.entity.ts:33-43 | over any deliveries rows stay unique, none disappears, and a branch leaves open at most once and never returns |
| WebhookRuns.CrossingRetriesAreSerial | src/github/github-webhooks.service.ts:104-122 | however workers interleave, crash or receive one delivery twice, the branches are those of a run that applies deliveries one after another, each id at most once |
| WebhookRuns.FirstOfferCounts | src/github/github-webhooks.service.ts:104-122 | what is stored and applied under an id is always its first offer |
| WebhookRuns.CrossingRunsOutlive | src/github/github-webhooks.service.ts:138-276 | along such a run, too, rows stay unique and a branch leaves open for good |
| StartWork.StartWorkService.StartWork | src/github/start-work.service.ts:184-266 | undisturbed, a call stores an open branch and moves the ticket on exactly when it is ready, one repository can be picked, GitHub answers and the name is free; the row holds the ticket, the chosen repository, name, base and maker field by field; otherwise, a choice that is not allowed included, nothing at all changes |
| StartWork.StartWorkService.OpenPullRequest | src/github/start-work.service.ts:279-346 | undisturbed, a call writes number, url and state of the pull request to the picked branch and moves the ticket to review from todo or in progress exactly when one can be opened; otherwise nothing changes |
| StartWork.PicksExactly | src/github/start-work.service.ts:353-371 | the branch asked for if and only if it is the ticket's; or else the ticket's only open branch, and none if there is none or more than one |
| StartWork.PicksRepository | src/github/start-work.service.ts:387-401 | a repository is taken if and only if it is the first allowed one of the id asked for, or with none asked for the only allowed one |
| StartWork.ReadyExactly | src/github/start-work.service.ts:115-165 | a ticket is ready, or held up by the first of its blockers in the source's order, each told on ticket, rows and repositories |
| StartWork.AdvancedTells | src/github/start-work.service.ts:237-326 | starting moves a ticket from triage, todo or blocked to in progress, opening a pull request from todo or in progress to review; from any other status neither moves it, and nothing else of it changes |
| StartWork.CanOpenExactly | src/github/start-work.service.ts:279-310 | a pull request can be opened if and only if a branch can be picked that has none open and whose repository is registered |
| StartWorkRuns.ProgressNeedsBranch | src/github/start-work.service.ts:184-266 | over every interleaving of steps, failures and webhooks no two rows share repository and name, no row disappears, and a ticket that came to be in progress was put there by a call that had itself stored its branch in an earlier step, a row which is there still |
| StartWorkRuns.NeverBackwards | src/github/start-work.service.ts:237-247 | with one call at a time for each ticket no interleaving moves a ticket back or changes anything else of it |
| StartWorkRuns.SaveNeedsFreeName | src/github/work-item-branch.entity.ts:43 | a branch is stored exactly when its name is free at that moment; otherwise the call ends with nothing changed |
| StartWorkRuns.WebhookWinsTheRace | src/github/start-work.service.ts:220-247 | when the webhook stores the branch first, the call fails, the status stays, and the ticket is not ready |
| StartWorkRuns.StartedWhileOpen | src/github/start-work.service.ts:128-133 | in every run a ticket is never ready while the branch of one of its rows is open |
| StartWorkRuns.TakenStaysTaken | src/github/work-item-branch.entity.ts:33-43 | a name once stored stays taken in every run: no later call under it stores a row or moves a ticket |
| StartWorkRuns.ClosedBranchLeavesReady | src/github/start-work.service.ts:128-133 | in any table, a branch that is no longer open leaves its ticket exactly as ready as without it, and its name taken |
| StartWorkRuns.StaleBranchIsWritten | src/github/start-work.service.ts:311-316 | saving a pull request writes the branch as it was read: its state survives exactly if it is still that one, and no other row changes |
| StartWorkRuns.ReopensExactly | src/github/start-work.service.ts:311-316 | in every run a branch that is no longer open is open again if and only if a call has since saved a pull request with the branch as it read it while open, and nothing has taken it off open after that save; no other step reopens a branch |
| StartWorkRuns.DeletedWhileOpening | src/github/start-work.service.ts:284-316 | a branch deleted while its pull request is being opened is open again afterwards |
| StartWorkRuns.TwoCallsMoveBack | src/github/start-work.service.ts:237-247 | two calls at once for one ticket can move it from review back to in progress |
| StartWorkRuns.SaveLowersExactly | src/github/start-work.service.ts:237-247 | saving a status moves a ticket back if and only if the call read it early enough to write and it is by now past what is written |
| StartWorkRuns.RaceIsReached | src/github/start-work.service.ts:205-248 | the race is reached from a table at rest: the ticket is left where it was, with an open branch and no call under way |
| StartWorkRuns.MoveBackIsReached | src/github/start-work.service.ts:237-247 | from rest two calls bring a ticket to review and back to in progress |
| StartWorkRuns.OrdinaryTicketRaces | src/github/start-work.service.ts:205-248 | the race and the move back are open to every ticket in todo that is technical and has a project and a key, with one repository and no branch yet, once its key is known |
| StartWorkRuns.ReopeningIsReached | src/github/start-work.service.ts:284-316 | from rest a branch deleted between the steps of opening its pull request is open in the end |
| Money.RoundIsNear | src/business/business.service.ts:114-129 | rounding is off by at most a half |
| Money.RoundIs | src/business/business.service.ts:114-129 | a rounded quotient is the nearest integer, and of two equally near the larger, and no other |
| Money.NormalizedTells | src/business/business.service.ts:114-129 | the stored lines are the given ones in their order, with position and rounded total |
| Money.DriftIsBounded | src/business/business-operations.service.ts:95-106 | line by line rounding drifts from the exact subtotal by at most half a unit a line |
| Invoices.InvoiceRecord.CreateInvoice | src/business/business.service.ts:383-440 | an invoice is created, or refused for the first reason in the source's order, with the status and date its payment implies |
| Invoices.InvoiceRecord.UpdateInvoice | src/business/business.service.ts:442-494 | checks, assignment, derived fields and lines come out as the update function says, and a refusal changes nothing |
| Invoices.InvoiceRecord.MarkPaid | src/business/business.service.ts:512-533 | marks the whole amount paid, at the date given or now, and mints the receipt, unless cancelled or receipted; nothing else changes |
| Invoices.InvoiceRecord.VoidReceipt | src/business/business.service.ts:536-545 | voids a receipt once and clears nothing |
| Invoices.CreatedIsHealthy | src/business/business.service.ts:383-440 | creation succeeds exactly when links, number, payment and totals hold, and yields a healthy invoice: paid at most the amount, amount = lines + rounded tax, paid date exactly when paid, status as paid |
| Invoices.CreatedTells | src/business/business.service.ts:383-440 | a created invoice field by field: what was sent or its default, lines with rounded totals, rounded tax, the status by what is paid or else the one asked for, dated when paid, no receipt |
| Invoices.UpdatedTells | src/business/business.service.ts:457-494 | an updated invoice field by field: given, kept or wiped by a null, with tax, status and date derived anew |
| Invoices.RefusedExactly | src/business/business.service.ts:442-475 | why an update is refused: frozen, links, number, overpaid, the first of these in this order |
| Invoices.UpdateStaysHealthy | src/business/business.service.ts:457-482 | a successful update keeps the invoice healthy if and only if, in terms of the patch and the stored fields, a null it sends for an amount does not wipe out money the others still account for |
| Invoices.LifeIsHealthy | src/business/business.service.ts:383-545 | an invoice is healthy after any run of updates, payments and voids that sends no null for an amount |
| Invoices.ReceiptFreezes | src/business/business.service.ts:495-503 | once a receipt is issued no run of operations, nulls included, changes amount, paid, tax, lines or receipt number, and for amounts above zero the invoice stays paid at its date |
| Invoices.PaidNeedsAmount | src/business/business.service.ts:553-557 | any update a receipted invoice accepts leaves it paid, and dated, if and only if its amount is above zero |
| Invoices.ZeroReceiptCanReopen | src/business/business.service.ts:553-557 | so a receipted invoice of amount zero can be sent back to draft, with no paid date |
| Invoices.NullWipesAmount | src/business/business.service.ts:457-482 | a null amount on a paid invoice passes the checks and leaves more paid than owed |
| Invoices.NullStatusNeedsPayment | src/business/business.service.ts:477-482 | a null sent for the status is refused where leaving it out is, and where nothing has been paid; otherwise it changes nothing |
| Quotes.QuoteRecord.UpdateQuote | src/business/business-operations.service.ts:151-196 | totals are computed anew from the patch's lines or the stored ones, and the lines replaced only by the patch's; a patch with broken links or a null status changes nothing |
| Quotes.CreatedTells | src/business/business-operations.service.ts:108-149 | a created quote field by field, its tax the rounded percentage of the sum of its lines |
| Quotes.UpdatedTells | src/business/business-operations.service.ts:151-196 | an updated quote field by field; its sums are those of its present lines at its present rate, and why it is refused |
| Quotes.QuoteRecord.ConvertQuote | src/business/business-operations.service.ts:198-221 | conversion stores an invoice of the quote's own total, tax and lines, unpaid, its rate in hundredths and its status the one asked for, exactly when the quote has a project, the invoice's links hold and there is a line or no tax; otherwise nothing changes. The quote is then accepted, unless the acceptance's own check fails: the invoice stays stored and the quote as it was |
| Quotes.ConversionAgrees | src/business/business-operations.service.ts:206-218 | the invoice's own total check always agrees with a consistent quote that has a line, percent against hundredths |
| Quotes.QuoteAlwaysConverts | src/business/business-operations.service.ts:108-221 | after any creation and updates, accepted or refused, a quote with a line converts into an invoice of exactly its tax, total and lines |
| Quotes.TaxesAgree | src/business/business.service.ts:126-129 | the two rounded taxes of quote and invoice are equal |
| CurrencyTotals.SumByCurrency | src/business/currency-totals.ts:11-18 | rows of one currency combine, rows of different ones never do, and only currencies of a row appear |
| CurrencyTotals.SumsSplit | src/business/currency-totals.ts:11-18 | the sums of two lists of rows are those of both together, and a row counts in its own currency alone |
| CurrencyTotals.AddByCurrency | src/business/currency-totals.ts:21-25 | totals are added currency by currency, one missing on a side counting as nothing |
| CurrencyTotals.NetByCurrency | src/business/currency-totals.ts:28-33 | totals are netted over the currencies of both sides |
| CurrencyTotals.NetUndoesAdd | src/business/currency-totals.ts:21-38 | netting undoes adding in every currency, and the clamped net is what one side exceeds the other by |
| Cashflow.MonthlyReport | src/business/business-operations.service.ts:426-490 | the loops over invoices, expenses, time and buckets report month by month what the entries bring; in every currency, and in the first months of the window as in all of them, inflow is the paid and outstanding parts of the live invoices, outflow the expenses not rejected and the rounded labour dated by then, net is inflow less outflow, and the last cumulative is the total net |
| Cashflow.Close | src/business/business-operations.service.ts:472-478 | a month's outflow includes its labour, its net is inflow less outflow, and its cumulative is the net of all months up to it |
| Cashflow.Conserved | src/business/business-operations.service.ts:472-488 | in every currency the totals are those of all entries up to the window's end, total net is inflow less outflow, the k-th cumulative is the net of the first months, and the last is the total net |
| Cashflow.EachEntryOnce | src/business/business-operations.service.ts:447-451 | every entry dated no later than the window is in exactly one month, an earlier one in the first, a later one in none; so in the first n months are the entries dated by the end of the n-th |
| Cashflow.InflowsAreExpected | src/business/business-operations.service.ts:455-463 | the inflow holds exactly the paid and the outstanding part of every live invoice, each once |
| Cashflow.OutflowsAreSpent | src/business/business-operations.service.ts:464-478 | the outflow holds exactly the expenses not rejected and the labour of the time entries, minutes × rate / 60 rounded half up, each once |
| NumberSequence.BusinessNumbers.NextBusinessNumber | src/business/business-number-sequence.ts:15-40 | undisturbed, both paths add one to the counter of the series and format the value they added |
| NumberSequence.NeverMintedTwice | src/business/business-number-sequence.ts:19-26 | no two atomic mints, of any series in any order, return one text |
| NumberSequence.MintedWithoutGaps | src/business/business-number-sequence.ts:19-26 | the values minted for a series are exactly 1, 2, … up to their count |
| NumberSequence.FormattedInjective | src/business/business-number-sequence.ts:39 | the text tells prefix, year and value, beyond 99999 and with hyphens in the prefix as well |
| NumberSequence.NumberReads | src/business/business-number-sequence.ts:39 | the text is prefix, year and value between hyphens, the value in five digits or as many as it has |
| NumberSequence.ReadsOwnNumber | src/business/business-number-sequence.ts:27-38 | a two-statement mint reads its own number exactly when no other mint of the series adds in between |
| NumberSequence.SameNumberTwice | src/business/business-number-sequence.ts:27-38 | two reads return one number exactly when nothing adds between them |
| NumberSequence.CrossingMints | src/business/business-number-sequence.ts:27-38 | two crossing two-statement mints are both given number 2, and nobody number 1 |
| AppRegistry.AppsProjection.HandleRegister | src/apps/apps.service.ts:386-428 | a registration puts the app online now, keeps its probe result, records its manifest unless its version is the newest, and keeps ten; no other app changes |
| AppRegistry.RegistrationRecords | src/apps/apps.service.ts:412-424 | a registration with a manifest and a new version adds it at the end of the history, and the oldest of eleven goes |
| AppRegistry.AppsProjection.HandleHeartbeat | src/apps/apps.service.ts:430-438 | a heartbeat of a registered app puts it online with the time it carries, or now |
| AppRegistry.AppsProjection.HandleDeregister | src/apps/apps.service.ts:440-447 | a departure puts the app offline |
| AppRegistry.AppsProjection.CheckAll | src/apps/apps.service.ts:449-462 | every app is judged once, its status alone changing: offline when it was, or heard of more than 180 s ago with no answer to its last probe; online when it was and heard of within 90 s; degraded else |
| AppRegistry.AppsProjection.ProbeOne | src/apps/apps.service.ts:330-342 | an answer is recorded on the entry its probe began with, and softens only an offline to degraded; an entry that a registration has replaced is no longer seen |
| AppRegistry.LateProbeIsLost | src/apps/apps.service.ts:304-342 | a probe answered after the app has registered again changes nothing |
| AppRegistry.OnlineExactly | src/apps/apps.service.ts:386-462 | over every run an app is shown online exactly when since its last sign of life it has neither left nor been found too old |
| AppRegistry.OfflineExactly | src/apps/apps.service.ts:330-462 | over every run an app is shown offline exactly when it has left, or a check found it last heard of more than 180 s ago with no answer to its last probe, and since then nothing was heard of it and no probe of its present entry answered |
| AppRegistry.OnlineIsRecent | src/apps/apps.service.ts:89-91 | checked every 60 s, an app shown online has registered or been heard of within the last 150 s, plus the skew its own last sign of life runs ahead, whatever the other apps send |
| AppRegistry.UnparsedStaysOnline | src/apps/apps.service.ts:449-462 | a heartbeat whose time does not parse keeps an app online through any number of checks |
| AppRegistry.FutureStaysOnline | src/apps/apps.service.ts:449-462 | one from the future keeps it online exactly until that future is 90 s old |
| AppRegistry.HistoryIsLastTen | src/apps/apps.service.ts:418-424 | the kept manifest history is the last ten of all recorded versions, of which no two in a row are equal |

## Left out

- HTTP controllers, validation decorators, guards, throttling, entity mappings and migrations; only the unique constraints they declare are kept.
- NATS, Keycloak, GitHub, mail and push clients: a call to them is a step that succeeds or fails, or a parameter.
- The signature check of webhooks: deliveries are taken as authenticated.
- The line patterns of the document parser, the section slugs and the shortening of story titles: lines come classified, and a hash is kept as the text it is taken of.
- The notes of an import about unknown projects and versions, its provenance and its traceability report.
- Unicode decomposition and the user-story preamble: `Slugify` starts from a title whose accents and preamble are gone and whose letters are lower case. Text lengths count characters, not UTF-16 units.
- Floating point: quantities and rates are exact hundredths, so the last-digit errors of products of decimal fractions are not modelled.
- Activity logs, creation and update times, URLs of branches, opportunities, and the look-ups of clients, projects and contracts, numbers and date order, which the business models take as given truth values.
- Saves of other handlers that cross each other: they are atomic here, as are a sample and its emission; only the calls to start work and to open a pull request are taken apart.
- One health ring set stands for each service; the maps from service to rings are left out, and so is the guard against an empty service name.
- `amountInWords`' capital letter and currency words, PDFs, dashboards, listings, CRM records and seed data: they would only add easy members.
- When several rows carry one source key, the order of the database decides which of them an import sees; here it is the one with the highest id.
- A health service without persistence, which emits nothing and hears nothing back.
- Import.ResolveDocumentProject: states which project is found and what kind of note is written, not its words.
- Incidents.IncidentFeed.Sample: models a sampler whose events are persisted; the wellness snapshot it also emits is left to the rings.
- Webhooks.GithubWebhooks.Receive: keeps event, repository and status of a delivery, not its raw payload; lower case is that of ASCII letters, which repository names are made of.
- StartWork.StartWorkService.StartWork: takes the repositories allowed for a ticket and GitHub's answer as parameters.
- Cashflow.MonthlyReport: says what each currency amounts to, not whether a currency with nothing is listed as zero or not listed.
