# Verified models of the build and release tooling

This project models the self-contained cores of the repository's build and release tooling and proves what
each of them is relied on for. Every claim below is about all inputs, all runs, or all reachable states.

| core | files | what is proved |
|---|---|---|
| Signature compatibility | `CallBinding`, `SignatureFindings`, `SignatureLaws`, `SignatureExact`, `SignatureOrder`, `SignatureComplete`, `SignatureCompat` | Python's binding of a call to a parameter list (Python Language Reference, section 6.3.4) is written out as a specification; the checker reports nothing exactly when every call the old list accepts still binds the same way, and whatever a call loses is reported by name or by slot |
| API dump | `JsonText`, `JsonShape`, `EncodedValues`, `EncodedLaws`, `EncodedForms`, `EncodedNormal`, `EncodedNames`, `ValueGrammar`, `FrozenMatching`, `DumpRecords`, `RecordGrammar`, `RecordLaws`, `DumpText`, `DumpLaws`, `DumpCanonical`, `DumpSearch`, `DumpStructure`, `DumpIndex` | JSON strings (RFC 8259, section 7) at any nesting, which values share an encoding and which encodings the check accepts, a record grammar that reads back, a canonical text that identifies a dump, and a loader that accepts exactly the well-structured record lists |
| Dump comparison and churn | `DumpCompare`, `CompareLaws`, `CompareSpec`, `ChangeExact`, `CompareExact`, `ChurnExact`, `DumpComparer`, `DumpGrowth` | over the records of two loaded dumps, exactly what changed is found; every finding names a site that can be looked up, churn is a percentage, adding records is reported exactly through new required inputs and through signatures that break themselves |
| Bed lease | `Processes`, `LeaseSpec`, `LeaseLaws`, `BedLease`, `LeaseRuns` | atomic locked sections interleaved with any behaviour of the machine: who may lose the bed, and when the reservations file may be wrong |
| Import re-pointing and site resolution | `Chains`, `FacadeSweep`, `FacadeLaws`, `FacadeExamples`, `FacadeLeftovers`, `StaticSites` | following finite tables that may be cyclic terminates and is path-independent; the rewritten imports, run in the order they are written, leave every local name bound to the same object exactly under a stated condition on the aliases |
| newc archives | `NewcArchive`, `CpioWriter` | a reader written from the initramfs buffer format's `cpio_header` field table recovers an archive the writer makes exactly when its fields fit and no name holds a NUL or is the trailer's |
| Markdown code blocks | `PageLines`, `PageLaws`, `DirectiveLaws`, `RstScan`, `RstLaws`, `MarkdownSpec`, `MarkdownLaws`, `MarkdownRoles`, `MarkdownBlocks` | the fence-stack walk finds exactly the blocks the lines' roles say; each page line is used as its role says, at most once |
| Gate selection | `GateScope`, `GateLaws`, `GateSpec`, `GateFields`, `GateExact`, `GatePaths`, `GateClassifier` | both columns hold exactly the lines the kept changes ask for; no test change escapes the commit column; the tip only grows with the diff |
| Evidence folds and stamps | `MatrixSpec`, `MatrixLaws`, `MatrixExact`, `MatrixVerdict`, `Collator`, `StampSpec`, `CoverageStamp`, `StampRuns`, `StampAlone` | collation is idempotent and order-free, writes `measured-ok` only with its evidence, and every field of a cell fits the records that count for it; a coverage stamp is trusted only when a gate run passed on that tree |

`Texts` holds the shared text, ordering and stable-sorting vocabulary, `Hexadecimal` the hexadecimal places
both the JSON escapes and the archive fields are written in. Operations the source performs step by
step are methods (on a class where the source keeps an object), each proved against a specification function
or predicate; what the source promises is then proved of the specification. Lemmas carry `{:induction false}`:
the body is the whole proof.

Where the code and its documentation differ, the code is followed:

- An encoded string does not determine its value: a high and a low surrogate standing next to each other encode
  like the one character they spell (`EncodedLaws.SplitPairCollides`). Two strings encode alike exactly when joining
  their pairs makes them equal, and a string shares its encoding with no other exactly when it splits no pair and
  holds no character above U+FFFF (`EncodedLaws.StringExact`). Of all values whose members' names hold no `=`, two
  share an encoding exactly when they agree after joining (`EncodedNormal.EncodeExact`).
- An enum member whose name is no identifier, which the functional enum API allows, may be encoded as a text the
  dump's own check refuses (`EncodedLaws.BlankNameRefused`). The check accepts exactly the encodings whose members
  are named by identifiers, each perhaps followed by `=` and the head of another enum's text, and so on
  (`EncodedNames.CheckExact`); a name that goes on like that collides with another value
  (`EncodedLaws.EqualsNameCollides`).
- A release that loses its race renders the record it re-read before its last locked section, not the record
  then on disk (`LeaseRuns.LostRaceMisreports`), and a run of the verbs gets there from a free cell
  (`LeaseRuns.LostRaceReached`). The file is right afterwards exactly when the two records render the same entry,
  that is, the same user and resources (`LeaseRuns.FinishAgrees`).
- Re-pointing does not always preserve meaning. It does exactly when the rewritten relative imports stay inside the
  file's top package and the alias written last for each local name is the object the statement left it bound to
  (`FacadeLaws.RewritePreserves`). It fails in three ways:
  - a type-checking block imports one name twice, once through a facade and once as the mirror of its own lazy
    table: the mirrored alias is neither kept nor moved (`FacadeExamples.MirroredAliasDropped`,
    `FacadeLaws.AliasLost`);
  - a statement binds one local name twice, as `from q import a, c as a` does: kept names are written before moved
    ones and moved ones in the order of their modules, so that another alias may come last
    (`FacadeExamples.LastBindingOvertaken`, `FacadeLaws.StaysLastPreserves`);
  - a relative import is re-pointed at a module outside the file's top package: its dots climb out of the tree
    (`FacadeSweep.SpellingInside`, `FacadeLaws.RunsExact`).
- An archive reads back exactly when its inodes and fields are below 2^32 and no member's name holds a NUL or is
  the trailer's (`NewcArchive.ArchiveExact`); a member named like the trailer ends the archive for a reader
  (`NewcArchive.TrailerNameTruncates`), and a larger field outgrows its slot (`NewcArchive.FieldReads`).
- Comparing a parameter list with itself is not always silent: it is exactly when each keyword-only parameter agrees
  with the last parameter of its name (`DumpGrowth.SignatureSelf`). A list `def` could write does
  (`DumpGrowth.WellFormedAgrees`), but a dump may hold others (`DumpGrowth.TwiceNamedBreaks`). So a dump compared
  with itself has no finding exactly when every signature compared is such a list (`DumpGrowth.SelfCompare`).
- A positional-only parameter can get another value with no finding that tells of its slot: it does exactly when it may
  be left out and the name now in its slot is one of the old list's keyword slots, whose own slot is then reported
  (`SignatureComplete.SilentSlotExact`, `SignatureComplete.BorrowedName`).
- A re-pointed name is left to re-point when its facades go in a circle (`FacadeLeftovers.LeftoverExact`).

## Model

| member | source | states |
|---|---|---|
| SignatureLaws.NoFindingSound | scripts/api_compat.py:38-106 | for lists `def` could define, no finding means every call the old list accepts is accepted and binds the same way: slots by position, the rest by name, omitted parameters to equal defaults, `*args` to the same arguments |
| SignatureLaws.FindingBreaks | scripts/api_compat.py:38-106 | any finding at all comes with a concrete call that the old list accepts and the new one rejects or binds differently |
| SignatureLaws.CheckerExact | scripts/api_compat.py:38-106 | no finding if and only if the lists are compatible |
| SignatureLaws.StarArgsLost | scripts/api_compat.py:49-51 | a removed `*args` breaks a call with more positional arguments than slots |
| SignatureLaws.KwargsLost | scripts/api_compat.py:49-51 | a removed `**kwargs` breaks a call passing a keyword no parameter of either list has |
| SignatureLaws.SlotFindingBreaks | scripts/api_compat.py:52-85 | every finding about a positional slot (removed, renamed, narrowed, default lost or changed, keyword moved into it) has a breaking call |
| SignatureLaws.StarArgsCaptured | scripts/api_compat.py:86-88 | a new slot in front of a kept `*args` captures an argument `*args` used to collect |
| SignatureLaws.KeywordFindingBreaks | scripts/api_compat.py:89-98 | every finding about a keyword-only parameter has a breaking call |
| SignatureLaws.RequiredFindingBreaks | scripts/api_compat.py:99-105 | every new required parameter has a breaking call |
| SignatureCompat.CompareParams | scripts/api_compat.py:38-106 | the report holds each finding exactly when its own condition on the two lists holds, once, pass by pass in order; it is empty exactly for compatible well-formed lists; and whatever any accepted call of such lists loses is in it by name or by slot |
| SignatureCompat.CompareSlots | scripts/api_compat.py:52-85 | the pass over the old slots says of each slot exactly what is to be said of it |
| SignatureCompat.CompareKeywords | scripts/api_compat.py:89-98 | the pass over the old keyword-only parameters says exactly what is to be said of each |
| SignatureCompat.CompareRequired | scripts/api_compat.py:99-105 | the passes over the new list name exactly the parameters without a default that an old call never had to give |
| SignatureExact.FindingExact | scripts/api_compat.py:38-106 | each finding is made if and only if its own condition holds: which slot or keyword, and what it became |
| SignatureComplete.CallAccounted | scripts/api_compat.py:38-106 | for every call the old of two well-formed lists accepts: each old parameter bound otherwise, each new one left empty, each keyword refused and each positional argument out of place has a finding with its name or slot |
| SignatureComplete.NamedSlotAccounted | scripts/api_compat.py:60-73 | an old positional-or-keyword parameter is bound as before, or a finding mentions it |
| SignatureComplete.KeywordAccounted | scripts/api_compat.py:89-98 | so is an old keyword-only parameter, though it moved into a slot a call reaches by position |
| SignatureComplete.SilentSlotExact | scripts/api_compat.py:74-85 | a positional-only parameter nothing is said of is bound otherwise by some call if and only if it may be left out and the name now in its slot is an old keyword slot's |
| SignatureComplete.BorrowedName | scripts/api_compat.py:74-85 | two concrete lists where the one finding does not tell of the positional-only slot that a call fills otherwise |
| SignatureOrder.FindingsInOrder | scripts/api_compat.py:38-106 | the findings come pass by pass, each along its list |
| JsonText.LiteralReads | scripts/api_records.py:131-136 | a written JSON string followed by anything reads back, with surrogate pairs joined, and leaves what followed |
| JsonText.LiteralExact | scripts/api_records.py:131-136 | two strings are written alike if and only if joining their surrogate pairs makes them equal |
| JsonText.ListReads | scripts/api_records.py:135-136 | a JSON list of strings reads back, whatever nested JSON its strings hold |
| EncodedNames.CheckExact | scripts/api_records.py:172-228 | an encoding of a value whose enums are declared passes the check, which includes holding no blank, if and only if every enum member inside is named by an identifier or `*`, or by one followed by `=` and the head of an enum's text with such a name |
| EncodedLaws.BlankNameRefused | scripts/api_records.py:172-228 | a concrete declared enum member, named `a b`, whose encoding the check refuses |
| EncodedLaws.EncodeInjective | scripts/api_records.py:148-194 | two tracked values that encode alike are equal, through tuples, frozensets and enums whose members' names hold no `=` |
| EncodedNormal.EncodeExact | scripts/api_records.py:148-194 | two values whose members' names hold no `=` encode alike if and only if they agree after joining surrogate pairs, a frozenset's elements counted as a multiset |
| EncodedLaws.EqualsNameCollides | scripts/api_records.py:172-194 | two concrete values with one encoding the check accepts: a member whose name goes on with `=` and an enum's text, and a shorter-named member whose value is that enum |
| EncodedLaws.SplitPairCollides | scripts/api_records.py:135-136 | a concrete pair of different strings with one encoding: a split surrogate pair |
| EncodedLaws.StringExact | scripts/api_records.py:148-169 | two strings encode alike if and only if they are equal once joined; no other string has a string's encoding if and only if it splits no pair and every character is below U+10000 |
| EncodedLaws.EnumReads | scripts/api_records.py:172-194 | an encoded enum value splits back into its classes, member and value |
| EncodedLaws.FrozenSetsMatch | scripts/api_records.py:235-264 | frozensets compare equal only if their elements can be matched one to one by equal values |
| EncodedLaws.MatchAllMatches | scripts/api_records.py:258-263 | the greedy pass yields such a matching when it succeeds |
| FrozenMatching.MatchElements | scripts/api_records.py:257-263 | the loop over unmatched elements succeeds exactly if every element has a partner when each takes, in turn, the first equal one no earlier one took |
| FrozenMatching.SetsEqual | scripts/api_records.py:251-264 | frozensets are equal if and only if they are one text, or as many elements and all matched so |
| EncodedLaws.EnumFreeTextEquality | scripts/api_records.py:235-264 | on enum-free values comparison is equality of the encoded texts |
| ValueGrammar.ValueExact | scripts/api_records.py:197-228 | a text passes the check if and only if it holds no blank and is one of the four words, a tagged integer, float, byte or string text, a tagged list of texts that pass, or an enum's classes, member and value |
| ValueGrammar.ClassSetExact | scripts/api_records.py:88 | a class set is one or more names in braces with commas between |
| EncodedForms.ScalarForms | scripts/api_records.py:148-169 | the text of each value that holds no other, `B:true` for true |
| EncodedForms.BytesForm | scripts/api_records.py:148-169 | bytes are two lower-case hexadecimal digits each, in order |
| EncodedForms.TupleForm | scripts/api_records.py:172-186 | a tuple is the list of its items' texts, in order |
| EncodedForms.SetForm | scripts/api_records.py:172-186 | a frozenset is the list of its elements' texts, sorted |
| EncodedForms.TuplesEqual | scripts/api_records.py:235-264 | tuples are equal item by item |
| EncodedForms.EnumsEqual | scripts/api_records.py:235-264 | enum members are equal if and only if they share a class, a name and a value |
| EncodedForms.PlainEqual | scripts/api_records.py:235-264 | texts of different kinds, and plain ones, are equal only if they are the same text |
| DumpRecords.ParamsRoundTrip | scripts/api_records.py:311-330 | parsing a rendered parameter list gives it back exactly when its names are names |
| DumpRecords.ParamsWritten | scripts/api_records.py:311-330 | every parameter field that parses is the text its parameters render to |
| DumpRecords.ParseParams | scripts/api_records.py:311-321 | the token loop reads what the token grammar says, or fails |
| RecordGrammar.GrammarExact | scripts/api_records.py:333-433 | a record is accepted if and only if it is put together from names, keys, values and lists as the grammar of its kind writes them |
| RecordGrammar.KeyExact | scripts/api_records.py:107-116 | a binding key is `otto` and further names with dots between, a colon, and names with dots between |
| RecordGrammar.ListExact | scripts/api_records.py:306-308 | a list field is `-` for no elements, else the elements with one space between |
| RecordGrammar.ParamsExact | scripts/api_records.py:311-330 | a parameter field parses if and only if it is the text of some parameters with names for names |
| RecordGrammar.ParamForm | scripts/api_records.py:324-330 | a parameter is its kind's two letters, its name and its default or `-`, with colons between |
| RecordLaws.RecordReads | scripts/api_records.py:410-433 | a record line parses back to its record exactly when the grammar accepts the record; it is one line |
| RecordLaws.RecordWrites | scripts/api_records.py:410-433 | a line that parses is the line its record renders to |
| RecordLaws.RecordClean | scripts/api_records.py:333-428 | no key or field of an accepted record holds a tab or a newline |
| RecordLaws.CallReads | scripts/api_records.py:436-446 | the call a record carries is the kind and the builtin or the parameters its own fields write |
| DumpLaws.DumpReads | scripts/api_records.py:461-544 | parsing a rendered dump gives its schema and its records in canonical order, or refuses exactly a negative schema or records the loader refuses |
| DumpLaws.RenderFixedPoint | scripts/api_records.py:461-464 | rendering a parsed canonical dump again changes nothing |
| DumpLaws.StructurePermutes | scripts/api_records.py:480-515 | whether a record list is accepted does not depend on its order |
| DumpLaws.SortedRecords | scripts/api_records.py:449-464 | canonical order is a rearrangement of the records |
| DumpCanonical.CanonicalExact | scripts/api_records.py:449-464 | two record lists render to the same text if and only if they hold the same records with each binding's enum members in the same order |
| DumpCanonical.KeyDetermines | scripts/api_records.py:299-303 | records with one sort key are the same record, unless they are enum members of one binding |
| DumpIndex.Loaded.Register | scripts/api_records.py:489-497 | the first pass succeeds exactly on distinct identities and files every record under its own, each binding with its kind and each format |
| DumpIndex.Loaded.IndexAll | scripts/api_records.py:498-511 | the second pass succeeds exactly when every record's binding is declared and may carry it |
| DumpIndex.Loaded.CheckRequired | scripts/api_records.py:512-515 | the last pass succeeds exactly when every binding has what its kind requires |
| DumpIndex.Loaded.Load | scripts/api_records.py:480-515 | loading succeeds exactly when nothing stands in the records twice, every record is of a binding that may carry it and every binding has what it must; the tables and indexes then find what a search of the records finds |
| DumpIndex.IndexFinds | scripts/api_records.py:504-531 | looking a member, input or enum member up in its index is finding it among the records |
| DumpIndex.FormatFinds | scripts/api_records.py:496-497 | looking a format up in its table is finding it among the records |
| DumpStructure.StructureExact | scripts/api_records.py:64-83 | a record list is well structured if and only if nothing stands in it twice, every record is of a binding of a kind that may carry it, and every binding has what its kind must carry, kind of record by kind of record |
| DumpStructure.RankExact | scripts/api_records.py:449-458 | records of one binding are ordered by their kinds |
| DumpComparer.CompareDumps | scripts/api_compat.py:247-274 | of two loaded dumps the comparison finds exactly what there is to report over their records; each finding is well placed |
| DumpComparer.CompareBinding | scripts/api_compat.py:256-272 | one binding: removed, of another kind, or exactly what changed in it |
| CompareExact.FindingsExact | scripts/api_compat.py:247-274 | a finding is made if and only if: an old binding, or an input, member, enum member or format of one that survives, has no newer record of its identity; a binding changed kind; the two records of one identity differ as the finding says; or a surviving binding has a required input with no older record |
| CompareExact.OfBindingExact | scripts/api_compat.py:256-272 | the same of one binding |
| ChangeExact.FactsExact | scripts/api_compat.py:109-244 | what is said of two records of one identity is exactly what changed between them |
| DumpComparer.CompareIndexed | scripts/api_compat.py:139-198 | the loops over old inputs, members and enum members gather their findings |
| CompareLaws.FindingsPlaced | scripts/api_compat.py:247-299 | every finding names an old site, or is a new required input of a binding that is an old site |
| CompareLaws.FindingSite | scripts/api_compat.py:302-308 | cutting a finding's text at its first `": "` gives back the site it is about, whatever its wording |
| CompareLaws.EntryUnmarked | scripts/api_compat.py:280-299 | no site of a parsed dump holds `": "` |
| CompareLaws.NamesCharged | scripts/interface_churn.py:98-117 | the lookup of a named site among old and new sites never fails |
| CompareLaws.ChurnBounded | scripts/interface_churn.py:47-117 | broken sites are old sites, so churn lies between 0 and 100 |
| ChurnExact.BrokenExact | scripts/interface_churn.py:98-117 | a site is broken if and only if a finding is about it, a required input was added to it at a new site, or its binding is gone |
| ChurnExact.SitesExact | scripts/api_compat.py:280-299 | the sites are those of the bindings, members, inputs and formats, each owned by the last record there |
| ChurnExact.ChurnShare | scripts/interface_churn.py:47-59 | churn is the broken sites in a hundred old ones, and 0 where there are none |
| DumpGrowth.GrowthFindings | scripts/api_compat.py:139-274 | when records are only added, the findings are exactly the required inputs the newer dump adds to old bindings, and what old signatures say against themselves |
| DumpGrowth.GrowthExact | scripts/api_compat.py:139-274 | nothing but added required inputs is found if and only if every old signature compared is silent against itself |
| DumpGrowth.SignatureSelf | scripts/api_compat.py:38-106 | a parameter list compares clean with itself if and only if the last parameter of each keyword-only parameter's name can be passed by keyword and keeps its default |
| DumpGrowth.WellFormedAgrees | scripts/api_compat.py:38-106 | every list `def` could write does |
| DumpGrowth.SelfCompare | scripts/api_compat.py:247-274 | a dump compared with a rearrangement of itself has no finding if and only if every signature compared is silent against itself |
| DumpGrowth.TwiceNamedBreaks | scripts/api_compat.py:89-98 | a concrete parameter list `def` could not write, naming one keyword twice, that comparing with itself finds broken |
| DumpGrowth.CallExact | scripts/api_compat.py:109-119 | two calls compare clean exactly when kind and constructor agree and every old call binds the same |
| BedLease.Cell.TryAcquire | scripts/bed_lease.py:448-511 | one acquire under the lock: the outcome its conditions on the process table call for, and what it leaves in both files: a record made for the caller, the run's own with its group added, or the same |
| BedLease.Cell.BeginRelease | scripts/bed_lease.py:553-576 | a release's first section: only force ends a lease here; it goes on to drain exactly for the live holder, having written nothing; otherwise the two files agree afterwards |
| BedLease.Cell.DrainedRun | scripts/bed_lease.py:359-373 | the re-read after a drain: it fails on a malformed record, gives the record on disk and forgets nobody who was left; if it counts nobody of groups the same run grew by, whoever runs in any of them is the asking process, its ancestor or a sibling |
| BedLease.Cell.FinishRelease | scripts/bed_lease.py:578-593 | the last section frees the cell exactly when the record is still this run's, unchanged since the re-read, and nobody is left; otherwise the record stays, and a lost race renders the record read before |
| BedLease.Cell.Status | scripts/bed_lease.py:596-616 | a status renders the reservations of the record it reads |
| LeaseRuns.StepKeepsLease | scripts/bed_lease.py:468-593 | one step ends a lease only by taking over a dead run, by force, or by finishing an empty release |
| LeaseRuns.LeaseSafety | scripts/bed_lease.py:468-593 | in every run, a lease that is gone was lost at some step for one of those reasons |
| LeaseRuns.StepJustified | scripts/bed_lease.py:343-373 | a lease ends only because nobody of its run runs, by force, or by a release its running holder began, with an instant after that when whoever ran in any group of the removed record was the releasing process, its ancestor or a sibling |
| LeaseRuns.ReleaseHistory | scripts/bed_lease.py:545-593 | what a release in flight knows: its running holder began it, it has been in flight since, and if it counts nobody left, at an instant in between only excused processes ran in the record's groups |
| LeaseRuns.LiveHolderKeeps | scripts/bed_lease.py:283-306 | a holder that stays alive, of which no release is in flight or begun, and whom nobody evicts keeps the bed, and its groups only grow, whatever it did before and whatever releases of other runs do meanwhile |
| LeaseRuns.LiveGroupKeeps | scripts/bed_lease.py:283-306 | so does a run with a recorded group that has a running member, though its holder is dead |
| LeaseRuns.LeftBehindKeeps | scripts/bed_lease.py:309-373 | a process in a recorded group that is neither the asking process, nor its ancestor, nor a sibling keeps the bed through every release that is not forced |
| LeaseLaws.SurvivorsExact | scripts/bed_lease.py:309-340 | the survivors are exactly the running members of the recorded groups that nothing excuses |
| LeaseLaws.SiblingExact | scripts/bed_lease.py:325-339 | a sibling has the holder's own parent, which is not process 1, is not below the holder, and started within the window |
| LeaseLaws.AncestorsExact | scripts/bed_lease.py:304-306 | the ancestors are exactly the processes reached from parent to parent |
| LeaseLaws.DeadExact | scripts/bed_lease.py:293-306 | a run is dead if and only if neither its holder nor anyone in a group it registered runs |
| LeaseLaws.AttemptExact | scripts/bed_lease.py:448-511 | each outcome of an acquire comes about exactly under its condition |
| LeaseRuns.GroupsDistinct | scripts/bed_lease.py:485-490 | a record's groups are distinct in every reachable state |
| LeaseRuns.ExpiryNeverDecides | scripts/bed_lease.py:468-511 | neither the clock nor the expiry changes what an acquire decides |
| LeaseRuns.FinishAgrees | scripts/bed_lease.py:577-593 | the file a release leaves agrees with the record, after a lost race exactly when what it re-read and what is on disk render the same user and resources |
| LeaseRuns.LostRaceMisreports | scripts/bed_lease.py:577-582 | a lost race leaves a reservations file naming the run that lost the bed |
| LeaseRuns.LostRaceReached | scripts/bed_lease.py:468-593 | a concrete run of seven steps from a free cell (acquire, begin, drain, re-read, forced release, another user's acquire, finish) that ends so |
| LeaseRuns.StepAgrees | scripts/bed_lease.py:248-258 | an acquire that does not fail, a status and a release that does not drain restore agreement between the files; every step but a lost race keeps it |
| LeaseRuns.StaysReadable | scripts/bed_lease.py:233-245 | a readable record never becomes unreadable |
| LeaseRuns.StaleOnlyAfterLostRace | scripts/bed_lease.py:577-604 | a file that once agreed is wrong later only after a lost race with no rendering verb since |
| FacadeSweep.Owner | scripts/facade_sweep.py:172-184 | the loop terminates on any tables and stops where the specification says |
| FacadeSweep.OwnerEnds | scripts/facade_sweep.py:172-184 | the owner is the end of the chain of facades, or lies on a chain that never ends |
| FacadeSweep.FindSites | scripts/facade_sweep.py:282-310 | the finder reports exactly the names that go through a facade, each with its owner, but those that repeat an entry of the file's own table for type checkers |
| FacadeSweep.GroupSites | scripts/facade_sweep.py:366-368 | the grouping loop gives each defining module its aliases in order, the modules in the order first met |
| FacadeSweep.RewriteStatement | scripts/facade_sweep.py:363-377 | the written statements in order: the kept names, if any, then one import per defining module, by module |
| FacadeSweep.SortedOwnersSorted | scripts/facade_sweep.py:373-376 | the moved imports name each defining module once, in strictly increasing order |
| FacadeSweep.SpellingResolves | scripts/facade_sweep.py:255-260 | a spelled module, absolute or relative, reads back and resolves to that module |
| FacadeSweep.SpellingInside | scripts/facade_sweep.py:347-356 | a relative spelling climbs no higher than the file's top package exactly when the two share it |
| FacadeLaws.RewritePreserves | scripts/facade_sweep.py:363-377 | the rewritten statements, run in order with the last binding of a name winning, leave every local name bound to the same object if and only if they stay inside the file's top package and the alias written last for each local name is the object of the alias that was last; through circular facades too |
| FacadeLaws.StaysLastPreserves | scripts/facade_sweep.py:363-377 | it is enough that the last alias of each local name is still the one written last; where the aliases are different objects, it is needed |
| FacadeLaws.DistinctPreserves | scripts/facade_sweep.py:363-377 | a statement that binds no local name twice keeps its meaning exactly when it stays inside and no alias is lost |
| FacadeLaws.RunsExact | scripts/facade_sweep.py:347-376 | the rewritten statements all run exactly when every module a relative one is re-pointed at shares the file's top package |
| FacadeLaws.AfterLatest | scripts/facade_sweep.py:363-377 | what a local name is bound to after the rewrite: the alias written last by group and position, or nothing if all its aliases are lost |
| FacadeExamples.MirroredAliasDropped | scripts/facade_sweep.py:282-310 | a concrete statement one of whose local names the rewrite leaves unbound |
| FacadeExamples.LastBindingOvertaken | scripts/facade_sweep.py:363-377 | at `from q import a, c as a` no alias is lost, and the rewrite leaves the local `a` bound to another object |
| FacadeLaws.AliasLost | scripts/facade_sweep.py:365-369 | the rewrite leaves a local name unbound exactly when each of its aliases is no site but has a name that is one under another alias |
| FacadeLeftovers.LeftoverExact | scripts/facade_sweep.py:172-184 | a re-pointed name still goes through a facade exactly when its chain never ends |
| FacadeLeftovers.NothingLeft | scripts/facade_sweep.py:287-328 | without circles the finder finds nothing in what replaced a statement |
| StaticSites.Resolver.Site | scripts/api_agreement.py:292-317 | site resolution terminates on any finite tables and gives the answer at the end of the re-exports, or none |
| StaticSites.Resolver.Turn | scripts/api_agreement.py:296-316 | one turn of the loop, eager bindings before lazy ones |
| StaticSites.StepExact | scripts/api_agreement.py:296-316 | per kind of binding what a turn answers: a name imported from a file of the tree is followed, one imported from elsewhere or defined here is its own site, an unbound name is a submodule's if that file exists |
| StaticSites.Resolver.Bindings | scripts/api_agreement.py:319-322 | the cache holds what a scan finds |
| StaticSites.PathIndependent | scripts/api_agreement.py:292-317 | an export has the site of the export it re-exports |
| StaticSites.SiteExact | scripts/api_agreement.py:292-317 | no site for an export that leads into a cycle; any other gets the answer its last re-export gives |
| Chains.NoEndCycles | scripts/api_agreement.py:294-317 | a chain through a finite table that never ends meets one of its own links again |
| Chains.CycleNeverEnds | scripts/api_agreement.py:294-317 | and one that meets its own link again never ends |
| NewcArchive.ArchiveExact | scripts/build_busybox_guest_images.py:156-192 | an archive of ASCII-named members reads back (names, modes, data, device numbers and inodes 1..n, in order) if and only if its inodes and every field fit in 32 bits and no member's name holds a NUL or is the trailer's |
| NewcArchive.ArchiveReads | scripts/build_busybox_guest_images.py:156-192 | one half of it: such an archive reads back member by member, and then the trailer ends it |
| NewcArchive.MembersRecoverable | scripts/build_busybox_guest_images.py:156-174 | the other: whatever bytes it is given, a reader recovers only 32-bit fields and names without a NUL that are not the trailer's |
| NewcArchive.BlockReads | scripts/build_busybox_guest_images.py:156-192 | one written member reads back, in exactly the bytes it takes |
| NewcArchive.MembersAligned | scripts/build_busybox_guest_images.py:177-192 | each member's header and data start on a 4-byte boundary |
| NewcArchive.FieldReads | scripts/build_busybox_guest_images.py:156-174 | a field below 2^32 takes eight digits and reads back; a larger one outgrows its slot |
| NewcArchive.FieldDigits | scripts/build_busybox_guest_images.py:156-174 | a field that fits is its eight upper-case hexadecimal digits, the highest first |
| NewcArchive.HeaderLayout | scripts/build_busybox_guest_images.py:156-174 | a header is the characters `070701`, the thirteen fields in the format's order at their offsets, the name and a NUL |
| NewcArchive.ArchiveEnds | scripts/build_busybox_guest_images.py:182-192 | an archive ends with the trailer the format names, with inode 0 |
| NewcArchive.TrailerNameTruncates | scripts/build_busybox_guest_images.py:182-192 | a member named like the trailer hides itself and every later member from a reader |
| NewcArchive.NameReads | scripts/build_busybox_guest_images.py:156-174 | a name reads back whole exactly when it holds no NUL |
| CpioWriter.CpioNewc | scripts/build_busybox_guest_images.py:182-192 | the writer's buffer ends as the archive's bytes, or it fails on a name that is not ASCII |
| CpioWriter.Buffer.Pad4 | scripts/build_busybox_guest_images.py:177-179 | padding appends zeros up to the next boundary |
| RstScan.Scan | scripts/api_docs_blocks.py:339-371 | the scan's loop finds the blocks of the specification |
| RstScan.ReadIndented | scripts/api_docs_blocks.py:314-336 | the loops over an announced block read its lines and stop after it |
| RstScan.ScanUsesLines | scripts/api_docs_blocks.py:339-371 | the scan uses no line more often than its input has it |
| RstScan.ScanOrdered | scripts/api_docs_blocks.py:339-371 | each block it finds is non-empty, strictly increasing and made of input lines |
| RstLaws.BlocksShaped | scripts/api_docs_blocks.py:314-371 | every block is a doctest from its prompt to the next blank line, or an announced body indented more than its opener, up to the first line with text that is indented less |
| RstLaws.BlockExact | scripts/api_docs_blocks.py:314-336 | an announced block is there exactly when the next line with text is indented more than its opener |
| MarkdownBlocks.FindBlocks | scripts/api_docs_blocks.py:223-296 | the walk terminates and returns exactly the blocks that begin at the page's lines, sorted by first line, each strictly increasing page lines, each page line used as its role says |
| MarkdownBlocks.ReadRun | scripts/api_docs_blocks.py:283-291 | the inner loop takes the whole indented run and nothing after it |
| MarkdownBlocks.CloseAll | scripts/api_docs_blocks.py:294-295 | fences still open at the end run to the end of the page |
| MarkdownLaws.InnermostLiteral | scripts/api_docs_blocks.py:175-210 | only the innermost open frame is ever literal |
| MarkdownLaws.SuppressedExact | scripts/api_docs_blocks.py:193-220 | a frame is suppressed exactly when it, or a fence around it, displays Markdown |
| MarkdownLaws.UsesExact | scripts/api_docs_blocks.py:223-296 | a line that opens or closes a fence, or lies under a display fence, is in no block; any other claimed line is in exactly one, or at most one if its block is re-scanned as RST |
| MarkdownLaws.PageBlocks | scripts/api_docs_blocks.py:223-296 | the same of any ordering of the page's blocks |
| MarkdownSpec.StackHolds | scripts/api_docs_blocks.py:258-281 | everything open was opened by an earlier line, in order |
| MarkdownSpec.SortBlocksSorts | scripts/api_docs_blocks.py:296-296 | the result is a rearrangement in order of first lines, and blocks with one first line keep their order |
| MarkdownRoles.RoleExact | scripts/api_docs_blocks.py:250-291 | a line closes, opens, fills or goes on exactly under its own condition on the line, the innermost open fence and the run before it |
| MarkdownRoles.OpenExact | scripts/api_docs_blocks.py:193-220 | the open fences are, depth by depth, those opened there and not gone back from since |
| MarkdownRoles.FrameExact | scripts/api_docs_blocks.py:193-210 | what an opened fence holds is read off its own line and the fence around it |
| MarkdownRoles.RunExact | scripts/api_docs_blocks.py:283-293 | which indented run is open after a line, and whether one may begin |
| MarkdownRoles.ContributionExact | scripts/api_docs_blocks.py:231-293 | the blocks that begin at a line: a fence's own claimed lines, or those the RST in it gives, or an indented run's, and none if the fence is suppressed |
| PageLaws.FenceExact | scripts/api_docs_blocks.py:133-139 | a line is a fence exactly if it is white space, three or more of one mark and an info string |
| PageLaws.ClosesExact | scripts/api_docs_blocks.py:142-148 | a closing fence is at least as many of the same mark between white space |
| PageLaws.IndentExact | scripts/api_docs_blocks.py:129-130 | a line's indentation is the spaces before its first other character |
| DirectiveLaws.LangExact | scripts/api_docs_blocks.py:151-168 | what a fence holds: a colon fence without a directive is a division, `{code-block}` is its second word, anything else is its first |
| DirectiveLaws.LiteralExact | scripts/api_docs_blocks.py:175-190 | a fence is literal exactly if it is no division, no Markdown display and no directive but one of code |
| DirectiveLaws.DirectiveReads | scripts/api_docs_blocks.py:299-311 | a directive line, with white space wherever it may stand, opens the block its name and argument say |
| DirectiveLaws.AnnouncesExact | scripts/api_docs_blocks.py:299-371 | any other line announces a block exactly if it ends in two colons |
| DirectiveLaws.DoctestExact | scripts/api_docs_blocks.py:355-357 | a prompt is `>>>` after white space and nothing else |
| GateLaws.NothingEscapes | scripts/gate_scope.py:1315-1423 | every kept test change is run by the commit column: its lane's lines, and the full gate or else the guards for a guard and, for what no lane runs, quick over a root the change lies under that holds a module quick selects from; a module its lane leaves partly to quick included |
| GateLaws.MeasuredRuns | scripts/gate_scope.py:1247-1264 | a change to a measured matrix runs every surviving reader, as a guard or by quick, or the full gate; without a surviving reader, the full gate |
| GateLaws.TipMonotone | scripts/gate_scope.py:1486-1518 | adding changed paths never removes a line from the tip |
| GateExact.TipExact | scripts/gate_scope.py:1288-1518 | a line is in the tip if and only if it is the live one, or some kept change asks for it: the static lines for a Python path or class; the bed half for a source, escalating or unknown path, a bed script, a bed-half test or a reason for the full gate; a bed lane; a special tip line of bed goals |
| GateExact.CommitExact | scripts/gate_scope.py:1315-1518 | the commit column likewise: the full gate or the lines its changes ask for, docs, web and lane lines either way, and quick over exactly the outermost roots they ask for |
| GateExact.FullGateExact | scripts/gate_scope.py:1267-1423 | the commit column is the full gate if and only if a kept change escalates, has no row or a reason, or more than two packages changed |
| GateFields.FullExact | scripts/gate_scope.py:1215-1423 | a kept change gives a reason for the full gate if and only if it has no row, a full lane, a path with no root to run, a matrix without readers, or no surviving test tree |
| GatePaths.RunnableExact | scripts/gate_scope.py:1106-1128 | quick can run a root exactly when it selects a test from a module at it or under it |
| GatePaths.FirstPartsExact | scripts/gate_scope.py:1088-1138 | the first parts of a path are what stands before its n-th slash |
| GateLaws.QuickPaths | scripts/gate_scope.py:1343-1423 | every quick path holds a test module quick selects from, none lies within another, and together they cover every collected root |
| GateLaws.SourceCovered | scripts/gate_scope.py:1385-1401 | a change in a known source package runs quick over every test tree of it that holds a module quick selects from, or the full gate |
| GateLaws.SurvivingWithin | scripts/gate_scope.py:1131-1138 | a surviving root holds the path and a module quick selects from |
| GateLaws.ReachGrows | scripts/gate_scope.py:1288-1312 | both reaches of the tip grow with the collected changes, though classes may be replaced |
| GateLaws.CommitHolds | scripts/gate_scope.py:1454-1483 | which lines the commit column holds: the full gate with the bed lanes, and the guards for a build file, or quick, guards and lint for the classes; docs, web and lane lines in each case |
| GateLaws.PythonChecked | scripts/gate_scope.py:1470-1473 | short of the full gate, each changed Python file still present is linted, and each source or script type-checked |
| GateClassifier.ClassifyChanges | scripts/gate_scope.py:1315-1423 | the loop over the changes computes the scope |
| GateClassifier.RouteChange | scripts/gate_scope.py:1350-1401 | one turn of it adds what the change's path, class and lanes add |
| GateClassifier.RouteReaders | scripts/gate_scope.py:1247-1264 | a measured matrix goes to its surviving readers |
| GateClassifier.DropNested | scripts/gate_scope.py:1237-1239 | dropping nested roots leaves the outermost |
| Collator.Bucket | scripts/collate_support_matrix.py:226-280 | every record is kept or dropped under the first reason that fits |
| Collator.EveryRecordOnce | scripts/collate_support_matrix.py:226-280 | bucketing loses nothing and files nothing twice |
| Collator.Group | scripts/collate_support_matrix.py:302-316 | the kept records by cell and kind |
| Collator.ReadControls | scripts/collate_support_matrix.py:459-501 | the passed controls by label, or a refusal on another surface's control |
| Collator.Collate | scripts/collate_support_matrix.py:630-652 | the matrix after a collation, and which cells changed, were confirmed or were refused; every cell fits the records that count for it, field by field |
| MatrixLaws.CollateIdempotent | scripts/collate_support_matrix.py:630-652 | collating the same records again changes nothing |
| MatrixLaws.CollateOrderFree | scripts/collate_support_matrix.py:302-316 | the order of the records does not matter, given distinct labels per cell and kind |
| MatrixLaws.Untouched | scripts/collate_support_matrix.py:630-652 | a cell with no kept record, or whose evidence is refused, is left as it was |
| MatrixLaws.OkExact | scripts/collate_support_matrix.py:525-627 | a verdict is `measured-ok` if and only if every observation passed beside a passed control on its own label, each declared an observable, and no observed element is also excluded |
| MatrixLaws.OkNeedsEvidence | scripts/collate_support_matrix.py:630-652 | after a collation a cell is `measured-ok` only if it was already, or its evidence backs it |
| MatrixLaws.RoutesCite | scripts/collate_support_matrix.py:504-522 | every published route comes from an observation, and one that passed cites a control that passed on it |
| MatrixLaws.PassedExact | scripts/collate_support_matrix.py:459-501 | which labels have a passed control, and when the controls are refused |
| MatrixVerdict.CollatedFits | scripts/collate_support_matrix.py:302-652 | a cell stays as it was without evidence or where it must be refused; else it holds what the counting records of its place say |
| MatrixVerdict.CellExact | scripts/collate_support_matrix.py:525-627 | a written cell: observed elements in profile order, the contract, the latest date, one route per observation, exclusions by first record, the control of the least label where every label has one, the observables, and a line for every observation that did not pass |
| MatrixVerdict.RefusedExact | scripts/collate_support_matrix.py:525-627 | no cell is written if and only if nothing speaks of the host, an element is both observed and excluded, another surface's control passed, a pass has no control, or an observable is missing |
| MatrixExact.DroppedExact | scripts/collate_support_matrix.py:226-280 | a record is dropped for the first reason that objects to it, and kept if none does |
| MatrixExact.EvidenceExact | scripts/collate_support_matrix.py:302-316 | a cell's evidence of a kind is the bed's records of it, by label |
| StampSpec.VerdictExact | scripts/coverage_stamp.py:361-430 | `check` answers 2 exactly where the checkout is not clean, else 0 for a readable stamp that speaks for it, else 1 |
| StampSpec.RefusalsExact | scripts/coverage_stamp.py:188-205 | nothing is refused exactly on a clean checkout: no tracked file modified, no importable file missing from the commit, nothing overridden, the primary interpreter |
| StampSpec.RefusalMade | scripts/coverage_stamp.py:188-205 | each refusal is made exactly under its own condition |
| StampSpec.UnderRootExact | scripts/coverage_stamp.py:188-205 | an importable file lies under `src` or a test root, however many slashes it is written with |
| StampSpec.LegsWithin | scripts/coverage_stamp.py:279-300 | the legs' seconds add up to the time of the last mark plus whatever the clock stepped back between marks, and to exactly that time if and only if the marks come in order |
| StampSpec.MajorMinorExact | scripts/coverage_stamp.py:183-185 | of a dotted version the first two numbers, or the one there is |
| CoverageStamp.Store.Drop | scripts/coverage_stamp.py:212-218 | `start` first drops its tree's stamp |
| CoverageStamp.Store.Begin | scripts/coverage_stamp.py:219-240 | then records what it sees and what it refuses |
| CoverageStamp.Store.MarkLeg | scripts/coverage_stamp.py:259-276 | a mark is added to a readable record and changes nothing else |
| CoverageStamp.Store.Take | scripts/coverage_stamp.py:303-316 | `finish` takes the record away |
| CoverageStamp.Store.Settle | scripts/coverage_stamp.py:317-358 | and stamps the tree exactly when nothing was refused and nothing changed |
| CoverageStamp.Store.Check | scripts/coverage_stamp.py:361-430 | the exit status, building up every problem: 2 on an unclean checkout, 0 exactly when it is clean and its tree's stamp speaks for it, else 1 |
| CoverageStamp.Store.Timing | scripts/coverage_stamp.py:285-300 | the seconds of each leg, in run order |
| StampAlone.StartAlone | scripts/coverage_stamp.py:208-240 | taken part by part with nothing in between, a `start` leaves the tree without its stamp and the checkout with a record of what it saw and refused, and changes nothing else |
| StampAlone.LegAlone | scripts/coverage_stamp.py:259-276 | so taken, a `mark` leaves one more mark in a record that reads |
| StampAlone.FinishAlone | scripts/coverage_stamp.py:303-358 | so taken, a `finish` leaves no record, and a stamp exactly if nothing was refused and nothing changed; without a record that reads it leaves all as it was |
| StampAlone.CheckAlone | scripts/coverage_stamp.py:361-430 | so taken, a `check` answers from the whole checkout and the tree's stamp file as they are, and leaves all as it was |
| StampRuns.CheckTrustsOnlyPassedRuns | scripts/coverage_stamp.py:208-430 | in every interleaving, edits between an operation's own reads and marks that write back an older record included, a 0 means a gate run passed on the tree `check` saw, with the interpreter, assets and gate it saw, and no start on that tree between that run's finish and `check`'s reading of the stamp |
| StampRuns.FlightHistory | scripts/coverage_stamp.py:208-430 | whatever an operation has seen of its checkout was so at a step of its own, and the record and the stamp it read are those then on disk |
| StampRuns.PassedSawTheSame | scripts/coverage_stamp.py:303-358 | what a passed run's start and finish saw is the same tree, dirt, interpreter and assets, with nothing refused |
| StampRuns.StartDropsStamp | scripts/coverage_stamp.py:212-218 | no stamp older than the latest start on its tree survives |
| StampRuns.AllGrounded | scripts/coverage_stamp.py:212-358 | every record comes from a start and every stamp from a finish of one |

## Left out

- EncodedNormal.EncodeExact: member names that hold an `=` are left out, because such a text has more than one reading.
- EncodedLaws.EncodeInjective: floats are not modelled, because NaN values collapse by design, and untracked values all share one encoding, by design too; an enum value carries the class set it is declared under, so the lookup of undeclared enums is not modelled.
- EncodedLaws.FrozenSetsMatch: no converse, because the source's matching is greedy and can miss a matching that exists; `FrozenMatching.SetsEqual` gives the exact condition.
- DumpComparer.CompareDumps: the findings are a set, so that their order in the report is not modelled.
- DumpComparer.CompareBinding: likewise a set of findings.
- DumpComparer.CompareIndexed: likewise a set of findings.
- FacadeLaws.RewritePreserves: two names whose facades go in circles count as the same missing object; an import binds names and does nothing else; that importing a module runs its code, or fails because it is missing, is not modelled, nor is a star import, which is never re-pointed.
- StampRuns.CheckTrustsOnlyPassedRuns: a tree, a dirt, an interpreter, a set of test roots and a set of assets are each seen in one step, in the order the source reads them, and the interpreter once; an edit undone between two reads goes unseen, as in the source. Whether the legs between start and finish passed is make's doing and is assumed; stamp files may be lost or damaged at any step, but nothing else writes them.
- GateLaws.TipMonotone: paths changed twice in one list contribute under each status, because a diff names each path once.
- MatrixLaws.CollateOrderFree: asks for distinct labels among the records of one cell and kind, because equal labels keep their input order.
- Names: `isidentifier` and `\w` are taken to accept every non-ASCII character that is not space.
- Lists of strings read back as JSON hold no raw lone surrogate; an encoding never does.
- Message wording: a finding, a refusal and a problem are constructors, and the order in which a comparison, a gate column or a report lists its lines is not modelled; signature findings keep their order.
- Locks, the clock, polling and printing: a locked section is one step, an acquire that waits is repeated acquires, and everything a machine may do between two steps is an arbitrary step.
- The pipeline-sibling rule's clock tick is fixed at 100 per second.
- Python syntax trees, regular expressions and path tables: what they decide (a class, a lane row, a mark, the test modules at head and whether quick selects from one, a matrix's surviving readers) is a parameter of the gate model; attribute reads of a facade and the splicing of source lines are not modelled.
- `_ModuleScan` and `agreement_failures` in the agreement check, docstring and `literalinclude` scans of the documentation check, and the rendering of reports.
- JUnit snapshots, CPU counts and file paths in stamps and lease records.
- Runtime introspection, child processes, git, network and command lines.
