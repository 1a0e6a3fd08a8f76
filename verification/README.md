# Rentemester verification

A Dafny 4.11 model of the algorithms in Rentemester that decide something on their own: what a
mistyped flag is compared with, what a command line means, which bank lines an unattended agent may
book or settle, what a catalogue hash identifies, when the published workflows agree with the live
surfaces, who may run a mutating command, where one message of a stream ends, what a refresh of the
legal sources leaves behind, and which dates a release approval may carry.

`dafny verify dfyconfig.toml` checks everything. No step reads a file, a clock or the network: those
are parameters.

## What is modelled

**Flag suggestions** (`EditDistance`, `FlagValidation`). The table filled by `levenshtein` is an
`array2` filled in place. It is proved to hold the price of the cheapest list of edits from one string
to the other, that price is proved to be a metric, and the hint of every unknown flag is the first
nearest allowed flag, shown exactly when that is at most three edits away.

**Command lines** (`CliArgs`). The token loop is proved against a grammar of items with a printer.
Reading and printing undo each other on all token lists, so every command line has exactly one meaning;
the trap of a boolean flag that swallows the next plain token, but not an empty one, is an item of its
own. What a reading means is stated item by item: its plain tokens, the last value of each flag, and
its errors in order.

**The agent run** (`PayableMatching`, `CreditorNames`, `AgentBooks`, `PayableSettlement`,
`SettlementMeaning`, `SupplierRules`, `ExpenseBooking`, `BookingMeaning`, `AgentRun`). The ledger and
the run's report are classes that the phases change in place. The loops search a shrinking list and are
proved against declarative statements about the state before the run: which payable is settled by which
bank line, and which row books which document. The lemmas about whole runs start from what those
methods ensure for every valid ledger. From these follow independence of the whole run from every
order, that a second run books and settles nothing, conservation of money, that a bank line is never
used twice, and that every booked expense obeys the rules. `SettlementMeaning` and `BookingMeaning` say
the same in terms of the texts, amounts and suggestions alone: who is settled, booked or surfaced, and
what the report says of it. Amounts are øre, confidences hundredths. A bank line is reconciled when the
view `bank_journal_reconciliations` lists it, which it does for posted entries only.

**Discovery coverage** (`CanonicalJson`, `Coverage`, `CoverageDefects`, `CoverageReport`,
`CoverageBindings`, `CoverageHash`). The canonical text is read back by a JSON reader as its value with
the keys of every object in order, so it is injective up to their order at every depth. The
accumulating validator is proved to report every defect of the catalogue and nothing else, and so to be
silent exactly without defects, to bind every live operation with its own claims, to make retry claims
sound, and not to depend on the order in which the surfaces list their operations; its hash identifies
the report.

**Actors** (`PolicyReader`, `PolicyPrinter`, `ActorGate`). The line-by-line reader of
`config/policy.yaml` is proved to load exactly what is listed in a declarative sense, and to undo a
printer with comments, blank lines, quotes, other top-level keys and either line ending. The gate is a
method of a process object that owns the environment.

**Smaller parts**. `McpFraming` (the client's buffer and its unread chunks, over any number of
requests), `LegalSources` (the disk and the index over any number of refreshes), `Calendar` and
`ReleaseApproval` (RFC 3339 date-times, sections 5.6 and 5.7, and exact object keys).

`Options`, `Lists`, `Strings`, `Utf16` and `Sorting` hold what the others share; strings are measured
and sorted by UTF-16 code units, as JavaScript does.

## Findings

Places where a property one would expect fails, each with its exact condition:

- `canonicalJson` prints `[undefined]` and `[]` alike (`CanonicalJson.LoneUndefinedCollides`). On values
  whose numbers are finite it is injective exactly up to that and to key order
  (`CanonicalJson.CanonicalJsonIsExact`). What the program hashes today holds no array with `undefined`.
- Filling an empty bank field can remove corroboration. For every creditor it cannot exactly when the
  bill number has no space between two other characters, or some token that every line with the bill
  number must have is one of the supplier's: a token of the bill number written between two fresh word
  characters (`PayableMatching.FillingIsSafeExactlyWhen`).
- The derived branch of the actor gate does not check the canonical form. Naming the derived actor
  explicitly changes whether a command may run exactly when the actor is not canonical, and the command
  restores a company without a policy, or the list is empty and the actor no user, or the list has an
  entry with the actor's normal form (`ActorGate.BranchesAgreeExactlyWhen`), as for the account `x` under
  a policy that lists `x` (`ActorGate.ShortUserIsTreatedTwoWays`).
- The line that a refusal tells the user to add lists the actor, named or derived, exactly when the
  trimmed actor is on one line and does not end in a quote, or was listed before
  (`ActorGate.HintWorksExactlyWhen`): not for the account `o'`, nor for one with a line separator inside.
- Two legal sources can share a file. The index agrees with the disk after every refresh exactly when no
  two sources share a file name (`LegalSources.SoundExactlyWhen`); were a URL answered alike throughout a
  refresh, exactly when sources that share a file name share their URL
  (`LegalSources.SteadilySoundExactlyWhen`).

## Model

| member | source | states |
|---|---|---|
| EditDistance.Levenshtein | src/cli-meta/helpers.ts:125-136 | the table filled in place ends with the cost of the cheapest insert/delete/substitute script: some script reaches it, none beats it |
| EditDistance.DistanceIsEditDistance | src/cli-meta/helpers.ts:125-136 | the recurrence of the table is the least cost over all edit scripts, for all strings |
| EditDistance.NoScriptIsCheaper | src/cli-meta/helpers.ts:131-133 | no script between two prefixes costs less than their table entry |
| EditDistance.EditDistanceIsUnique | src/cli-meta/helpers.ts:125-136 | whatever is the least cost over all scripts is what the table computes |
| EditDistance.ZeroExactlyOnEqualStrings | src/cli-meta/helpers.ts:125-136 | distance zero means equal strings, and only that |
| EditDistance.Symmetric | src/cli-meta/helpers.ts:125-136 | the distance is the same both ways, by inverting scripts |
| EditDistance.TriangleInequality | src/cli-meta/helpers.ts:125-136 | a detour is never shorter, by composing scripts |
| EditDistance.LengthBounds | src/cli-meta/helpers.ts:125-136 | the distance lies between the length difference and the longer length |
| FlagValidation.SuggestFlag | src/cli-meta/helpers.ts:115-123 | the suggestion is the first candidate at the least distance, and there is one exactly when that distance is at most 3 |
| FlagValidation.ValidateCommandFlags | src/cli-meta/helpers.ts:102-113 | one line per unknown flag occurrence, in order, each with its nearest-flag hint; nothing for an unknown command |
| FlagValidation.UnknownAreTheRejected | src/cli-meta/helpers.ts:107-108 | the reported flags are exactly the given ones that are not allowed |
| FlagValidation.UnknownInOrder | src/cli-meta/helpers.ts:107-110 | they are reported in the order given, once for every time |
| FlagValidation.HintIsNearbyAndAllowed | src/cli-meta/helpers.ts:109-120 | a shown hint is a nearest allowed flag, 1 to 3 edits away; none is shown although one is that near exactly when the first nearest is the empty flag |
| FlagValidation.NearestIsUnique | src/cli-meta/helpers.ts:115-123 | the flag and the candidates determine the hint |
| FlagValidation.AllowedExactlyWhen | src/cli-meta/_shared.ts:19-34 | a flag is allowed exactly when the command lists it, or it is global, or `--example` where there is one |
| FlagValidation.KeyOfWords | src/cli-meta/helpers.ts:102-103 | a command is looked up by its word, or its two words with a space; an empty second word counts as none |
| CliArgs.Parser.TakeFlag | src/cli-args.ts:43-74 | one dashed token, with its look-ahead and skip, takes exactly the first item of the grammar and has its effect |
| CliArgs.Parser.ParseTokens | src/cli-args.ts:28-77 | the loop computes the meaning of the one reading of the tokens |
| CliArgs.Parser.ParseCliArgs | src/cli-args.ts:22-78 | the same for an argument vector, whose first two elements are ignored |
| CliArgs.PositionalsAreThePlainTokens | src/cli-args.ts:33-41 | the positionals are the plain tokens at their places in order, then all that follows the terminator |
| CliArgs.FlagsAreTheLastGiven | src/cli-args.ts:43-73 | a flag has a value exactly when that is what the last item that sets it gives: the text after the equals sign or the next token, or `true` |
| CliArgs.ErrorsAreThoseOfItems | src/cli-args.ts:49-72 | the k-th error names the k-th erroneous flag, as lacking a value exactly when it does |
| CliArgs.Parser.WordsParseToThemselves | src/cli-args.ts:38-41 | a line without dashes is its own positionals |
| CliArgs.Parser.AttachedLine | src/cli-args.ts:44-54 | `--name=value` sets the flag, and is an error for a switch |
| CliArgs.Parser.SingleLine | src/cli-args.ts:56-72 | a flag on its own is switched on, or lacks its value |
| CliArgs.Parser.SpacedLine | src/cli-args.ts:56-73 | a plain token after a flag is its value; after a switch it is an error, unless it is empty |
| CliArgs.Parser.FlagAfterFlag | src/cli-args.ts:56-72 | a flag is no value of another one |
| CliArgs.Parser.ReadUndoesPrint | src/cli-args.ts:30-75 | every well-formed list of items, printed, is read back as itself |
| CliArgs.Parser.PrintUndoesRead | src/cli-args.ts:30-75 | every token list has a well-formed reading that prints to it |
| CliArgs.Parser.PrintedOptionsParseBack | src/cli-args.ts:22-78 | flags in any form, then `--`, then any positionals parse back exactly, without errors |
| CliArgs.Parser.FirstTerminatorEndsOptions | src/cli-args.ts:33-41 | the first `--` is never a value: what precedes it means the same, what follows is positional verbatim |
| CliArgs.Parser.ErrorFreeLines | src/cli-args.ts:49-72 | parsing reports no error exactly when the tokens print positionals, valued flags and switches |
| CliArgs.RentemesterIsValid | src/cli-args.ts:1-14 | the program's own boolean flags are dashed names without an equals sign, so everything above holds for them |
| CliArgs.LastWriteWins | src/cli-args.ts:25-73 | of several writes to a flag the last value holds |
| CliArgs.ListedInOrderOfFirstWrite | src/cli-args.ts:25-73 | the flag map lists flags in the order of their first writes |
| PayableMatching.Matcher.TokensOfJoin | src/agent/loop.ts:551-563 | the tokens of the joined bank line are the union of the tokens of its fields |
| PayableMatching.Matcher.SplitAtSeparator | src/agent/loop.ts:555-556 | words do not run across a separator |
| PayableMatching.Matcher.FillingKeepsCorroboration | src/agent/loop.ts:574-591 | filling empty bank fields never removes corroboration, for a bill number without a space between two other characters |
| PayableMatching.FillingBreaksInnerSpace | src/agent/loop.ts:578-585 | for every bill number with an inner space, none of whose forced tokens names the supplier, there is a line that loses corroboration when a field is filled |
| PayableMatching.FillingIsSafeExactlyWhen | src/agent/loop.ts:574-591 | for every creditor: filling is safe for all lines exactly when there is no bill number, no space inside it, or a forced token of it among the supplier's |
| CreditorNames.IsDkkExactlyWhen | src/agent/loop.ts:636 | a currency counts as kroner exactly when there is none, or it spells DKK in upper case between blanks |
| CreditorNames.CorroboratesExactlyWhen | src/agent/loop.ts:551-591 | a line names a creditor exactly when its fields, joined with spaces, show the bill number, or one of them shares with the supplier's name a whole word of at least three units that is no stop word |
| CreditorNames.OnlyStopWordsNeverName | src/agent/loop.ts:551-563 | names that share only stop words and shorter words never corroborate |
| AgentBooks.Ledger.PayPayableFromBank | src/agent/loop.ts:673-678 | assumed contract of the ledger: refuses without a trace, or takes the payment off one balance and reconciles the line |
| AgentBooks.Ledger.BookExpenseFromBank | src/agent/loop.ts:438-445 | assumed contract of the ledger: refuses a used document or line without a trace, or books and reconciles |
| PayableSettlement.MatchLine | src/agent/loop.ts:635-696 | one bank line is skipped, surfaced, refused or paid, against the list that is left, with its effect on ledger, report and list |
| PayableSettlement.CandidateWasUnique | src/agent/loop.ts:638-641 | a single candidate of the shrinking list had a unique balance from the start: an ambiguous amount never becomes unambiguous |
| PayableSettlement.UniqueIsCandidate | src/agent/loop.ts:638-641 | a unique balance stays the single candidate until it is settled |
| PayableSettlement.MatchPayables | src/agent/loop.ts:610-697 | the run settles exactly the payables with a unique initial balance, each by the lowest-id line that pays it, and surfaces exactly the amount-only matches |
| PayableSettlement.SettledExactlyWhen | src/agent/loop.ts:610-697 | settled if and only if unique and paid by some unmatched outgoing kroner line; no line or payable is used twice; balances settled equal the money used |
| PayableSettlement.RunForgetsOrder | src/agent/loop.ts:611-626 | permuting payables or bank lines changes neither settlements nor surfaced matches |
| PayableSettlement.SecondPassSettlesNothing | src/agent/loop.ts:610-697 | a second pass over the resulting books settles nothing and changes no balance |
| PayableSettlement.UnmatchedOutgoingIsAscending | src/agent/loop.ts:618-626 | the queried lines are the outgoing ones without a reconciliation row, by strictly ascending id |
| SettlementMeaning.KronerPaymentsSettle | src/agent/loop.ts:610-697 | with the program's own judgements: a creditor is settled exactly when its balance is its own and some free kroner line of that amount names it and is accepted; its balance is then nil, and others are as they were |
| SettlementMeaning.MatchesAreReported | src/agent/loop.ts:679-687 | by line id, the report lists exactly the first payments of such creditors, with document, line, supplier and amount |
| SettlementMeaning.DoubtsAreReported | src/agent/loop.ts:645-671 | by line id, the exceptions list exactly the lines of the amount that do not name the creditor and come before any payment |
| SettlementMeaning.OtherCurrenciesAreLeft | src/agent/loop.ts:636 | a line in another currency is neither used nor surfaced |
| SupplierRules.ResolvedExactlyWhen | src/agent/contract.ts:123-128 | a supplier has a rule exactly when its name contains the token of one rule and of no other |
| ExpenseBooking.BestIsFirstMostConfident | src/agent/loop.ts:342-344 | the chosen suggestion is the first among the most confident purchases; none is chosen only without purchases |
| ExpenseBooking.DecidedExactlyWhen | src/agent/loop.ts:346-435 | a row is decided for booking exactly when the best suggestion reaches the threshold, has exactly one rule, and is no flagged asset purchase |
| ExpenseBooking.BookRow | src/agent/loop.ts:338-476 | one row is booked or surfaced, with its effect on ledger and report, and booked exactly when decided so and free |
| ExpenseBooking.BookExpenses | src/agent/loop.ts:337-477 | the phase books exactly the rows that own their document (the lowest line id among those that may book it) and surfaces the rest |
| ExpenseBooking.BookedExactlyWhen | src/agent/loop.ts:337-477 | every row is booked, surfaced or without candidate; no line and no document is booked twice |
| ExpenseBooking.RowOrderDoesNotMatter | src/agent/loop.ts:336-338 | permuting the suggestion rows or the bank lines changes nothing in ledger or report |
| ExpenseBooking.EveryBookingIsSound | src/agent/loop.ts:342-459 | every booked expense is that of the most confident purchase suggestion of its row, at 65 hundredths or more, under the only rule of its supplier, and no asset-like purchase of 5 000 kroner or more |
| BookingMeaning.BookingsAreReported | src/agent/loop.ts:338-459 | by line id, the report lists exactly the rows whose first most confident purchase has 65 hundredths, one rule and no equipment of that size, and which own their free line and document, with the rule's account |
| BookingMeaning.ReasonsAreSurfaced | src/agent/loop.ts:346-476 | by line id, every other row with a purchase brings exactly one exception, and it names the reason: confidence, no single rule, equipment, or the ledger |
| BookingMeaning.BookingsUseTheirLines | src/agent/loop.ts:438-459 | lines and documents are used by these bookings and by nothing else |
| AgentRun.BookAndSettle | src/agent/loop.ts:328-483 | over the whole run every bank line unmatched at the start is booked, or settled, or left unmatched, never two of them; the doubts are exactly the amount-only matches of what booking leaves; every new expense is sound |
| AgentRun.RunForgetsOrder | src/agent/loop.ts:328-483 | permuting suggestion rows, bank lines and payables changes nothing that a whole run books, settles or surfaces, nor the books it leaves |
| AgentRun.SecondRunDoesNothing | src/agent/loop.ts:328-483 | a second whole run on the books that a run has left, over the suggestions that still stand, books and settles nothing and changes only the exceptions |
| AgentRun.FillingNeverUnsettles | src/agent/loop.ts:574-697 | with the program's own corroboration: a payable that a run settles, and for which filling is safe, is settled also when empty bank fields are filled |
| CanonicalJson.CanonicalJsonIsExact | src/agent-discovery-catalog.ts:386-390 | equal texts exactly for values equal up to key order at every depth, where an array of one `undefined` counts as empty |
| CanonicalJson.CanonicalJsonIsInjective | src/agent-discovery-catalog.ts:386-390 | on values without such arrays the text is injective up to key order, and blind to it |
| CanonicalJson.LoneUndefinedCollides | src/agent-discovery-catalog.ts:387 | `[undefined]` and `[]` are different values with one text |
| CanonicalJson.TextReadsBack | src/agent-discovery-catalog.ts:386-390 | a JSON reader gets the value back from its text, up to key order, with the keys of every object in the order of their code units |
| CanonicalJson.EscapesAreShortest | src/agent-discovery-catalog.ts:388-389 | characters are escaped only when they must be, as shortly as possible, with lower-case digits |
| CanonicalJson.WhatHasText | src/agent-discovery-catalog.ts:386-390 | only `undefined` has no text |
| Sorting.StringLeExactlyWhen | src/agent-discovery-catalog.ts:388 | strings are in order exactly when one is a prefix of the other, or less at the first code unit that differs |
| CanonicalJson.TextDeterminesValue | src/agent-discovery-catalog.ts:386-390 | the text determines the value, because it can be read back |
| CanonicalJson.QuoteIsAPrefixCode | src/agent-discovery-catalog.ts:388-389 | quoted strings (section 7 of RFC 8259) can be told apart whatever follows |
| CanonicalJson.EqualValuesPrintAlike | src/agent-discovery-catalog.ts:388 | sorting the keys makes the text independent of their order |
| CoverageDefects.SilentExactlyWhenHolds | src/agent-discovery-catalog.ts:629-715 | no error exactly when no surface, binding, tool, capability, workflow, dependency or claim has a defect |
| CoverageDefects.ReportsExactlyTheDefects | src/agent-discovery-catalog.ts:638-714 | an error is in the report exactly when the input has the defect that it names |
| CoverageDefects.AlternativesMean | src/agent-discovery-catalog.ts:697 | a dependency group names exactly what stands between its bars |
| CoverageDefects.AlternativesUndoJoin | src/agent-discovery-catalog.ts:697 | ids joined with bars are split back in order |
| CoverageDefects.ReportIsPhased | src/agent-discovery-catalog.ts:638-714 | the errors come in the order of the checks |
| CoverageReport.CheckAll | src/agent-discovery-catalog.ts:629-715 | the loops accumulate the bindings and the errors in the order of the checks |
| CoverageReport.Validate | src/agent-discovery-catalog.ts:629-729 | the report: `ok` if and only if everything holds, sorted bindings, their hash |
| CoverageReport.RetryClaimsAreSound | src/agent-discovery-catalog.ts:674-714 | under `ok`: safe-read exactly on expected reads, destructive steps read back, natural and key idempotency name live write tools that are not marked destructive, with and without the hint |
| CoverageReport.McpBindingIsTheTool | src/agent-discovery-catalog.ts:563-571 | a bound tool operation is a live tool, and the binding claims what its annotations say |
| CoverageReport.SafeReadMeansRead | src/agent-discovery-catalog.ts:476-482 | on every surface a binding claims safe reads exactly when it reads |
| CoverageReport.ReportForgetsOrder | src/agent-discovery-catalog.ts:555-561 | reordering uniquely named tools, commands and routes changes neither `ok`, nor bindings, nor hash |
| CoverageBindings.EveryToolIsBound | src/agent-discovery-catalog.ts:563-571 | under `ok` every uniquely named live tool has a reported binding with the safety, idempotency, actor and confirmation of its annotations |
| CoverageBindings.EveryCommandIsBound | src/agent-discovery-catalog.ts:573-578 | the same for every live command and its registration |
| CoverageBindings.EveryRouteIsBound | src/agent-discovery-catalog.ts:579-586 | the same for every live route whose method has no space |
| CoverageBindings.EveryBindingIsLive | src/agent-discovery-catalog.ts:563-586 | every reported binding is that of a live operation, with its claims |
| CoverageBindings.LiveExactlyWhen | src/agent-discovery-catalog.ts:634-635 | the live ids are those of the tools, commands and routes, each as often as it is registered, by code units |
| CoverageBindings.SurfaceHoldsExactlyWhen | src/agent-discovery-catalog.ts:551-552 | a surface is as reviewed exactly when its names are as many and, in order, have the hash |
| CoverageBindings.ReportIsSorted | src/agent-discovery-catalog.ts:716 | the report lists the bindings in the order of the collation, each once |
| CoverageBindings.SmallCatalogueHolds | src/agent-discovery-catalog.ts:629-715 | the conditions can be met, by a catalogue with a natural-idempotent write |
| CoverageHash.HashIdentifies | src/agent-discovery-catalog.ts:716-717 | without hash collisions, equal coverage hashes mean equal catalogue, baselines up to key order, bindings and workflows, and conversely |
| CoverageHash.ReportHashIdentifies | src/agent-discovery-catalog.ts:716-717 | with the program's own hash, two reports under one catalogue carry equal coverage hashes exactly when their bindings and workflows are equal |
| CoverageHash.BindingIsPublished | src/agent-discovery-catalog.ts:449-457 | the record of a binding has its seven fields under their published names and values |
| CoverageHash.ReportIsPublished | src/agent-discovery-catalog.ts:716-718 | the record that is hashed has catalogue hash, baselines, bindings and workflow ids, and nothing else |
| PolicyReader.ReadLines | src/cli-actor.ts:247-268 | the loop with its flag, section and early exit collects what the state machine mentions |
| PolicyReader.LoadActorAllowlist | src/cli-actor.ts:240-270 | the set loaded from the lines of the file |
| PolicyReader.AllowlistIsWhatIsListed | src/cli-actor.ts:240-270 | an actor is loaded exactly when an entry below the first `actor_allowlist:` and before the next key in column 0 names it, read in the section named last |
| PolicyPrinter.SplitUndoesJoin | src/cli-actor.ts:247 | lines joined with either ending are split back |
| PolicyPrinter.JoinUndoesSplit | src/cli-actor.ts:247 | every text is a join of the lines it splits into |
| PolicyPrinter.LoadUndoesPrint | src/cli-actor.ts:240-270 | a printed policy, among comments, blank lines, quotes and other keys, loads to exactly the actors it names, prefixed by section |
| PolicyPrinter.LinesAreSeen | src/cli-actor.ts:247-254 | which lines are skipped, which one opens the list, and which start a new key |
| PolicyPrinter.SectionExactlyWhen | src/cli-actor.ts:255-258 | a line names a section exactly when it is a key two columns in |
| PolicyPrinter.ItemExactlyWhen | src/cli-actor.ts:259-261 | a line holds a value exactly when that follows a dash, on one line, without its quotes |
| PolicyPrinter.QuotesAreTakenOff | src/cli-actor.ts:261 | one quote is taken off at either end, and no more |
| PolicyPrinter.EntriesAreActors | src/cli-actor.ts:262-267 | an entry is the actor it spells, or the name of one of its section's kind |
| ActorGate.ActorMatchesAllowlist | src/cli-actor.ts:311-321 | the loop over the list finds the actor exactly when some entry has the same trimmed lower-case form |
| ActorGate.CheckActorAllowlist | src/cli-actor.ts:387-411 | the decision on the loaded policy: without a list only users are refused; with one the actor is allowed exactly when some entry has the same normal form |
| ActorGate.PassesExactlyWhen | src/cli-actor.ts:413-490 | a command passes exactly when somebody acts, in canonical form if named, whom the policy lets in, or who restores a company without one |
| ActorGate.RefusalsTellWhy | src/cli-actor.ts:421-489 | the refusal tells which of these is missing |
| ActorGate.CanonicalExactlyWhen | src/cli-actor.ts:236-238 | canonical: user, agent or system, a colon, no space, and more on the same line |
| ActorGate.NamedFirst | src/cli-actor.ts:421-462 | the named actor and channel come before those of the environment, which count trimmed and only if they say something |
| Strings.SpacesAre | src/cli-actor.ts:230-234 | which 25 characters are trimmed |
| ActorGate.FirstAccountWins | src/cli-actor.ts:323-333 | the actor is derived from the first of the six accounts that is set, without the space at its end |
| ActorGate.Process.EnforceMutationActorPolicy | src/cli-actor.ts:413-490 | outcome of both branches including the restore exemption, and the environment, which changes only when an explicit actor is accepted |
| ActorGate.BranchesAgreeExactlyWhen | src/cli-actor.ts:421-489 | naming the derived actor explicitly leaves acceptance the same exactly when the actor is canonical, or no restore is exempt and the actor is a user without a list or has no entry of its normal form |
| ActorGate.ShortUserIsTreatedTwoWays | src/cli-actor.ts:323-489 | the account `x`, listed by the policy text, is accepted when derived and rejected when named |
| ActorGate.DerivedIsCanonicalExactlyWhen | src/cli-actor.ts:323-333 | a derived user is canonical exactly when the trimmed account has at least two code units, the first no space, on one line |
| ActorGate.AgentsComeFirst | src/cli-actor.ts:323-333 | no actor is derived only when no account is set; an agent account always goes before a human one |
| ActorGate.SpellingDoesNotMatter | src/cli-actor.ts:307-321 | with a list, case and surrounding space never decide, on either branch |
| ActorGate.AcceptedActorIsAcceptedAgain | src/cli-actor.ts:421-462 | an actor accepted from the trimmed flag or the environment is accepted again, as itself, by a command that names none |
| ActorGate.PrintedPolicyDecides | src/cli-actor.ts:240-411 | under a printed policy a canonical actor passes exactly when the policy names a spelling of it |
| ActorGate.HintWorksExactlyWhen | src/cli-actor.ts:341-349 | for every actor that can be refused, named or derived, and its hinted line added anywhere in its section of any policy text: the actor is then let in exactly when it was listed before, or is on one line and does not end in a quote; only a line feed in the actor can shorten the list |
| McpFraming.McpClient.Request | examples/agent-demo/run.ts:140-162 | the request ends as the unconsumed text tells; buffer plus unread chunks is exactly what follows the line that ended it |
| McpFraming.AnswerIsUnique | examples/agent-demo/run.ts:146-160 | a text determines the outcome of a request and what it leaves |
| McpFraming.Requests | examples/agent-demo/run.ts:140-162 | any number of requests of one client, one after the other, are a session on its unconsumed text |
| McpFraming.RequestsOverChunks | examples/agent-demo/run.ts:146-160 | two clients that are sent one text in different chunks see the same outcomes of any number of requests, and are left with the same text |
| McpFraming.RepliesInOrderAreUnderstood | examples/agent-demo/run.ts:140-162 | replies in order, among notifications and blank lines, each reach their request and nothing more is consumed |
| McpFraming.RequestsInOrder | examples/agent-demo/run.ts:140-162 | a client that is sent the replies to its next requests in order gets each, and keeps exactly the rest of the text |
| McpFraming.AllAnsweredExactlyWhenInOrder | examples/agent-demo/run.ts:146-160 | every request of a session is answered exactly when the text has their replies in order, among lines that each passes over |
| LegalSources.Disk.Download | src/legal-sources.ts:61-106 | one run: index, errors and files, source by source |
| LegalSources.PathsCollideExactlyWhen | src/legal-sources.ts:39-41 | two paths are the same exactly when the sanitized ids and the extensions are |
| LegalSources.RefreshIsSound | src/legal-sources.ts:78-106 | when sources that share a name are answered alike, every index entry's file is stored with the entry's hash, kept entries included |
| LegalSources.EveryRefreshIsSound | src/legal-sources.ts:61-106 | the same after any sequence of refreshes with changing answers, clocks and manifests |
| LegalSources.SharedNameIsUnsound | src/legal-sources.ts:39-96 | of two sources with one file name and two answers the last one's body replaces the other's, whose entry is then wrong |
| LegalSources.SoundExactlyWhen | src/legal-sources.ts:39-106 | over all networks, which may answer every call differently, shelves and clocks: every refresh of a manifest is sound exactly when no two sources share a file name |
| LegalSources.SteadilySoundExactlyWhen | src/legal-sources.ts:39-106 | over the networks that answer a URL alike throughout a refresh: exactly when sources that share a name share their URL |
| LegalSources.IndexFollowsManifest | src/legal-sources.ts:78-106 | the index keeps the order of the manifest |
| LegalSources.ErrorsFollowManifest | src/legal-sources.ts:99-101 | every failure is reported once, in the order of the manifest |
| LegalSources.EverySourceIsAccountedFor | src/legal-sources.ts:78-105 | every source has an entry of its own download or is reported, and only failures are reported |
| LegalSources.FailureKeepsEntry | src/legal-sources.ts:99-104 | a failed source keeps its last entry exactly when it had one whose file is stored |
| LegalSources.RerunChangesNothing | src/legal-sources.ts:78-106 | rerunning on the same answers returns the same index, dates included, whatever the clock says |
| LegalSources.DatesChangeWithContent | src/legal-sources.ts:95 | an entry's date changes only with its hash |
| LegalSources.DownloadsAreDated | src/legal-sources.ts:95 | a download has the date of the last entry of its id if that has the same hash, and else the next reading of the clock |
| LegalSources.ExistingIsTheLast | src/legal-sources.ts:74 | of several entries of an id the last counts |
| LegalSources.XmlIsPreferred | src/legal-sources.ts:79 | the XML address is asked for where there is one |
| LegalSources.PathIsSpelled | src/legal-sources.ts:39-41 | the path is the directory, the id with an underscore for every code unit that is not safe, and the extension |
| Calendar.NextDayIsNext | scripts/release/verify-approval.ts:45-47 | the day after a valid date is valid and has the next day number |
| Calendar.DayNumbersRoundTrip | scripts/release/verify-approval.ts:45-47 | dates and day numbers correspond one to one |
| Calendar.FourDigitYears | scripts/release/verify-approval.ts:40-47 | the dates up to year 9999 are exactly the first 3 652 059 |
| Calendar.LastDays | scripts/release/verify-approval.ts:45-47 | which months have a 29th, a 30th and a 31st |
| Calendar.LeapYears | scripts/release/verify-approval.ts:45 | every fourth year has a leap day, except three of four centuries |
| ReleaseApproval.AcceptsExactlyDateTimes | scripts/release/verify-approval.ts:37-55 | accepted exactly when it prints valid RFC 3339 fields (upper-case T and Z, year at least 1, no leap second) |
| ReleaseApproval.ReadUndoesPrint | scripts/release/verify-approval.ts:37-55 | every valid date-time prints to an accepted text with its own fields |
| ReleaseApproval.PrintUndoesRead | scripts/release/verify-approval.ts:37-55 | every accepted text is the print of its fields |
| ReleaseApproval.AcceptedDatesAreNumbered | scripts/release/verify-approval.ts:45-47 | accepted dates round-trip through consecutive day numbers |
| ReleaseApproval.NumberedDatesAreAccepted | scripts/release/verify-approval.ts:45-47 | every day number in range is the date of an accepted text |
| ReleaseApproval.ExactKeysExactlyWhen | scripts/release/verify-approval.ts:25-35 | accepted exactly when the keys are the expected ones, each as often |

## Left out

- The accounting core under `src/core/`: VAT windows, accruals, reconciliation, the hash chain. The two ledger calls of the agent run are classes with an assumed accept-or-refuse predicate.
- The other phases of `runPhases` (ingest, bank import, overdue and unmatched synchronisation, deadlines) and the order and filters of `buildPayablesList`: every open payable takes part.
- Texts of messages and exceptions, report counters, document and journal numbers: presentation; an error is modelled by its kind and the ids in it.
- Floating point: amounts are whole øre, confidences hundredths; the rounding that precedes them is not modelled, and JSON numbers are their printed text.
- Unicode tables, `toUpperCase`, `toLowerCase` and `localeCompare`: functions per character or a parameter of the lemma, so context-dependent mappings such as the final sigma are not captured.
- Lone surrogates: strings are sequences of Unicode scalars, measured in code units where a length decides something.
- SHA-256: any function, assumed free of collisions only where a lemma says so.
- `searchCapabilities`, `describeWorkflow`, `pickRule`, `actorMayForcePeriodClose`: searches and readers that would only add easy members beside the ones modelled.
- Acyclicity of workflow dependencies: the validator only checks for dangling names.
- Contents of `SUPPLIER_RULES`, of the stop-token list, of `MUTATING_COMMANDS` and of the catalogue: the lemmas hold for arbitrary ones.
- The requests' time-out and their writes to the server: a request ends when the chunks do, and the stream is given beforehand.
- UTF-8 decoding, `detectExtension`, `validateBody` and the README text of `downloadLegalSources`: the network answers with characters that were already judged.
- The remaining checks of `verify-approval.ts`: a straight line of comparisons.
- CoverageReport.Validate: `imageDigest`, `counts`, the schema version and the catalogue identity are copied through in the source and are not part of the modelled report.
- AgentBooks.Ledger.PayPayableFromBank: says nothing of journal entries; it is what the loop assumes, not what the ledger does.
- PolicyReader.LoadActorAllowlist: the set has no insertion order; only its size and its members are used.
