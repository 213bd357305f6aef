# Verified models of the vaultspec-rag service

Dafny models of the parts of vaultspec-rag and its development tooling whose correctness is hardest to see from one
function, with proofs over every input, every run or every reachable state. `dafny verify dfyconfig.toml` checks all of
it.

Code that changes things step by step is modelled by classes and loops, proved against functions of the same step; what
those functions mean over whole runs is proved in lemmas beside them. An operating-system lock is a lock with one holder,
freed when its holder's process exits. Whatever the outside world decides - the schedule, which primitive fails, what the
backend answers, the draws of a jitter - is a parameter, and every statement is for all of them.

| files | what they model |
|---|---|
| `GpuOwner`, `GpuOwnerRuns`, `GpuOwnerReach`, `GpuOwnerWitnesses`, `GpuOwnerCode` | the GPU ownership protocol: any number of processes and threads claiming, observing, lending, reclaiming and dying over one anchor file and the service locks. The first file is the transition system and its invariant, the second what holds of every run, the third what can come about from every state that meets the conditions left open, the fourth two such runs from the start, the last the code's own methods, preempted between any two primitives |
| `AnchorRecord` | the owner record as bytes: JSON text (section 4 of RFC 8259) padded with insignificant whitespace (section 2), UTF-8 (section 3 of RFC 3629), in-place publication, and the reader's wait |
| `IndexAudit`, `IndexReport` | the exact index audit: paging, nine counters, the seven comparisons, the read token, and what each number of the report says |
| `ExpressionTokens`, `Expressions`, `ExpressionLaws` | the workflow-condition tokenizer, parser and three-valued evaluator |
| `Recipes` | recipe expansion through a registry that may refer to itself |
| `Dotenv`, `DotenvLaws` | the `.env` reader, renderer and provisioner |
| `Admission`, `AdmissionProtocol`, `AdmissionCode` | the device-load verdict, the unreadable streak, the latch, guard and load window over all threads and processes, and the code's own method preempted between any two steps |
| `Outline` | flattening a command tree to paths and rebuilding the outline |
| `Polling` | the polling hook of the browser monitor |
| `AtomicWrite` | atomic JSON publication and its retry ladder |
| `Remediation` | the spacing of repair requests |
| `Advisories` | the dependency audit's merging of advisory aliases |
| `Text`, `Sets`, `Options` | scanning text, counting, and two result types |

## Where the code and what is said of it part

- A loan answered LENT_HERE was real when its record was read, except in one case: its owner had exited and not been
  reaped. Such a process still answers the liveness query on POSIX, and its lock is already free, so another process can
  own the GPU while the borrower is permitted to compute (`GpuOwnerRuns.LentAt`, `GpuOwnerWitnesses.UnreapedOwnerStillLends`).
- A service probe that is refused reads its own pid as "no other process". After this process has given the service lock
  up, that pid can be stale and another service's hold is overlooked. Without such a release it never is
  (`GpuOwnerRuns.ProbeOverlooksOnlyAfterGivingUp`); with one, it can be from every state in which the record still names
  the process (`GpuOwnerReach.ExposedComesToOverlook`, `GpuOwnerReach.RefusedProbeOverlooksIff`).
- `lend_gpu` is said to return whether the loan was recorded. A record that lands and whose flush or read-back then fails
  is reported as not lent and lends all the same, exactly then (`GpuOwnerCode.Machine.LendGpu`,
  `GpuOwnerCode.UnconfirmedLoanLends`).
- A published record is readable over a longer foreign body only if the bytes past the frame are UTF-8. A well-formed body
  with a character across the frame's end makes a reader see no record until the truncation
  (`AnchorRecord.ForeignTextCutInACharacter`).
- Two of the audit's seven comparisons decide its verdict (`IndexAudit.TwoCountsDecide`).
- MAYBE need not mean that both answers are possible. For a condition that repeats no unbound reference it does, unless the
  condition somewhere compares an open truth value with a constant that no truth value equals
  (`ExpressionLaws.MaybeHasBothAnswers`, `ExpressionLaws.MaybeCanBeSettled`). A repeated reference can settle it as well
  (`ExpressionLaws.RepeatedReferenceSettles`). What a condition can come to is computed exactly: bind the references it
  repeats, each to one value, and its range then holds just the values some binding of the rest gives
  (`ExpressionLaws.TakesIff`, `ExpressionLaws.UnrepeatedEvaluatesIff`). `ExpressionLaws.RangeIsExact` and
  `ExpressionLaws.MaybeIsOpen` say the same of occurrences taken each on its own. A call or a missing operand may be anything
  throughout, at each occurrence.
- Provisioning a `.env` keeps every value exactly when the example has no line live under a name declared before, and is
  idempotent exactly when every live example line is unindented, upper-case and its name's first declaration
  (`DotenvLaws.ConservesIff`, `DotenvLaws.StableIffTidy`).
- `observe_unreadable_streak` says it answers zero for a reading that is not unreadable; it answers the running streak
  unless that reading carried a figure (`Admission.ZeroForTheRest`, `Admission.NonzeroForTheRest`).
- Truncation is said to understate every figure. It does so for figures that are not negative, which are all the device
  probe returns (`Admission.TruncationIsSafe`, `Admission.TruncationMargins`).
- Repair requests stay 600 s apart even if clock readings reach the registry out of order by up to 150 s, and by no more
  (`Remediation.RequestsAreSpaced`, `Remediation.LargerSkewBreaksSpacing`).
- A suppression is reported as matching nothing in the tree when no finding rests on it. That is true of all of them
  exactly when each live name that a hit lists is the first live name of some finding
  (`Advisories.StaleMatchesNothingIff`, `Advisories.StaleMayMatch`).
- Findings are accepted under the names of the advisory met first. With one-sided alias lists that can pass the gate
  although another hit is accepted under none of its own names; accepting the findings is accepting the hits exactly when
  every hit has a finding that goes by no name the hit does not list (`Advisories.GateSpeaksForHitsIff`,
  `Advisories.OneSidedAliasMasksAHit`).
- A temporary whose random name is already taken makes publication fail, and the cleanup then removes the file that was
  there (`AtomicWrite.WriteJsonAtomically`: the temporary is gone in every case in which unlinking works).

## Model

| member | source | states |
|---|---|---|
| `GpuOwnerRuns.AtMostOneOwner` | src/vaultspec_rag/_gpu_owner.py:376-445 | over every interleaving of claims, observations, loans, reclaims, service leases, births and deaths, at most one process is in `_held`, and that process runs and has the anchor locked |
| `GpuOwnerRuns.LoanNamesTheLockHolder` | src/vaultspec_rag/_gpu_owner.py:336-365 | whenever a loan is on the anchor, its named owner runs if and only if it owns the GPU |
| `GpuOwnerRuns.LineageIff` | src/vaultspec_rag/_gpu_owner.py:508-519 | a loan is to this process when it or an ancestor has the lent pid and started within a millisecond of the lent time |
| `GpuOwnerRuns.LentAnswerWasTrueWhenRead` | src/vaultspec_rag/_gpu_owner.py:473-483 | every LENT_HERE answer goes back to an instant of the same call at which this thread, refused the anchor, read a loan to its own lineage; at that instant the named process held the GPU if and only if it was not an exited process awaiting its parent |
| `GpuOwnerRuns.ClaimPermitsOnlyOwnedOrLent` | src/vaultspec_rag/_gpu_owner.py:314-324 | a claim that permits compute answers OWNED_HERE while this process owns the GPU, or LENT_HERE by a loan the same call read; never FREE |
| `GpuOwnerRuns.RefusedFromOutside` | src/vaultspec_rag/_gpu_owner.py:288-291 | a claim about to try the lock never finds it with another claim of its own process or with what its process holds: only with another process, or with an observer of its own, which does not take the guard |
| `GpuOwnerRuns.GuardKeptAlways` | src/vaultspec_rag/_gpu_owner.py:376-390 | in every reachable state a claim that has its answer still has its process's guard, or the guard is free and its process is in `_held`; so nobody else's claim of that process is under way |
| `GpuOwnerRuns.OwnershipWasProbed` | src/vaultspec_rag/_gpu_owner.py:413-445 | whoever is in `_held` took the free anchor, has had it without a break since, and after taking it took a step of its probe that saw no other process on its service lock |
| `GpuOwnerRuns.ProbeOverlooksOnlyAfterGivingUp` | src/vaultspec_rag/_gpu_owner.py:522-538 | a claim overlooks another process's service only by reading its own pid in a stale record, and only if it really gave that lock up earlier in the run |
| `GpuOwnerReach.ExposedComesToOverlook` | src/vaultspec_rag/_gpu_owner.py:522-538 | the other half: from every reachable state in which a process's pid is left in the record without its lease, and it may claim a free anchor while a process of the same storage is there, it can come to own the GPU over that process's hold |
| `GpuOwnerReach.RefusedProbeOverlooksIff` | src/vaultspec_rag/_gpu_owner.py:522-538 | at a probe refused by another process, the claim keeps the anchor if and only if the record is read and names the claimant without its lease |
| `GpuOwnerReach.LoanComesToBeAnswered` | src/vaultspec_rag/_gpu_owner.py:391-410 | from every reachable state with a loan on a locked anchor whose owner answers as alive, a process of the lent lineage can be answered LENT_HERE |
| `GpuOwnerReach.HoldersStand` | src/vaultspec_rag/_machine_lock.py:183-304 | in every reachable state a service lock is held by a running process of that storage, and a look by a thread that is looking |
| `GpuOwnerRuns.OwnerIsNamed` | src/vaultspec_rag/_gpu_owner.py:413-445 | while record writes succeed, the anchor names its owner from the start of that owner's probe until it exits |
| `GpuOwner.RunKeepsInv` | src/vaultspec_rag/_gpu_owner.py:376-445 | the inductive invariant of the protocol: the lock belongs to a call in progress or to the process in `_held`, one claim per process, loans written by their owner, no claim about to answer FREE |
| `GpuOwner.TryLockStep` | src/vaultspec_rag/_anchor_claim.py:404-468 | a lock attempt takes the lock only if it is free, creates the anchor empty only if it is absent, and changes nothing else |
| `GpuOwner.AskAliveStep` | src/vaultspec_rag/_gpu_owner.py:391-410 | judging a refusal changes nothing on the machine |
| `GpuOwner.PublishStep` | src/vaultspec_rag/_gpu_owner.py:541-550 | publishing changes the record and nothing else; the claimant goes on to probe, the lender stays where it was |
| `GpuOwner.ProbeStep` | src/vaultspec_rag/_machine_lock.py:265-304 | one primitive of the service probe: it may enter the claimant in `_held` and take or release the service lock, and answers only OWNED_HERE, FREE, SERVICE_HOLDS_MACHINE or UNVERIFIABLE |
| `GpuOwner.LeaseStep` | src/vaultspec_rag/_machine_lock.py:183-246 | a service acquiring, recording, aborting and releasing its lease touches the service lock and record alone |
| `GpuOwnerWitnesses.UnreapedOwnerStillLends` | src/vaultspec_rag/_process_probe.py:231-239 | a run in which a borrower is answered LENT_HERE by an exited, unreaped owner while another process owns the GPU |
| `GpuOwnerWitnesses.StaleRecordHidesAService` | src/vaultspec_rag/_gpu_owner.py:522-538 | a run in which a process comes to own the GPU although its probe was refused by another process's service |
| `GpuOwnerCode.Machine.Take` | src/vaultspec_rag/_gpu_owner.py:391-410 | the retry loop, preempted anywhere: it makes only steps of the protocol and ends with the lock taken or a refusal |
| `GpuOwnerCode.Machine.ProbeService` | src/vaultspec_rag/_gpu_owner.py:522-538 | the service probe, preempted anywhere, for a claim and for an observer; left to itself it finds the recorded holder of a lock that is not free, its own pid standing for none, and no service otherwise |
| `GpuOwnerCode.Machine.ClaimAnchor` | src/vaultspec_rag/_gpu_owner.py:413-445 | anchor, record, probe, then keep or back off, as steps of the protocol ending in the answer it returns; left to itself, a held anchor is answered by its record and left alone, a free one is owned unless another's service lock names a service, which is then named and the anchor freed |
| `GpuOwnerCode.Machine.RequireGpuOwnership` | src/vaultspec_rag/_gpu_owner.py:314-324 | permission means owning the GPU now or having read, in this call, a loan that stood when read; an owner is always permitted; left to itself the call is answered LENT_HERE or OWNED_ELSEWHERE by the record of a held anchor, comes to own a free one, or is refused by the service it names and leaves the anchor free; the guard is given back |
| `GpuOwnerCode.Machine.ObserveGpuOwner` | src/vaultspec_rag/_gpu_owner.py:327-333 | a LENT_HERE answer rests on a read of the same call; left to itself it changes nothing and is told what a claim would be of a held anchor, and of any other whether it is free or a service has the machine |
| `GpuOwnerCode.Machine.LendGpu` | src/vaultspec_rag/_gpu_owner.py:336-357 | the loan is on the anchor, by the process that owns it, exactly when its record landed, and reported exactly when it landed and was confirmed; so it is there and reported as not lent exactly when it landed unconfirmed; nobody but an owner with a readable borrower changes anything |
| `GpuOwnerCode.UnconfirmedLoanLends` | src/vaultspec_rag/_gpu_owner.py:336-357 | for every owner and borrower, a call whose record lands unconfirmed answers False and the borrower's own call is then answered LENT_HERE |
| `GpuOwnerCode.Machine.ReclaimGpu` | src/vaultspec_rag/_gpu_owner.py:360-365 | after an owner's successful write no loan is left; anybody else changes nothing |
| `AnchorRecord.DecodeEncode` | src/vaultspec_rag/_anchor_claim.py:343-347 | a record is self-delimiting: whatever text follows its document, the leading document reads back as that record |
| `AnchorRecord.RawDecodeIff` | src/vaultspec_rag/_anchor_claim.py:343-347 | a text reads as a record if and only if it begins with the document that is written for that record |
| `AnchorRecord.Utf8Iff` | src/vaultspec_rag/_anchor_claim.py:338-342 | bytes read as a text if and only if they are its UTF-8 encoding (section 3 of RFC 3629) |
| `AnchorRecord.ReadFrame` | src/vaultspec_rag/_anchor_claim.py:338-347 | a padded frame followed by any bytes reads as its record if those bytes are UTF-8 text, and as nothing if not |
| `AnchorRecord.ReadsLatest` | src/vaultspec_rag/_anchor_claim.py:540-563 | over any sequence of frame writes and truncations, from the first frame on a reader sees the latest record, or nothing exactly while an uncut foreign tail is not UTF-8; never a mixture, never an older record |
| `AnchorRecord.ForeignTextCutInACharacter` | src/vaultspec_rag/_anchor_claim.py:543-548 | a well-formed UTF-8 body for which a reader between the write and the truncation sees no record |
| `AnchorRecord.AnchorFile.Publish` | src/vaultspec_rag/_anchor_claim.py:554-567 | an oversized record touches nothing; any other leaves exactly its frame, which reads back as the record |
| `AnchorRecord.ReadAnchorRecord` | src/vaultspec_rag/_anchor_claim.py:324-347 | the wait: every look before the settling one found an empty file, an empty file is read only at the deadline, and the answer is what the file holds an instant after the settling look |
| `AnchorRecord.WaitFindsTheOwner` | src/vaultspec_rag/_anchor_claim.py:317-323 | a reader that arrives while a claimant has locked but not published returns the record in place when it reads, if the first frame lands by the deadline |
| `AnchorRecord.OwnerRecordsFit` | src/vaultspec_rag/_gpu_owner.py:76-79 | every owner and loan record with 32-bit pids fits the fixed width |
| `IndexAudit.AuditCounters.ClassifyPage` | src/vaultspec_rag/_index_integrity.py:663-713 | after any page, whatever the ledger answered, each scanned point is in exactly one of four counts and every matched path has its evidence size; with one evidence map the counters are those of all rows so far |
| `IndexAudit.AuditCounters.ClassifyIdentities` | src/vaultspec_rag/_index_integrity.py:689-713 | the two lookups and the second loop of a page, with the same promise |
| `IndexAudit.AuditIndex` | src/vaultspec_rag/_index_integrity.py:716-850 | whatever the ledger did during the scan, an accepted audit is the report the proof taken at its start gives for all rows scanned; every refusal states its cause |
| `IndexReport.ReportCounts` | src/vaultspec_rag/_index_integrity.py:746-793 | each number of a report, said of rows and points: matched rows are the first for a point under its own path with its content; extra ones are under no path, foreign ones under another, incompatible all the rest; missing points and paths have no matched row, partial paths have some and lack some; observed are the distinct paths of well-formed rows |
| `IndexReport.VerdictIsTheNumbers` | src/vaultspec_rag/_index_integrity.py:765-773 | for any proof, well formed or not, the verdict is CONSISTENT if and only if the report's own numbers agree: scanned, matched and expected points equal and every fault count zero |
| `IndexAudit.TotalsAreSound` | src/vaultspec_rag/_index_integrity.py:650-660 | scanned equals matched plus extra plus foreign plus incompatible, and no evidence size can be missing |
| `IndexAudit.CountsForceExact` | src/vaultspec_rag/_index_integrity.py:765-773 | counting is enough: equal scanned, matched and expected counts force the bijection between rows and points |
| `IndexAudit.ConsistentIffExact` | src/vaultspec_rag/_index_integrity.py:746-773 | CONSISTENT if and only if the rows are in bijection with the proof's points, each at its own path and with the content recorded |
| `IndexAudit.TwoCountsDecide` | src/vaultspec_rag/_index_integrity.py:765-773 | of a well-formed proof, two of the seven comparisons decide the verdict |
| `IndexAudit.OrderIsIrrelevant` | src/vaultspec_rag/_index_integrity.py:679-713 | row order never changes the verdict |
| `IndexAudit.CountersDependOnOrder` | src/vaultspec_rag/_index_integrity.py:694-713 | row order can change the counters |
| `ExpressionTokens.Tokens` | dev/guards/_workflows.py:499-509 | the position loop yields the tokens of the regular expression, one match after another |
| `ExpressionTokens.QuotedEnds` | dev/guards/_workflows.py:492-496 | a quoted literal with doubled quotes ends at its own closing quote, through the pattern's backtracking |
| `ExpressionTokens.QuoteEndsLast` | dev/guards/_workflows.py:492-496 | the backtracking match of a quoted literal ends at the last place it may, and fails only if there is none |
| `ExpressionTokens.TokenizeLayout` | dev/guards/_workflows.py:492-509 | tokens laid out with blanks, or without where nothing would merge, are tokenized back exactly |
| `Expressions.Parser.Or` | dev/guards/_workflows.py:571-577 | consumes exactly the tokens of an or-expression, whatever the context holds, and returns that expression's value |
| `Expressions.Parser.And` | dev/guards/_workflows.py:579-585 | the same of an and-expression |
| `Expressions.Parser.Compare` | dev/guards/_workflows.py:587-597 | the same of a comparison chain |
| `Expressions.Parser.Unary` | dev/guards/_workflows.py:599-605 | the same of a negation |
| `Expressions.Parser.Primary` | dev/guards/_workflows.py:607-624 | the same of a literal, reference, call or parenthesis, and of running out of tokens |
| `Expressions.Parser.SkipCall` | dev/guards/_workflows.py:626-635 | skips to just past the parenthesis that closes the call |
| `ExpressionLaws.ParsePrint` | dev/guards/_workflows.py:541-635 | printing with minimal parentheses and parsing gives the expression back with no token left, so precedence and left association are as intended |
| `ExpressionLaws.ParsePrintOr` | dev/guards/_workflows.py:571-577 | an operand printed at this level and followed by anything that does not bind tighter is parsed as itself |
| `ExpressionLaws.PrintedTextMeansIt` | dev/guards/_workflows.py:648-653 | the text of a printed condition, however spaced, bare or inside `${{ }}`, means the expression printed |
| `ExpressionLaws.Evaluate` | dev/guards/_workflows.py:638-656 | the answer is that of the expression the text means, with the event bound over the bindings |
| `ExpressionLaws.CompareDecides` | dev/guards/_workflows.py:587-597 | two known texts compare by their characters, truths and integers as numbers, null with itself alone; `!=` is the negation |
| `ExpressionLaws.ValueDecides` | dev/guards/_workflows.py:512-514 | a known value answers TRUE for any text but the empty one, for true and for any number but zero, else FALSE; a negation answers the other |
| `ExpressionLaws.EventDecides` | dev/guards/_workflows.py:638-656 | however it is spaced, comparing the event name with a quoted name answers TRUE for that event and FALSE for every other, whatever is bound besides |
| `ExpressionLaws.EventTextDecides` | dev/guards/_workflows.py:638-656 | the same of the text as the workflows write it |
| `ExpressionLaws.EvalIsMonotone` | dev/guards/_workflows.py:517-538 | binding more references never changes a known value |
| `ExpressionLaws.EvalIsSound` | dev/guards/_workflows.py:517-538 | a known value is the only one possible, whatever each unbound reference, call and missing operand is |
| `ExpressionLaws.SomethingIsPossible` | dev/guards/_workflows.py:571-635 | every condition can take some value, so soundness is never vacuous |
| `ExpressionLaws.ClosedIsKnown` | dev/guards/_workflows.py:517-538 | a condition with no call, missing operand or unbound reference is never MAYBE: its value is known and is the one it takes |
| `ExpressionLaws.OneOperandDecides` | dev/guards/_workflows.py:517-538 | a falsy operand decides `&&` and a truthy one its counterpart, on either side, however open the other is |
| `ExpressionLaws.AnswerHolds` | dev/guards/_workflows.py:638-656 | FALSE means falsy and TRUE truthy for every completion, and no later binding takes either back |
| `ExpressionLaws.RangeIsExact` | dev/guards/_workflows.py:571-635 | the range computed for a condition - one value, both truths, or anything - holds exactly the values it can take when each occurrence of an unbound reference counts on its own |
| `ExpressionLaws.OpenIffNotSettled` | dev/guards/_workflows.py:638-656 | each occurrence on its own, a condition can come out both ways if and only if its range is not a single value, and a known value is that range |
| `ExpressionLaws.MaybeIsOpen` | dev/guards/_workflows.py:587-597 | MAYBE leaves both answers possible, each occurrence on its own, unless somewhere an open truth value is compared with a constant no truth value equals |
| `ExpressionLaws.MaybeCanBeSettled` | dev/guards/_workflows.py:587-605 | such a comparison for which MAYBE is settled: one value is possible and no other |
| `ExpressionLaws.TakesIff` | dev/guards/_workflows.py:571-635 | with one value for each reference, the values a condition can come to are exactly those in its range under some binding of the unbound references it repeats |
| `ExpressionLaws.TakesIsEvaluates` | dev/guards/_workflows.py:571-635 | of a condition without calls, these are the values it evaluates to under some binding of all its references |
| `ExpressionLaws.UnrepeatedEvaluatesIff` | dev/guards/_workflows.py:571-635 | a condition without calls that repeats no unbound reference evaluates to a value under some further bindings if and only if the value is in its range |
| `ExpressionLaws.MaybeHasBothAnswers` | dev/guards/_workflows.py:638-656 | a condition that repeats no unbound reference comes out both ways under some bindings if and only if its range is not a single value; MAYBE then says so unless it compares an open truth value with a constant no truth value equals |
| `ExpressionLaws.RepeatedReferenceSettles` | dev/guards/_workflows.py:571-605 | a reference or its own negation: MAYBE, open occurrence by occurrence, and truthy for every value the reference is given |
| `Recipes.Expander.TargetCommands` | dev/guards/_workflows.py:749-767 | on any registry, cycles included, ends having seen only targets reachable from its own, with no reference left unfollowed, and lists exactly their commands, each once and in step order |
| `Recipes.Expander.CommandArgv` | dev/guards/_workflows.py:720-746 | a vector that re-enters no existing target is its own expansion; any other expands that target |
| `Recipes.FinalCommands` | dev/guards/_workflows.py:770-789 | each recipe line expands on its own: one that runs an existing verb and target of the harness lists exactly the commands reachable from that target, any other stands for itself |
| `Recipes.WholeExpansion` | dev/guards/_workflows.py:749-767 | started with nothing seen, what is seen in the end is exactly what is reachable |
| `Recipes.ReentryIff` | dev/guards/_workflows.py:720-728 | a vector re-enters a verb and target if and only if they follow "dev" right after its first "-m" |
| `Recipes.FindIff` | dev/toolchain.py:884-886 | a key finds the first target of its name in the first verb of its name, and nothing otherwise |
| `Recipes.FlattenedJoins` | dev/guards/_workflows.py:782-788 | the words of a line are flattened each on its own |
| `Recipes.FlattenedWords` | dev/guards/_workflows.py:782-788 | a word stands for itself and the harness's placeholder for its six words |
| `Dotenv.SplitJoined` | dev/init/dotenv.py:148-156 | writing lines and splitting them again gives the same lines |
| `Dotenv.SplitAtEnd` | dev/init/dotenv.py:117 | a text is split at every line end and nowhere else, a carriage return and line feed being one; a rest without an end is a line |
| `Dotenv.CommentedOutDeclares` | dev/init/dotenv.py:57-64 | an upper-case assignment declares its name live or commented out, indented or not; only the live one is an assignment in force |
| `Dotenv.LiveIsAssign` | dev/init/dotenv.py:63-64 | a live line is the plain assignment of its name and value, unless it is indented |
| `Dotenv.ReadValues` | dev/init/dotenv.py:102-125 | reads exactly when every line is readable, keeps the last value of a name at its first place, and otherwise names the first unreadable line |
| `Dotenv.Render` | dev/init/dotenv.py:128-156 | writes the example with each first declaration filled in and the rest in a trailing block; placed and undeclared names partition the input |
| `DotenvLaws.ReadBack` | dev/init/dotenv.py:128-156 | a declared name reads back as the example's last live line for it after its first declaration, or else as the value put in |
| `DotenvLaws.ConservesIff` | dev/init/dotenv.py:128-156 | every value survives, for all values, if and only if no example line is live under a name declared before it |
| `DotenvLaws.StableIffTidy` | dev/init/dotenv.py:213-280 | a second rendering equals the first, for all values, if and only if every live example line is unindented, template-matching and its name's first declaration |
| `DotenvLaws.SecondRunIsNoOpIff` | dev/init/dotenv.py:213-262 | the same byte for byte of whole files, and a written file is readable if and only if its example is |
| `DotenvLaws.RenderedIsReadable` | dev/init/dotenv.py:102-125 | rendering never makes a readable example unreadable or the reverse |
| `DotenvLaws.FreshTargetTakesTheSeed` | dev/init/dotenv.py:248-258 | a target that did not exist reads back the seed's value for each name the example declares, unless the example has a later live line for it; every other name reads as the example has it |
| `DotenvLaws.Worktree.Provision` | dev/init/dotenv.py:213-262 | exit code 1 writes nothing; exit code 0 leaves the rendering of the right values; a target already right is not written |
| `Admission.TruncationIsSafe` | src/vaultspec_rag/_gpu_admission.py:387-391 | for non-negative figures truncation admits nothing the exact sum refuses, and refuses only sums below the floor plus one mebibyte |
| `Admission.TruncationMargins` | src/vaultspec_rag/_gpu_admission.py:462-463 | a load that fits and is refused; and, outside what the device probe returns, a negative figure that would be overstated |
| `Admission.TruncatedIff` | src/vaultspec_rag/_gpu_admission.py:462-463 | a figure is cut toward zero, on either side of it |
| `Admission.StreakCounts` | src/vaultspec_rag/_gpu_admission.py:334-361 | the streak is the number of unreadable readings since the last figure |
| `Admission.RefusedIffThird` | src/vaultspec_rag/_gpu_admission.py:424-450 | over any history, the unreadable refusal comes exactly when this reading and at least two earlier ones since the last figure were present and unreadable |
| `Admission.RefusesIff` | src/vaultspec_rag/_gpu_admission.py:424-472 | over any history, the verdict gives a cause the gate refuses on if and only if the reading is the third unreadable one since a figure or its truncated figures miss the floor; the cause tells which, and the reported figures reproduce the verdict |
| `Admission.NeutralReadingsChangeNothing` | src/vaultspec_rag/_gpu_admission.py:346-352 | readings that never reached the question leave the streak as it was, however many are mixed in |
| `Admission.ZeroForTheRest` | src/vaultspec_rag/_gpu_admission.py:351-353 | a reading that is not unreadable is answered with zero, as documented of all of them, if and only if it carried a figure or no streak was running |
| `Admission.NonzeroForTheRest` | src/vaultspec_rag/_gpu_admission.py:351-360 | a history of two readings after which a reading that is not unreadable is answered with one |
| `Admission.Gate.ObserveUnreadableStreak` | src/vaultspec_rag/_gpu_admission.py:334-361 | records the reading and returns the streak of the whole history |
| `Admission.Gate.AdmitAcceleratorLoad` | src/vaultspec_rag/_gpu_admission.py:781-799 | one undisturbed call: unlatched and uncontended it is refused exactly on a third unreadable reading or figures that miss the floor, and otherwise loads; what it latches and records, and that it never leaves with the window held |
| `AdmissionProtocol.RunKeepsInv` | src/vaultspec_rag/_gpu_admission.py:781-799 | guard, window lock and phase of every thread agree in every reachable state |
| `AdmissionProtocol.OneUnlatchedLoad` | src/vaultspec_rag/_gpu_admission.py:638-692 | with threads and processes interleaving and no claim unavailable, at most one thread on the machine runs a load that no latch covers |
| `AdmissionProtocol.LoadsExclude` | src/vaultspec_rag/_gpu_admission.py:758-761 | even with claims unavailable, one process never runs two such loads and only one has the window's lock |
| `AdmissionProtocol.UnavailableWindowAdmitsTwo` | src/vaultspec_rag/_gpu_admission.py:611-635 | with the lock out of order two processes load at once |
| `AdmissionProtocol.ContentionIsForeign` | src/vaultspec_rag/_gpu_admission.py:660-663 | a thread that finds the window held is refused by another process, never by its own |
| `AdmissionProtocol.LoadsAreAdmitted` | src/vaultspec_rag/_gpu_admission.py:699-709 | a load no latch covers runs under a verdict that met the floor if it had a figure |
| `AdmissionProtocol.StreakIsOfReadings` | src/vaultspec_rag/_gpu_admission.py:334-361 | under any interleaving, the count each process keeps is the streak of its own readings since it began |
| `AdmissionProtocol.JudgedByReadings` | src/vaultspec_rag/_gpu_admission.py:712-799 | under any interleaving, a thread that judges a reading goes on to load if and only if the reading is not one that must be refused after all its process has read |
| `AdmissionProtocol.OutcomeByReadings` | src/vaultspec_rag/_gpu_admission.py:781-799 | what the undisturbed call comes to, in the readings of its process |
| `AdmissionProtocol.LatchIsWarranted` | src/vaultspec_rag/_gpu_admission.py:712-799 | the latch is set only if, since the last clear, a load of that process returned inside the window under a verdict that met the floor or was the capability verdict |
| `AdmissionCode.Machine.AdmitAcceleratorLoad` | src/vaultspec_rag/_gpu_admission.py:781-799 | the call with any other steps between its own: it takes only steps of the protocol; during this call a load runs under a latch it read as set or inside the window under a verdict that admits, and a refusal is by a window another process held or by a reading that must be refused, and by none else; left to itself it comes to what the undisturbed call does |
| `AdmissionCode.Machine.InWindow` | src/vaultspec_rag/_gpu_admission.py:638-692 | from the claim of the window to the settled latch, as steps of the protocol; refused by a window another process held, or exactly by a reading that must be refused |
| `Outline.Paths` | dev/generate_cli_reference.py:79-89 | the recursion and its accumulator list the leaf paths in order |
| `Outline.CommandTree` | dev/generate_cli_reference.py:149-169 | the loops over shared names rebuild what consecutive paths spell |
| `Outline.RebuildList` | dev/generate_cli_reference.py:149-169 | rebuilding any list of siblings with differing neighbours, after any previous path that parts from it, adds the missing groups and then the list in preorder |
| `Outline.RebuiltIsPreorder` | dev/generate_cli_reference.py:149-169 | flattening and rebuilding any tree with distinct sibling names lists it in preorder, each command at its own depth and kind |
| `Outline.PreorderListsEach` | dev/generate_cli_reference.py:149-169 | that outline has one line for each command |
| `Outline.Reference` | dev/generate_cli_reference.py:172-176 | the two loops run after each other give the preorder outline |
| `Outline.RebuiltIsPreorderIff` | dev/generate_cli_reference.py:149-169 | for every tree, the outline is rebuilt if and only if no command has the name of the sibling just before it; otherwise lines are missing |
| `Outline.RepeatedNameLosesAGroup` | dev/generate_cli_reference.py:154-157 | two neighbours of one name, of which a group is lost |
| `Polling.RunKeepsInv` | src/monitor/use-polling.ts:22-70 | controller, timer and requests of the effect agree after every handler of every event sequence |
| `Polling.PollsNeverOverlap` | src/monitor/use-polling.ts:27-61 | never a live request and a running timer at once, never two of either; while in force and visible the effect has a timer exactly when it has no request |
| `Polling.OnlyLiveRequestsStore` | src/monitor/use-polling.ts:34-46 | only the live request of the effect in force stores, under its own path; after cleanup nothing is stored or started |
| `Polling.LiveRequestStores` | src/monitor/use-polling.ts:34-46 | a request in force that was not aborted always stores: data with its time and no error, or an error over the data shown for the path so far |
| `Polling.ErrorIsTheLast` | src/monitor/use-polling.ts:34-46 | over any run, the error shown, or its absence, is what the last request to settle unaborted came to |
| `Polling.DelayTellsAborted` | src/monitor/use-polling.ts:48-54 | the next look is at once after an aborted request and after the interval otherwise |
| `Polling.ShownWasDelivered` | src/monitor/use-polling.ts:34-46 | over any run, data shown under a path was delivered, at the time shown, by a request for that path that was never aborted, whatever errors came since |
| `Polling.Poller.OnSettle` | src/monitor/use-polling.ts:31-55 | settling as the handler does it, one assignment at a time |
| `Polling.Poller.OnVisibility` | src/monitor/use-polling.ts:57-61 | hiding and showing as the handler does them |
| `Polling.Poller.OnCleanUp` | src/monitor/use-polling.ts:64-69 | the cleanup in the source's order |
| `AtomicWrite.BackoffBounds` | src/vaultspec_rag/_backoff.py:34-68 | a wait is never negative, never above its cap, and strays from the nominal by at most the fraction |
| `AtomicWrite.LadderWaits` | src/vaultspec_rag/_atomic_write.py:60-65 | the waits are 5, 10, 20, 40 and 80 ms, then 150, each within a quarter of that and none above 150; no jitter in the middle of the draws, a quarter less at their start |
| `AtomicWrite.LadderIsShort` | src/vaultspec_rag/_atomic_write.py:60-65 | the ladder's waits total at most 0.79375 s for every sequence of draws |
| `AtomicWrite.Retrying` | src/vaultspec_rag/_atomic_write.py:106-128 | lands exactly when one of the first ten tries lands with only sharing violations before it; otherwise nothing moved; total wait under 0.8 s |
| `AtomicWrite.WriteJsonAtomically` | src/vaultspec_rag/_atomic_write.py:195-270 | every state passed through has the whole old or the whole new target and touches no other file; published exactly when each step needed works, and then NotDurable exactly when a durable write could not sync the directory; other failures leave the old target; no temporary survives if unlinking works or the replace landed |
| `AtomicWrite.Publish` | src/vaultspec_rag/_atomic_write.py:244-267 | the guarded body: create, write, sync, replace, sync the directory |
| `Remediation.Registry.RecordVerdict` | src/vaultspec_rag/_integrity_remediation.py:160-205 | the registry step and the decision, for every verdict |
| `Remediation.Registry.ShrunkenObservations` | src/vaultspec_rag/_integrity_remediation.py:227-260 | drops exactly the expired entries and reports exactly what is left of the root |
| `Remediation.RequestsAreSpaced` | src/vaultspec_rag/_integrity_remediation.py:68-78 | two requests for one root and domain are at least 600 s apart unless a CONSISTENT verdict or an overflow falls between, even with clocks up to 150 s out of order |
| `Remediation.LargerSkewBreaksSpacing` | src/vaultspec_rag/_integrity_remediation.py:208-224 | for every larger disagreement, a run in which two requests come closer |
| `Remediation.RegistryIsBounded` | src/vaultspec_rag/_integrity_remediation.py:75-78 | never more than 256 entries |
| `Remediation.RequestedBeforeObserved` | src/vaultspec_rag/_integrity_remediation.py:186-203 | with times in order, no entry was requested after it was last observed |
| `Remediation.RememberedIff` | src/vaultspec_rag/_integrity_remediation.py:171-260 | over any run, a key is remembered if and only if a shrink was noted since which no consistent verdict, overflow or 900 s old look has come, and with the time of the last such note |
| `Remediation.JobAndRequestIff` | src/vaultspec_rag/_integrity_remediation.py:145-205 | a remembered key answers with the last job admitted and the last request made while it was remembered |
| `Remediation.RequestIff` | src/vaultspec_rag/_integrity_remediation.py:186-203 | a shrink asks for a repair if and only if repairs are enabled and the last request, if the key was remembered since, is 600 s old |
| `Advisories.BuildReport` | dev/audit/dependency_audit.py:507-552 | the loops over hits, names and suppressions build the report |
| `Advisories.ExpiryDay` | dev/audit/dependency_audit.py:509-513 | a suppression counts through its expiry day and is listed as lapsed from the day after; of several that count for an id, the last does |
| `Advisories.NoneFoundAgain` | dev/audit/dependency_audit.py:520-535 | no advisory is reported again under a name an earlier finding goes by |
| `Advisories.EveryHitIsReported` | dev/audit/dependency_audit.py:525-552 | every hit advisory is a finding's id or alias, and that finding holds every package it was hit on |
| `Advisories.PackagesOnly` | dev/audit/dependency_audit.py:536-538 | a finding holds no package that none of its names was hit on |
| `Advisories.PassesIff` | dev/audit/dependency_audit.py:464-472 | the gate passes exactly when nothing has lapsed and each finding is accepted under one of its names |
| `Advisories.MutualAliasesDecide` | dev/audit/dependency_audit.py:517-535 | with mutual alias lists the verdict is about the advisories alone: it passes exactly when every hit is accepted under one of its names |
| `Advisories.GateSpeaksForHitsIff` | dev/audit/dependency_audit.py:517-535 | whatever a list the loader takes accepts, accepting every finding is accepting every hit under a name it lists itself, if and only if every hit has a finding that goes by no other names |
| `Advisories.OneSidedAliasMasksAHit` | dev/audit/dependency_audit.py:517-535 | an input in sorted order, with a suppression the loader takes, where that fails: the gate passes though one hit is accepted under none of its names |
| `Advisories.StaleMatchesNothingIff` | dev/audit/dependency_audit.py:549-551 | every suppression listed as stale is under no name any hit lists if and only if each live one of those names is the first live name of some finding |
| `Advisories.StaleMayMatch` | dev/audit/dependency_audit.py:549-551 | an input, with suppressions the loader takes, where it is not: a suppression listed as stale matches a hit and its finding |

## Left out

- Operating-system calls: locks, the process table, Windows access lists, SQLite and Qdrant are the abstract primitives
  named above. A process identifier is not reused, a forked child starts with nothing held, and every process that
  publishes an owner record holds the anchor with write access.
- AnchorRecord.ReadsLatest: `os.write` writes the whole frame in one step; a short write is not modelled.
- AnchorRecord.ReadFrame: JSON is read by the grammar of the two record shapes this code writes; other JSON documents read
  as no record, and the start time is carried as its number text, not as a float.
- The run ledger's tables: a snapshot of it is a revision and an evidence map, equal revisions mean equal maps, and
  revisions never go back. The token's reservation and open-receipt fields are not modelled.
- Row payload schemas: a row is a refused one or an identity. The 256-row page bound is kept; the ledger's own batch bound
  is not.
- IndexAudit.AuditIndex: the scan is given the pages a backend would answer and stops with an error when they run out; the
  code detects only an immediate repeat of a cursor, so it would go round a longer cycle of cursors for ever.
- ExpressionLaws.Evaluate: bindings are strings, booleans, integers or none; floats and containers are left out.
- Recipe text: a recipe body is given as the words of its lines; parsing the justfile is left out.
- Dotenv.Render: file decoding, file modes and the messages shown are left out; a file is its text.
- The admission floor's configuration, the probe of the device itself and the messages of refusals.
- Admission.Gate.AdmitAcceleratorLoad: one call on its own; the guard and the second read of the latch are in
  AdmissionCode.
- AdmissionCode.Machine.AdmitAcceleratorLoad: waiting for the guard is given up after a bound, which the code does not have.
- The rendered Markdown of the outline: a leaf line is its depth and path, from which its link text and anchor are printed.
- Polling.ShownWasDelivered: decoding is part of a request's outcome, and React's batching of state updates is left out.
- AtomicWrite.WriteJsonAtomically: one writer; its temporary is one name given in advance. Flushing and closing are part of
  writing.
- Severity, summaries, surfaces and the sorted order of packages in the audit report; a finding holds a set of packages.
- The domain claims of `_evaluate_claim`, error classification, job values, index breadth, job admission, the gate scope and
  citation tools, and the command-line plumbing: each is a short chain of branches that a proof would restate.
