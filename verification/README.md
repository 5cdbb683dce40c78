# Verified models of the firmware's protocols

Dafny models of the hand-written concurrency and crash-recovery protocols of the S3 HID bot and
its host tools, with proofs of what they promise over whole runs.  `dafny verify dfyconfig.toml`
checks everything.

| files | component |
|---|---|
| `HidRoute*.dfy` | the lock-free output route: `HidRoute` is the state machine of atomic steps, `HidRouteInvariant` its invariant, `HidRouteSteps` and `HidRouteStable` the proof that every step keeps it, `HidRouteSafety`, `HidRouteSnapshots`, `HidRouteUsb` and `HidRouteClaims` the theorems over runs, `HidRouteOutcomes` and `HidRouteMatches` what the answers mean, `HidRouteSolo`, `HidRouteRefusals` and `HidRouteHandover` what each operation does without interference, `HidRouteLimits` where the theorems stop |
| `Sequence*.dfy`, `Decimal.dfy` | the sequence engine: key array in place, token language and parser, packed status word, and the race of control task and worker; `SequenceReports` what is sent, `SequenceProgress` each task on its own |
| `Bond*.dfy`, `StoreIdentities.dfy` | journaled bond deletion over 27 slots with restart recovery |
| `OrphanRecovery.dfy`, `SchemaKeys.dfy` | startup recovery of orphaned schema records, and their names |
| `Hci*.dfy` | ownership of a controller connection between ingress and resolver, and the leases |
| `Framing*.dfy` | the UART framer against a grammar of the byte stream |
| `Session*.dfy` | sessions, leases and retry caches; at-most-once execution |
| `Lifecycle*.dfy` | the generation-fenced BLE lifecycle and the host's check of its snapshots |
| `Journal.dfy`, `EvidenceContract.dfy` | the write-once evidence journal |

**Form.**  Code that runs on one task is modelled as classes, methods and loops over fields and
arrays, proved against functions, and theorems about those functions follow.  The three
concurrent protocols (route, sequence, HCI) are state machines whose steps are the atomic
accesses of the source, with a program counter and local variables for each task; a
compare-and-swap loop is one step.  Fields marked aux (or ghost) record history and decide
nothing.  Failures and crashes are the same thing wherever the source returns on the first
failed access: an access may fail before or after it has taken effect.

**Where the code does not do what one might expect.**

- `matches(none, g)` can return true after the invalidation of g was accepted: with no route there
  is nothing to retire and the slot is consumed at once.  The invalidation theorem is for routes.
- The gate of an exact claim is certain only on a stable USB route.  On any other one, a writer
  that comes between the publication of the token and the claim's own entry clears the token as
  superseded, and the claim is still granted.  The equivalence is proved.
- A transition retry replaces the record of the last request, so that any id would be executed
  next.  Both callers (`control_protocol.cpp`, lines 1818-1823 and 2069-2074) end the session at
  once with the epoch that the transition has opened; ids are unique exactly because that epoch
  is another one.
- `begin_stop` can be refused after its fence, and then enables ingress again.  If the host's reset
  callback is inside `retire_hci_establishment` at that moment, the rest of the retirement clears a
  record that the reopened ingress is filling.  A run shows it; with one lifecycle task at a time
  the record is whole.
- The snapshot of a hidden initialisation (hidden and enabling) is reachable and is refused by the
  host's exposure check; every other reachable snapshot is accepted.

## Model

| member | source | states |
|---|---|---|
| HidRouteSafety.RunInv | firmware/components/hid_route/hid_route.cpp:35-598 | any number of threads, any interleaving of the atomic steps of all operations: the shared and per-thread invariants hold in every world of every run |
| HidRouteSteps.EveryStepKept | firmware/components/hid_route/hid_route.cpp:35-598 | one atomic step of any thread at any program point keeps the invariant and respects what every other thread relies on |
| HidRouteStable.ThreadStable | firmware/components/hid_route/hid_route.cpp:160-235 | what a thread knows of its writer, slots, tokens, snapshot and claim survives every step of the others |
| HidRouteSafety.InvalidatedGenerationNeverMatches | firmware/components/hid_route/hid_route.cpp:65-235 | once publish_durable_invalidation has accepted generation g for anybody, no matches(route, g) called later returns true, for every route but none, also if another thread carries the retirement out |
| HidRouteSafety.HistoryIsOrderly | firmware/components/hid_route/hid_route.cpp:278-472 | of everything ever published: stable means desired equals active, releasing means desired none and active not none, USB and BLE are never adjacent, and between publications the four fields are the last one |
| HidRouteSafety.OneActivationAGeneration | firmware/components/hid_route/hid_route.cpp:298-472 | a generation labels one activation: between two publications of one generation with a route, it is that route throughout |
| HidRouteSafety.ActiveRouteChangesThroughNone | firmware/components/hid_route/hid_route.cpp:315-470 | the active route, as loaded at any moment, changes only from none or to none |
| HidRouteSafety.OnlyTheWriterStoresFields | firmware/components/hid_route/hid_route.cpp:160-166 | the four fields and the publication counter change only in a step of the thread that holds the writer |
| HidRouteSafety.EveryExitFreesTheWriter | firmware/components/hid_route/hid_route.cpp:278-598 | between operations a thread holds the writer exactly if it holds a claim |
| HidRouteSnapshots.CoherentSnapshotIsOneInstant | firmware/components/hid_route/hid_route.cpp:35-63 | a coherent snapshot is the value of all four fields at one instant of the call, between two publications |
| HidRouteSnapshots.SnapshotIsSettledOrClosed | firmware/components/hid_route/hid_route.cpp:35-63 | a coherent snapshot is settled (stable or releasing as above); any other one shows no route and pending |
| HidRouteSnapshots.NotPendingWasSeen | firmware/components/hid_route/hid_route.cpp:43-52 | a coherent snapshot that says not pending saw no USB publication or veto, no token and no durable invalidation at three instants of the call, through which the fields were the ones it shows |
| HidRouteUsb.FinishMeansNoVeto | firmware/components/hid_route/hid_route.cpp:93-132 | finish_usb_publication succeeds only if no lifecycle veto came since its thread read the cut |
| HidRouteUsb.UsbCommitTrueMeansNoVeto | firmware/components/hid_route/hid_route.cpp:278-368 | commit_usb_if_none(cut) returns true only if its publication finished in that call and no veto came between the reading of cut and that step |
| HidRouteUsb.UsbMatchMeansNoVeto | firmware/components/hid_route/hid_route.cpp:65-75 | matches(USB, g) called once g is the generation returns true only after the publication of g finished unvetoed |
| HidRouteUsb.ActivePublicationShutsTheGate | firmware/components/hid_route/hid_route.cpp:65-75 | every call of matches that takes its first step while a USB publication is active or vetoed returns false, whatever happens around it |
| HidRouteMatches.MatchesTrueMeansActive | firmware/components/hid_route/hid_route.cpp:65-81 | matches(route, g) that returns true has seen, in this order, no USB publication or veto, no token, no durable invalidation, the route active and the generation g; and a g that was not still to come was the generation at the moment the route was active |
| HidRouteMatches.MatchesFalseMeansNot | firmware/components/hid_route/hid_route.cpp:65-81 | one that returns false met something pending, another route or another generation at an instant of the call |
| HidRouteOutcomes.TrueMeansDone | firmware/components/hid_route/hid_route.cpp:278-506 | in every run a commit, begin_release, complete_release, invalidate or invalidate_if_matches that returns true has held the writer, found the published fields exactly as it needs them (complete_release: its expected stage A) with nothing pending seen by a transition, and published its result as the very next publication; the stage A that begin_release returns is that publication |
| HidRouteOutcomes.TrueMeansInForce | firmware/components/hid_route/hid_route.cpp:354-404 | a commit or begin_release that returns true has also seen its own publication in force, coherent and not pending, at an instant after it gave up the writer |
| HidRouteOutcomes.CompletedMeansClear | firmware/components/hid_route/hid_route.cpp:406-432 | a complete_release that returns true has seen, after its publication, no USB publication or veto, no token and no durable invalidation |
| HidRouteClaims.GrantedClaimIsExact | firmware/components/hid_route/hid_route.cpp:508-559 | kClaimedExact: the writer is held, the route is exactly the expected one, not retired, and on a stable USB route the token shuts the gate |
| HidRouteClaims.ClaimedRouteIsTheHolders | firmware/components/hid_route/hid_route.cpp:508-559 | while a claim is live no step of another thread changes anything of the route or of the claim |
| HidRouteClaims.LiveThroughout | firmware/components/hid_route/hid_route.cpp:555-558 | a claim is live for one stretch, and what it expects, its holder and its retirement never go back |
| HidRouteClaims.RetiredAtMostOnceAndExactly | firmware/components/hid_route/hid_route.cpp:573-587 | between grant and release the route is published at most once more, and then it is none in the generation after the expected one |
| HidRouteClaims.RetireSucceedsOnce | firmware/components/hid_route/hid_route.cpp:573-587 | retire() returns true exactly if the claim was not retired before, and then has published that and nothing else |
| HidRouteClaims.ReleaseFreesWriterAndToken | firmware/components/hid_route/hid_route.cpp:589-598 | release() holds the writer up to its last step, gives it up with that step, and leaves the token withdrawn |
| HidRouteClaims.TokenNeverReturns | firmware/components/hid_route/hid_route.cpp:237-267 | a token that has been withdrawn is never published again |
| HidRouteClaims.ClaimKeepsTheGateShut | firmware/components/hid_route/hid_route.cpp:508-559 | while a claim on a stable USB route is live and its holder has not cancelled its own token, every matches for a route that is called and answered returns false |
| HidRouteSolo.SnapsAlone | firmware/components/hid_route/hid_route.cpp:35-63 | without interference a snapshot shows the fields, coherent and not pending |
| HidRouteSolo.BleCommitsAlone | firmware/components/hid_route/hid_route.cpp:278-372 | without interference, from a calm world without a route, commit_ble_if_none publishes the stable BLE route of the next generation and nothing else, frees the writer and returns true |
| HidRouteSolo.UsbCommitsAlone | firmware/components/hid_route/hid_route.cpp:278-368 | the same for commit_usb_if_none with the current cut, and its publication is finished |
| HidRouteSolo.BeginsReleaseAlone | firmware/components/hid_route/hid_route.cpp:374-404 | begin_release of the stable route publishes stage A, returns it and true |
| HidRouteSolo.CompletesReleaseAlone | firmware/components/hid_route/hid_route.cpp:406-432 | complete_release with stage A publishes none in the next generation and returns true |
| HidRouteSolo.InvalidatesAlone | firmware/components/hid_route/hid_route.cpp:474-485 | invalidate retires any route to none in the next generation and leaves nothing pending |
| HidRouteRefusals.OtherFieldsAreRefused | firmware/components/hid_route/hid_route.cpp:285-432 | from a calm world a transition that finds other fields than it needs returns false and changes nothing: a commit on a route, a release of another or unsettled route, the completion of another release than its expected one |
| HidRouteRefusals.PendingIsRefused | firmware/components/hid_route/hid_route.cpp:71-81 | while a USB publication or veto, a token or a durable invalidation is there, a transition refuses and leaves the route as it is |
| HidRouteRefusals.BusyIsRefused | firmware/components/hid_route/hid_route.cpp:281-432 | while another thread writes, a transition returns false at once and changes nothing |
| HidRouteRefusals.OldCutIsRefused | firmware/components/hid_route/hid_route.cpp:110-125 | a USB commit with a cut that is out of date returns false and changes nothing |
| HidRouteRefusals.DisturbedCommitIsUndone | firmware/components/hid_route/hid_route.cpp:311-324 | a commit that sees a token, a durable invalidation or a veto in its middle publishes no route, drops its USB publication and returns false |
| HidRouteRefusals.VetoedCommitIsRetired | firmware/components/hid_route/hid_route.cpp:338-344 | a USB commit that was vetoed before it could finish retires its route, opens the gate under a later serial and returns false |
| HidRouteRefusals.RetiresAlone | firmware/components/hid_route/hid_route.cpp:450-472 | commit_none_locked on exactly its route and generation publishes none in the next one |
| HidRouteRefusals.RetireRefuses | firmware/components/hid_route/hid_route.cpp:450-458 | on no route, or on another route or generation, it changes nothing |
| HidRouteHandover.InvalidatesIfAlone | firmware/components/hid_route/hid_route.cpp:487-506 | invalidate_if_matches on exactly the expected route retires it, leaves nothing pending and returns true |
| HidRouteHandover.OtherRouteIsNotInvalidated | firmware/components/hid_route/hid_route.cpp:487-495 | on any other it returns false and changes nothing |
| HidRouteHandover.NothingToExpect | firmware/components/hid_route/hid_route.cpp:487-514 | without a coherent route to expect, an invalidation and a claim do nothing |
| HidRouteHandover.InvalidateAsksTheWriter | firmware/components/hid_route/hid_route.cpp:224-235 | while another thread writes, invalidate returns false and leaves the current generation in the slot, accepted |
| HidRouteHandover.LeavingWriterRetires | firmware/components/hid_route/hid_route.cpp:193-222 | the writer that leaves and finds it there retires the route, frees the slot and the writer |
| HidRouteHandover.InvalidateJoins | firmware/components/hid_route/hid_route.cpp:224-231 | a second invalidation of the generation in the slot joins it, one of another generation is not accepted |
| HidRouteHandover.LeavingKeepsGate | firmware/components/hid_route/hid_route.cpp:168-191 | a writer that leaves keeps a token that shuts the gate of the stable USB route and drops any other |
| HidRouteHandover.ClaimsAlone | firmware/components/hid_route/hid_route.cpp:508-559 | a claim on the current route is granted: exact, with its token published for that generation and the writer held |
| HidRouteHandover.ClaimWaitsForWriter | firmware/components/hid_route/hid_route.cpp:508-559 | while another thread writes it is pending and keeps its token |
| HidRouteHandover.ClaimsAgain | firmware/components/hid_route/hid_route.cpp:247-276 | the next try with that token is granted once the writer is free |
| HidRouteHandover.StaleClaimIsRefused | firmware/components/hid_route/hid_route.cpp:515-530 | a claim on a route that has gone is stale and changes nothing |
| HidRouteHandover.ForeignTokenBlocks | firmware/components/hid_route/hid_route.cpp:254-261 | while another token is out a claim is stale and takes none |
| HidRouteHandover.InexactClaimWithdraws | firmware/components/hid_route/hid_route.cpp:538-555 | a claim that enters the writer and finds another route withdraws its token and leaves |
| HidRouteHandover.StaleTryWithdrawsToken | firmware/components/hid_route/hid_route.cpp:515-530 | with a token of an earlier try it withdraws that token and nothing else |
| HidRouteHandover.CancelsAlone | firmware/components/hid_route/hid_route.cpp:561-571 | cancel_conditional_invalidation withdraws the caller's token exactly if it is out for that generation |
| HidRouteHandover.VetoesAlone | firmware/components/hid_route/hid_route.cpp:93-108 | a veto moves the serial on, marks an active publication and neither opens nor shuts the gate otherwise |
| HidRouteHandover.CutsAlone | firmware/components/hid_route/hid_route.cpp:89-91 | a cut is the publication state of that moment |
| HidRouteHandover.SnapsThreeTimes | firmware/components/hid_route/hid_route.cpp:35-63 | a snapshot that meets a publication at every try gives up after the third, closed |
| HidRouteLimits.NoRouteMatchesAfterInvalidation | firmware/components/hid_route/hid_route.cpp:474-485 | the invalidation theorem fails for "no route": from every quiet world without a route, an accepted invalidation of g is followed by matches(none, g) returning true |
| HidRouteLimits.OtherClaimsLoseTheGate | firmware/components/hid_route/hid_route.cpp:168-191 | from every quiet world with a route that is not stable USB, a claim can be granted whose token another thread has already cleared, and matches returns true |
| HidRouteLimits.GateHoldsExactlyForStableUsb | firmware/components/hid_route/hid_route.cpp:168-191 | in the continuations of a quiet world the gate of a claim on its route holds if and only if that route is stable USB |
| HidRouteLimits.NoRouteMatchesFromColdBoot | firmware/components/hid_route/hid_route.cpp:474-485 | a run from the cold boot in which matches(none, 0) returns true after generation 0 was invalidated |
| HidRouteLimits.BleClaimLosesTheGate | firmware/components/hid_route/hid_route.cpp:168-191 | a run from the cold boot in which a live claim on the stable BLE route has an open gate |
| HidRouteLimits.ReleasingClaimLosesTheGate | firmware/components/hid_route/hid_route.cpp:168-191 | the same for a USB route that is being released |
| SequenceKeys.HidState.Apply | firmware/components/hid_sequence/hid_sequence.cpp:54-115 | apply_transition, in place: fails, and changes the state, exactly as Transition says, for every state and operation |
| SequenceKeys.HidState.Press | firmware/components/hid_sequence/hid_sequence.cpp:89-107 | the search, the shift and the store give the sorted insertion before the first empty slot |
| SequenceKeys.HidState.Release | firmware/components/hid_sequence/hid_sequence.cpp:108-113 | the shift down gives the array without the key |
| SequenceKeys.PressInserts | firmware/components/hid_sequence/hid_sequence.cpp:89-107 | on a canonical array pressing an ordinary key inserts it into the set of keys, and fails exactly if it is new and six are down |
| SequenceKeys.ReleaseRemoves | firmware/components/hid_sequence/hid_sequence.cpp:108-113 | on a canonical array releasing an ordinary key takes it out of the set of keys and nothing else |
| SequenceKeys.TransitionRefinesSets | firmware/components/hid_sequence/hid_sequence.cpp:54-115 | every operation keeps the array canonical, changes only its own part of the state, and fails exactly in the one case |
| SequenceKeys.CanonicalIsUnique | firmware/components/hid_sequence/hid_sequence.cpp:82-113 | a canonical array is determined by its set of keys, so the set refinement says everything about it |
| SequenceKeys.ModifierIsOneBit | firmware/components/hid_sequence/hid_sequence.cpp:72-81 | pressing or releasing a modifier changes that bit alone |
| SequenceKeys.ButtonIsOneBit | firmware/components/hid_sequence/hid_sequence.cpp:43-67 | pressing or releasing a mouse button changes that bit alone |
| SequenceReports.KeyMovesAlone | firmware/components/hid_sequence/hid_sequence.cpp:72-113 | by usage number: pressing a key puts exactly that key down, releasing it lets exactly that key up; usages 224 to 231 are bits 0 to 7 of the modifiers, all others are slots |
| SequenceReports.ButtonTokens | firmware/components/hid_sequence/hid_sequence.cpp:43-52 | the button letters of the tokens and their bits |
| SequenceText.ParseNumber | firmware/components/hid_sequence/hid_sequence.cpp:23-41 | parse_number accepts exactly the canonical decimal printings of the numbers up to its bound |
| SequenceText.PrintInjective | firmware/components/hid_sequence/hid_sequence.cpp:227-273 | a text has at most one reading as a list of operations |
| SequenceText.NextToken | firmware/components/hid_sequence/hid_sequence.cpp:231-238 | every reading of a text agrees with what has been read of it, and the next token prints its next operation |
| SequenceParser.ParseToken | firmware/components/hid_sequence/hid_sequence.cpp:235-258 | a token is accepted exactly if some valid operation prints as it |
| SequenceParser.Parse | firmware/components/hid_sequence/hid_sequence.cpp:219-291 | a text is accepted if and only if it prints some valid plan within the limits that can be carried out from the given state; the plan is that one, with its total pause and its roles |
| SequenceParser.PlanDuration | firmware/components/hid_sequence/hid_sequence.cpp:275-288 | the duration check is the check of the total of all waits and of the default delay after each non-final report; the running total stays within 32 bits |
| SequenceParser.ReadingsAreUnique | firmware/components/hid_sequence/hid_sequence.cpp:219-291 | printing an accepted plan gives the text back, and two accepted plans of one text are the same |
| SequenceParser.PlanKeepsCanonical | firmware/components/hid_sequence/hid_sequence.cpp:259-261 | from a canonical state an accepted plan only reaches canonical states |
| SequenceStatus.FieldsAreApart | firmware/components/hid_sequence/hid_sequence.cpp:142-193 | in the 32-bit word no field disturbs another |
| SequenceStatus.DecodeEncode | firmware/components/hid_sequence/hid_sequence.cpp:152-193 | encode then decode is the identity exactly for words whose counts fit their bits |
| SequenceStatus.EncodeInjective | firmware/components/hid_sequence/hid_sequence.cpp:152-166 | comparing two packed words compares their meanings |
| SequenceStatus.WordSample | firmware/components/hid_sequence/hid_sequence.cpp:142-166 | four packed words bit by bit |
| SequenceRaceSafety.RunInv | firmware/components/hid_sequence/hid_sequence.cpp:344-765 | the invariant of control task, worker and shared word holds under every interleaving of start, abort, abort_for_release, retire_owner and run |
| SequenceRaceSafety.TransitionsSucceed | firmware/components/hid_sequence/hid_sequence.cpp:694 | the result of apply_transition that run ignores is never false, because parse has simulated the same fold |
| SequenceRaceSafety.OnlyReleaseWins | firmware/components/hid_sequence/hid_sequence.cpp:487-497 | only abort_for_release makes an abort release-owned, at the swap of the word |
| SequenceRaceSafety.WinningReleaseAnswersTrue | firmware/components/hid_sequence/hid_sequence.cpp:494-504 | the abort_for_release that wins answers true |
| SequenceRaceSafety.AcceptedPlansAreGood | firmware/components/hid_sequence/hid_sequence.cpp:367-379 | every plan parse accepts can be carried out operation by operation |
| SequenceRaceSafety.TerminalIsFinal | firmware/components/hid_sequence/hid_sequence.cpp:593-614 | a terminal status word does not change until the next start |
| SequenceRaceSafety.EverySequenceEndsWell | firmware/components/hid_sequence/hid_sequence.cpp:669-765 | a completed sequence has executed every operation and sent exactly the reports of the folded plan, with no cleanup; one that sent a report and did not complete is cleaned up by exactly one of a worker safety release and a release-owned abort |
| SequenceReports.CompletedSendsStates | firmware/components/hid_sequence/hid_sequence.cpp:566-591 | a completed sequence has sent one report for every key or mouse operation of its plan, in order: with the modifiers and keys, or the buttons, of the state after that operation |
| SequenceReports.ReportShowsKey | firmware/components/hid_sequence/hid_sequence.cpp:566-580 | the report of a key operation shows that key pressed or released, by its usage number |
| SequenceReports.WaitsAsScheduled | firmware/components/hid_sequence/hid_sequence.cpp:688-696 | whenever the worker waits, it waits for what parse has counted for that operation, so its pauses stay within the checked total |
| SequenceProgress.StartsAlone | firmware/components/hid_sequence/hid_sequence.cpp:344-404 | a start that is admitted reserves the next generation and publishes a fresh sequence of that plan for the worker |
| SequenceProgress.StartIsBusy | firmware/components/hid_sequence/hid_sequence.cpp:353-358 | while a sequence is reserved a start is refused and changes nothing of it |
| SequenceProgress.StartIsRefused | firmware/components/hid_sequence/hid_sequence.cpp:361-376 | a plan that is not admitted leaves no reservation and the last record |
| SequenceProgress.CompletesAlone | firmware/components/hid_sequence/hid_sequence.cpp:634-766 | a started sequence that nobody disturbs completes: all operations executed, all reports sent, no release, the reservation free |
| SequenceProgress.StopsBefore | firmware/components/hid_sequence/hid_sequence.cpp:670-687 | before each operation cancellation, lost authority and the deadline stop the sequence, in this order of precedence, each with its state, code and token |
| SequenceProgress.StopsAfter | firmware/components/hid_sequence/hid_sequence.cpp:711-728 | and so after it, before it is counted |
| SequenceProgress.ReportFails | firmware/components/hid_sequence/hid_sequence.cpp:583-589 | a report that is not accepted fails the sequence with its own code, busy only once its time is over |
| SequenceProgress.BusyIsRetried | firmware/components/hid_sequence/hid_sequence.cpp:583-590 | a busy report is sent again, with the same state |
| SequenceProgress.WaitFails | firmware/components/hid_sequence/hid_sequence.cpp:697-710 | a wait that is cut short aborts or fails the sequence with the right code |
| SequenceProgress.VerdictIsPublished | firmware/components/hid_sequence/hid_sequence.cpp:745-766 | the verdict is published if the sequence is still running, and one safety release follows |
| SequenceProgress.AbortedBeforeItRuns | firmware/components/hid_sequence/hid_sequence.cpp:644-663 | a sequence aborted before the worker came to it sends nothing and asks for one safety release, unless the abort was for a release |
| SequenceProgress.WithdrawnBeforeItRuns | firmware/components/hid_sequence/hid_sequence.cpp:634-642 | one whose record was withdrawn is only taken down |
| SequenceProgress.AbortsAlone | firmware/components/hid_sequence/hid_sequence.cpp:436-475 | abort cancels the current generation and aborts its word at the token it has reached |
| SequenceProgress.ReleasesAlone | firmware/components/hid_sequence/hid_sequence.cpp:477-505 | abort_for_release of a live sequence makes its word release-owned and returns true |
| SequenceProgress.RetiresOwner | firmware/components/hid_sequence/hid_sequence.cpp:511-531 | retire_owner withdraws the record of that owner's sequence and cancels it |
| SequenceProgress.OtherOwnerStays | firmware/components/hid_sequence/hid_sequence.cpp:511-522 | of any other owner it changes nothing |
| SequenceRaceSafety.WordFits | firmware/components/hid_sequence/hid_sequence.cpp:616-632 | while it is not completed, executed is below the count; Completed is published only with executed equal to the count; every count fits its bits |
| SequenceRaceSafety.ReleaseAnswersRight | firmware/components/hid_sequence/hid_sequence.cpp:477-509 | abort_for_release answers true exactly if there is no sequence, or the current one is completed or aborted by a release |
| SequenceRaceSafety.PackingLosesNothing | firmware/components/hid_sequence/hid_sequence.cpp:142-193 | the words of a run pack without loss and compare as their meanings do |
| BondSlots.DeletionSlot | firmware/components/ble_transport/bond_delete_transaction.hpp:58-72 | a key is accepted and recognised exactly if it is one of the 27 names; a known prefix with any other rest is refused, other keys are left alone |
| BondSlots.SlotKeysDistinct | firmware/components/ble_transport/bond_delete_transaction.hpp:52-67 | the 27 slot names are distinct |
| BondSlots.SlotNames | firmware/components/ble_transport/bond_delete_transaction.hpp:44-52 | the names of the first and last slot of each category, and the layouts of their records |
| BondStore.Store.ValidateLayout | firmware/components/ble_transport/ble_transport.cpp:866-888 | accepted exactly if every key of a known category is one of the 27 names and holds a blob |
| BondDelete.ReceiptRoundTrip | firmware/components/ble_transport/bond_delete_transaction.hpp:31-42 | a receipt decodes to an identity if and only if the identity is valid and the bytes are its receipt |
| BondDelete.TargetDeleteScan | firmware/components/ble_transport/bond_delete_transaction.hpp:106-137 | accepts only a valid target, a sound layout and sound records without an alias of the target, and selects exactly the slots that hold the target; a reliable store is accepted exactly then |
| BondDelete.AliasOfTargetIsTargets | firmware/components/ble_transport/bond_delete_transaction.hpp:106-135 | by the bytes of the RPA records: in an accepted store an alias that is the target stands in a record of the target |
| BondDelete.ForeignAliasIsRefused | firmware/components/ble_transport/bond_delete_transaction.hpp:106-135 | one record of another peer with such an alias makes the store unacceptable |
| BondDelete.VerifyDurableTargetAbsent | firmware/components/ble_transport/bond_delete_transaction.hpp:139-146 | succeeds only if the scan is accepted and the target is in no slot, schema or association record |
| BondDelete.CompleteDurableTarget | firmware/components/ble_transport/bond_delete_transaction.hpp:148-166 | however it ends only records of the target have gone; nothing at all if the scan is not accepted; success means the target is absent, and a reliable store always succeeds |
| BondDelete.ReadDeleteIntent | firmware/components/ble_transport/bond_delete_transaction.hpp:80-88 | reports a receipt only as what it decodes to |
| BondDelete.BeginDeleteIntent | firmware/components/ble_transport/bond_delete_transaction.hpp:90-101 | leaves the store as it was or with exactly the target's receipt, and never replaces a receipt |
| BondDelete.FinishDeleteIntent | firmware/components/ble_transport/bond_delete_transaction.hpp:168-179 | erases the receipt only when the target is absent |
| BondDelete.ResumeExactDeletion | firmware/components/ble_transport/bond_delete_transaction.hpp:181-188 | restart recovery from any store: nothing without a receipt, nothing on a bad receipt or a store that cannot be scanned, else only the named peer's records go and the receipt only after all of them |
| BondDelete.RunJournaledRemoval | firmware/components/ble_transport/bond_delete_transaction.hpp:190-204 | cut anywhere, a removal leaves the store untouched, or the receipt naming the target, or the target fully absent; it refuses a bad store or a pending receipt before any change; on a reliable store it succeeds exactly if it is not refused and both RAM calls do, and otherwise leaves the receipt |
| BondDelete.RemovalWithRestarts | firmware/components/ble_transport/bond_delete_transaction.hpp:181-204 | a removal cut anywhere and any number of restarts cut anywhere, then one error-free restart: no receipt, and the target gone without a trace or the store as it was; other identities untouched |
| BondDelete.ScanStaysAccepted | firmware/components/ble_transport/bond_delete_transaction.hpp:106-137 | an accepted scan cannot start failing as records of the target go |
| BondDelete.ResumeKeepsRecoverable | firmware/components/ble_transport/bond_delete_transaction.hpp:181-188 | an interrupted restart keeps a removal recoverable |
| SchemaKeys.SchemaKey | firmware/components/ble_transport/ble_transport.cpp:327-336 | writes the canonical 15-character name of an identity and its terminator |
| SchemaKeys.KeyDigits | firmware/components/ble_transport/ble_transport.cpp:327-336 | the name character by character: r, then two lower-case digits for the type and each byte, high digit first |
| SchemaKeys.ParseSchemaKey | firmware/components/ble_transport/persistent_store_recovery.hpp:63-92 | parses a key to an identity if and only if the identity is valid and the key is its canonical name; it never reads past the terminator |
| SchemaKeys.KeyTextInjective | firmware/components/ble_transport/ble_transport.cpp:327-336 | different identities have different names |
| OrphanRecovery.CheckValidSet | firmware/components/ble_transport/persistent_store_recovery.hpp:104-120 | valid_set: trustworthy, within capacity, all identities valid and distinct |
| OrphanRecovery.SameSet | firmware/components/ble_transport/persistent_store_recovery.hpp:133-144 | same_set: true exactly if both sets are valid and have the same members |
| OrphanRecovery.IdentityLess | firmware/components/ble_transport/persistent_store_recovery.hpp:157-168 | identity_less orders by type and then by the bytes: the order of the identities read as numbers |
| OrphanRecovery.RecoveryPlan.Collect | firmware/components/ble_transport/persistent_store_recovery.hpp:198-209 | collects exactly the schema identities that are not bonded, without duplicates |
| OrphanRecovery.RecoveryPlan.Sort | firmware/components/ble_transport/persistent_store_recovery.hpp:210-220 | the in-place exchange sort makes the list strictly ascending and keeps its elements |
| OrphanRecovery.RecoveryPlan.Make | firmware/components/ble_transport/persistent_store_recovery.hpp:172-223 | Ready if and only if the five sets are valid, persistent and restored agree and both halves of every bond exist; then the list is the strictly ascending schema identities minus the bonded ones |
| OrphanRecovery.AscendingIsUnique | firmware/components/ble_transport/persistent_store_recovery.hpp:210-220 | a set has one ascending list |
| OrphanRecovery.ReplanIsSuffix | firmware/components/ble_transport/persistent_store_recovery.hpp:172-223 | planning again after the first k deletions gives exactly the rest of the list |
| OrphanRecovery.RunOrphanRecovery | firmware/components/ble_transport/persistent_store_recovery.hpp:230-244 | exactly the completed part of the list has gone, and on a failure at most the next one with it |
| OrphanRecovery.ReadSchemas | firmware/components/ble_transport/ble_transport.cpp:508-549 | the inventory is a valid set of the stored identities, in any order, or is not trusted |
| OrphanRecovery.RecoverOrphans | firmware/components/ble_transport/ble_transport.cpp:755-795 | one startup removes only schema records without a bond, all of them on success, and nothing when the model is inconsistent |
| OrphanRecovery.RecoveryWithRestarts | firmware/components/ble_transport/ble_transport.cpp:755-795 | any number of interrupted startups and one that is not leave exactly the schema records of the bonds |
| HciSafety.RunInv | firmware/components/ble_transport/ble_transport.cpp:1784-2061 | the invariant of ingress, resolver and record holds whatever the lifecycle task stores and when |
| HciSafety.CurrentForOneStretch | firmware/components/ble_transport/ble_transport.cpp:181-194 | an establishment id is current for one stretch of the run and never returns |
| HciSafety.ClearsOnlyWhatItRead | firmware/components/ble_transport/ble_transport.cpp:2003-2061 | the resolver clears only the id it read at the start of its call, and that id was current at every moment in between, so no successor was recorded during the probe |
| HciProgress.ClearedForAReason | firmware/components/ble_transport/ble_transport.cpp:2018-2056 | in every run it clears only if in that call the host knew the connection or the controller answered the probe that it does not |
| HciProgress.RegisteredIsCleared | firmware/components/ble_transport/ble_transport.cpp:2018-2034 | alone, an establishment whose connection the host knows is cleared without a report |
| HciProgress.AbsentIsCleared | firmware/components/ble_transport/ble_transport.cpp:2044-2056 | one that the controller does not know is cleared, with its probe claim, without a report |
| HciProgress.OthersAreKept | firmware/components/ble_transport/ble_transport.cpp:2057-2061 | one that the controller still has is kept with its probe claim, and reported unless the disconnect was sent and exposure is to be hidden |
| HciProgress.OutdatedIsReported | firmware/components/ble_transport/ble_transport.cpp:2013-2019 | one of another stack or generation is kept and reported |
| HciSafety.ProbesItsOwnHandle | firmware/components/ble_transport/ble_transport.cpp:2003-2044 | the probe is made on the handle its establishment was published with, or on none after a reset |
| HciConnections.ConnectionIsNeverLost | firmware/components/ble_transport/ble_transport.cpp:1784-1894 | while ingress stays enabled in one epoch, every successful peripheral Connection Complete is recorded under a new id, with the stack and generation current at the stores and its own handle but for what a retirement clears in between; or found recorded with the current stack and generation and its handle; or a hand-off failure is reported |
| HciConnections.RecordedWhole | firmware/components/ble_transport/ble_transport.cpp:1859-1894 | if the lifecycle's two tasks are never at work at the same time, nothing is cleared: the published record is exactly that stack, that generation and its own handle |
| HciProgress.ConnectsAlone | firmware/components/ble_transport/ble_transport.cpp:1824-1894 | alone, a Connection Complete is recorded under the next id if nothing is recorded or what is has been probed, is a duplicate if it is what is recorded, and is reported otherwise |
| HciProgress.DisconnectWakes | firmware/components/ble_transport/ble_transport.cpp:1794-1803 | a Disconnect Complete wakes the resolver exactly if something is recorded, and changes nothing |
| HciProgress.RetiresAlone | firmware/components/ble_transport/ble_transport.cpp:1992-2001 | a retirement clears the whole record under a new epoch |
| HciProgress.StopsAlone | firmware/components/ble_transport/ble_transport.cpp:1153-1176 | begin_stop closes ingress under a new epoch exactly if nothing is recorded and it is not refused |
| HciOverlap.OverlappingStopAndResetLoseTheHandle | firmware/components/ble_transport/ble_transport.cpp:1153-1176 | otherwise it can be: a run in which a refused begin_stop reopens ingress during the reset callback's retirement, and a connection is recorded without its handle |
| HciLeases.LeaseCounter.Acquire | firmware/components/ble_transport/ble_transport.cpp:1914-1923 | a lease is given out exactly if the counter is open and not at its limit |
| HciLeases.LeaseCounter.Close | firmware/components/ble_transport/ble_transport.cpp:1935-1938 | closing takes nobody's lease away |
| HciLeases.LeaseCounter.Drained | firmware/components/ble_transport/ble_transport.cpp:1940-1948 | drained means that nobody holds a lease |
| HciLeases.LeaseCounter.Open | firmware/components/ble_transport/ble_transport.cpp:1960-1964 | opening succeeds exactly if the counter is closed and drained |
| Framing.Transport.ConsumeLineByte | firmware/components/control_framing/control_framing.cpp:33-76 | the four line states report a finished line as the grammar does, with the line limit and the carriage return |
| Framing.Transport.ConsumeZero | firmware/components/control_framing/control_framing.cpp:88-97 | zeros are counted, and the fourth drops the line and reports one synchronisation |
| Framing.Transport.ConsumeOther | firmware/components/control_framing/control_framing.cpp:99-105 | held-back zeros are handed on as data before any other byte |
| Framing.Transport.Consume | firmware/components/control_framing/control_framing.cpp:78-107 | after every call the reports are the events of the grammar on all bytes so far |
| Framing.ConsumeAll | firmware/components/control_framing/control_framing.cpp:78-107 | every way to cut a stream into calls reports the same |
| Framing.Transport.Reset | firmware/components/control_framing/control_framing.cpp:12-22 | reset makes the decoder as new and its storage zero |
| Framing.OneSyncARun | firmware/components/control_framing/control_framing.cpp:88-97 | each maximal run of at least four zeros is reported once, with its fourth zero, a shorter one not at all |
| Framing.LineIsMaximal | firmware/components/control_framing/control_framing.cpp:36-50 | a line starts at the last beginning, newline or synchronisation and holds neither |
| Framing.SyncForgetsThePast | firmware/components/control_framing/control_framing.cpp:91-95 | after a synchronisation the later reports do not depend on the earlier bytes |
| FramingMessages.FramesComeBack | firmware/components/control_framing/control_framing.cpp:33-107 | payloads written between the prefix and the end of a line come back in order, each as it was, and nothing else |
| FramingMessages.BareLineComesBack | firmware/components/control_framing/control_framing.cpp:39-47 | also without the carriage return |
| FramingMessages.OverlongIsReported | firmware/components/control_framing/control_framing.cpp:48-50 | a prefixed line of more than 512 bytes is reported as overlong |
| FramingMessages.OtherLinesAreIgnored | firmware/components/control_framing/control_framing.cpp:54-60 | a line without the prefix is passed over |
| FramingMessages.SyncRecovers | firmware/components/control_framing/control_framing.cpp:88-97 | four zeros drop an unfinished line, are reported, and the next frame comes back |
| Session.State.InspectHello | firmware/components/control_session/control_session.cpp:168-189 | a hello is a retry only with the same nonce, bytes and epoch, a conflict with the same nonce and other bytes |
| Session.State.ActivateHello | firmware/components/control_session/control_session.cpp:191-216 | activation fails exactly once the owner ids are used up and then changes nothing |
| Session.State.InspectRequest | firmware/components/control_session/control_session.cpp:218-283 | the verdict on a normal or sensitive request, from session, epoch, id and payload |
| Session.State.RevokeForLifecycleInvalidation | firmware/components/control_session/control_session.cpp:403-411 | clears everything if anything is of another epoch, else nothing |
| SessionRuns.EachIdOnce | firmware/components/control_session/control_session.cpp:218-350 | whatever sessions come and go, executed ids strictly increase in each, so each runs at most once, if every cached transition is followed at once by an invalidation with a new epoch, as both callers do |
| SessionRuns.RetryIsTheSameRequest | firmware/components/control_session/control_session.cpp:240-250 | in such a run a request is answered from the cache exactly if it is the last executed one again in the current session, with that execution's response |
| SessionRuns.NothingFromAnotherEpoch | firmware/components/control_session/control_session.cpp:226-231 | after any run and a lifecycle invalidation, and through any further actions until the next hello, nothing of another epoch is accepted or replayed |
| SessionRuns.OwnersNeverRepeat | firmware/components/control_session/control_session.cpp:191-206 | local owner ids never repeat, and after the last one there are no more sessions |
| SessionRuns.TransitionReopensIds | firmware/components/control_session/control_session.cpp:329-411 | after a cached transition and an invalidation the next request of the session is executed, whatever its id, if and only if the invalidation repeats the session's epoch |
| SessionRuns.SameIdTwice | firmware/components/control_session/control_session.cpp:329-411 | a run without the new epoch in which one session executes id 5 twice |
| SessionRuns.IdsStayClosed | firmware/components/control_session/control_session.cpp:236-245 | with the new epoch an id that is not above the last executed one is never executed |
| SessionAnswers.VerdictByLastExecuted | firmware/components/control_session/control_session.cpp:218-283 | in a disciplined run the last executed request decides: a higher id is new, a lower one stale, the same id a retry with the same payload and a conflict with another |
| SessionAnswers.NewRequestsAreExecuted | firmware/components/control_session/control_session.cpp:236-312 | so a request of the current session with an unused id is executed, exactly as sent, and is then answered again |
| SessionAnswers.HelloIsAnsweredAgain | firmware/components/control_session/control_session.cpp:168-216 | the hello that began a session is answered again, byte for byte, for as long as the session lasts, without another session; the same nonce with other bytes is a conflict |
| SessionAnswers.EndedSessionIsForgotten | firmware/components/control_session/control_session.cpp:142-150 | when a session is over, however it ended, the same hello begins a new one |
| SessionAnswers.NewClientTakesOver | firmware/components/control_session/control_session.cpp:150-216 | a new client ends the session there is and begins its own under a new owner, if there is one left |
| SessionAnswers.TransitionIsAnsweredAgain | firmware/components/control_session/control_session.cpp:314-350 | a transition that ended its session is answered again until the next hello, to exactly the request that was accepted |
| SessionAnswers.UnusedSessionIsOver | firmware/components/control_session/control_session.cpp:126-140 | a session is over exactly if it was not used for five seconds when the lease is serviced, and nothing is accepted for it any more |
| Lifecycle.UnpackPack | firmware/components/ble_lifecycle/ble_lifecycle.cpp:15-25 | what publish packs into the state byte is what snapshot reads |
| Lifecycle.StateMachine.Enable | firmware/components/ble_lifecycle/ble_lifecycle.cpp:45-72 | accepted exactly from hidden and down, outside recovery; then exposed and enabling under a new generation, without an error and with a fresh reset recovery; else nothing changes |
| Lifecycle.StateMachine.Disable | firmware/components/ble_lifecycle/ble_lifecycle.cpp:74-98 | accepted exactly from advertising or connected; then hidden and disabling under a new generation with the radio flags kept; else nothing changes |
| Lifecycle.StateMachine.HiddenRestart | firmware/components/ble_lifecycle/ble_lifecycle.cpp:100-111 | only from a ready hidden idle stack, and never at the last generation |
| Lifecycle.StateMachine.Disconnect | firmware/components/ble_lifecycle/ble_lifecycle.cpp:172-192 | only the recorded handle disconnects: expected while disabling, else back to enabling under a new generation |
| Lifecycle.StateMachine.ResetRecovery | firmware/components/ble_lifecycle/ble_lifecycle.cpp:207-226 | once, back to enabling or idle under a new generation with the error set; a second time a fault |
| LifecycleRuns.StaleChangesNothing | firmware/components/ble_lifecycle/ble_lifecycle.cpp:113-238 | a callback issued at any moment of any run and delivered after any further actions changes nothing at all, once the generation has changed a number of times that is not a multiple of 2^32 |
| LifecycleRuns.MovesAlongTheGraph | firmware/components/ble_lifecycle/ble_lifecycle.cpp:45-238 | in every run the observed state moves along the lifecycle graph, and the intent changes only by enabling what is down or disabling what is up, under a new generation |
| LifecycleRuns.FaultIsAbsorbing | firmware/components/ble_lifecycle/ble_lifecycle.cpp:207-238 | once in Fault the published view and the generation never change again, and an error is present |
| LifecycleRuns.OneRecovery | firmware/components/ble_lifecycle/ble_lifecycle.cpp:207-226 | at most one reset recovery succeeds for each accepted enable or hidden initialisation |
| LifecycleRuns.SecondRecoveryFaults | firmware/components/ble_lifecycle/ble_lifecycle.cpp:216-225 | a second one is a fault |
| LifecycleRuns.HostAcceptsExactly | tools/qualification_harness/core.py:298-355 | of all reachable snapshots the host accepts exactly those that are not hidden and enabling |
| LifecycleRuns.HiddenEnablingIsReached | firmware/components/ble_lifecycle/ble_lifecycle.cpp:113-122 | the exception is reachable |
| LifecycleRuns.LateErrorIsAccepted | firmware/components/ble_lifecycle/ble_lifecycle.cpp:240-257 | a reader that loads the state first and the error after any number of further transitions still puts an acceptable snapshot together |
| LifecycleCycles.RequestsAreAnswered | firmware/components/ble_lifecycle/ble_lifecycle.cpp:45-98 | in every run enable and disable are accepted exactly from the other side, needless exactly on their own, busy in between, in a recovery and in a fault |
| LifecycleCycles.GoesUp | firmware/components/ble_lifecycle/ble_lifecycle.cpp:45-157 | from down, enabling, synchronisation and advertising follow each other in the new generation |
| LifecycleCycles.ConnectsAndDisconnects | firmware/components/ble_lifecycle/ble_lifecycle.cpp:159-192 | only the handle that has connected disconnects, back to enabling under a new generation |
| LifecycleCycles.DisconnectNeedsHandle | firmware/components/ble_lifecycle/ble_lifecycle.cpp:172-192 | in every run a connected stack believes a disconnect exactly for the handle of the last accepted connection, in the current generation |
| LifecycleCycles.GoesDown | firmware/components/ble_lifecycle/ble_lifecycle.cpp:74-205 | from up, disabling, the disconnect and the completion lead back to down |
| LifecycleCycles.RestartsHidden | firmware/components/ble_lifecycle/ble_lifecycle.cpp:100-134 | a hidden ready stack restarts under a new generation and is ready again |
| LifecycleCycles.ResetsRecoverOnce | firmware/components/ble_lifecycle/ble_lifecycle.cpp:207-226 | the first reset recovers, the next is a fault, each with its reason |
| LifecycleCycles.FailureIsShown | firmware/components/ble_lifecycle/ble_lifecycle.cpp:228-238 | a failure of the current generation is shown as reported, for good |
| EvidenceContract.Directory.WriteOnce | tools/rp-test/evidence_contract.py:207-228 | an entry is published whole or not at all and never replaced; a retry succeeds exactly with the same value |
| Journal.Authority.Begin | tools/rp-test/authority_service.py:112-143 | an attempt is begun once, and a begin that was cut is never continued |
| Journal.Authority.LoadLocked | tools/rp-test/authority_service.py:145-166 | accepts only the recorded handle, with agreeing authority, request and owner |
| Journal.Authority.Activate | tools/rp-test/authority_service.py:206-214 | refused once the test outcome or the evidence is recorded |
| Journal.Authority.Record | tools/rp-test/authority_service.py:216-222 | records one outcome for ever |
| Journal.Authority.CollectEvidence | tools/rp-test/authority_service.py:238-248 | evidence says whether it was required, and rests on a valid receipt or is failed |
| Journal.Authority.Prepare | tools/rp-test/authority_service.py:224-261 | an official pass without activation is refused with nothing written; what is prepared is what is recorded |
| Journal.Authority.Seal | tools/rp-test/authority_service.py:280-327 | a repeated seal gives the recorded commit or an error; a commit describes a complete package of what was prepared |
| Journal.AnyRun | tools/rp-test/authority_service.py:112-327 | a new attempt under any calls in any order, each cut anywhere: every journal name keeps its value; recorded evidence is and stays required exactly if activation was recorded; SUCCESS rests on a recorded PASS and finalized evidence, in an official attempt on a receipt of this very attempt; a committed package is the six files with the recorded contents; all seals that succeed return one commit |
| Journal.Attempt | tools/rp-test/authority_service.py:112-327 | an attempt that nothing cuts is sealed unless it is official, passed and not activated; its code is decided by the activation, the producer and the outcome, and its commit lists the six files |

## Left out

- Weak memory orders: every atomic access is sequentially consistent.
- Wrap-around of the route's generation, publication sequence, USB serial and token counters: they are unbounded here, so the code's skipping of the two reserved token values is not modelled.  The sequence generation, owner ids, establishment ids and the BLE generation are bounded as in the code.
- HidRoute: like SequenceRace and HciEstablishment it works on values; a step makes a new record instead of updating the atomic fields in place.  Loads of the route fields by the thread that holds the writer are one step, and null arguments are not modelled.
- HidRoute: each thread keeps one conditional token and one claim, commits with the cut it last read, and claims an expected value that a snapshot has returned; a token used by two threads at once is not covered.
- HidRouteSnapshots.NotPendingWasSeen: gives three instants and not one, because the code loads the three sources of invalidation_pending one after the other.
- HidRouteClaims.ClaimKeepsTheGateShut: does not cover a holder that cancels its own token through cancel_conditional_invalidation, which opens the gate by design.
- SequenceRaceSafety.EverySequenceEndsWell: the clock is not part of the race; `SequenceReports.WaitsAsScheduled` says how long a wait is to last, and it may end by time, cancellation or loss of authority at any step.
- Status queries of the sequence controller, its generation-validated record, and task notifications.
- wait_decision, state and code names: one branch each.
- BondDelete.RunJournaledRemoval: status codes are reduced to success or failure; the removal from NimBLE's RAM store is assumed to take only records of the target, and the answers of the two RAM calls are inputs.
- BondStore: wiping of record buffers, and NVS open and commit as accesses of their own.
- OrphanRecovery: reading the security records from NVS and from the restored RAM store; they are inputs.
- run_schema_first_removal, the association store, advertising, pairing and SMP set-up.
- HciEstablishment: the lifecycle's control task and its stop worker, which take turns, are one task; a refusal of begin_stop and the reopening after a retirement are inputs.  The registration lookup, the executor's hidden-exposure request and the answer to the disconnect command are inputs; a field and the lifecycle value it is compared with are loaded in one step.
- HciLeases: each lease operation is one method; the drain timeout is not modelled.
- Framing: the storage behind a reported payload is not kept after the callback returns.
- Session.State and Lifecycle.StateMachine: the table lists the methods with decisions of their own; the others are proved against their functions in the same way.
- Session: tokens and digests are strings, compared whole; random tokens and the clock are inputs.
- Lifecycle: the stores inside one transition are not interleaved with readers; LateErrorIsAccepted covers a reader between transitions.
- Journal: digests are the values digested; locking is one call at a time; staging files, file modes, object identities and the installed runtime are single yes-or-no checks, and the manifest and the index are functions of the four records.
- The capture operation itself, the CLI, release packaging, GATT tables and the remaining adapters.
