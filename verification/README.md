# Verification of infinit/memo components

A Dafny model of the parts of memo, elle and beyond whose correctness rests on
protocols and invariants rather than on I/O. Each module follows one source
component. Code that updates fields or runs loops appears as classes and
methods, proved against functions on values; what the component is for is then
proved about those functions, for every input or every run.

| module | component |
|---|---|
| `PaxosServer`, `PaxosClient`, `PaxosProtocol`, `PaxosSafety`, `PaxosReconfiguration`, `PaxosRuns`, `PaxosCalls`, `PaxosElections`, `PaxosStages`, `PaxosDisagreement`, `PaxosStaleRetry` | the Paxos library of elle (`athena/paxos`) |
| `AtomicFile` | crash-safe file replacement |
| `FormatParser`, `FormatGrammar`, `FormatPrinter`, `FormatOutput` | the format strings of `elle::print` |
| `Sampling` | sampling without replacement |
| `HubNetwork`, `HubRequests`, `HubPairing`, `HubMailbox` | network documents and pairing on the hub |
| `IntRanges` | sets of integer ranges |
| `Buffers` | growable buffers and their stream buffers |
| `EndpointPoll` | the thread that polls the hub for endpoints |
| `LogRotation` | rotation of numbered log files |
| `Options`, `Sets` | shared types and facts about finite sets |

## Where the code departs from what it promises

The model follows the code. Where a promise does not hold in general, the exact
condition is proved.

- **Paxos agreement.** A server that reports an accepted value names the least
  ballot it still welcomes, not the ballot at which it accepted the value. A
  server that promised a later ballot in the meantime thus makes an old value
  win over one that a majority accepted since. The confirmation round does not
  help: servers confirm whatever they hold to any earlier ballot, so both calls
  of `choose` return. `AgreementExactly`: agreement is guaranteed in every run
  exactly on quorums of at most two servers.
  `FreshRunsAgree`: on any quorum, runs in which every report names the ballot
  of its value agree.
- **Changes of quorum.** A version may elect the quorum of the next ones.
  `ReconfigurationAgrees`: under the same conditions, agreement holds across
  elections when every attempt names the quorum in force for its version. The
  code does not ensure that: an attempt refused by a later version goes on there
  with its old quorum, and servers that missed a version do not check quorums.
  `StaleRetryDisagrees`: two calls can return different decisions although every
  caller named the quorum in force for the version it asked for.
- **`%%` under a condition.** While text is suppressed, `%%` counts as an
  argument; otherwise it does not. `SlotsFixedExactly`: the number of arguments
  a format uses is independent of their truth values exactly when no `%%` stands
  under a condition.
- **Adding a range over a chunk.** `overlaps` looks at the two ends of the other
  range only. `CompleteCanonicalExactly`: adding a non-empty range keeps the set
  canonical exactly when it swallows no chunk that starts after it. The integers
  that the set stands for are right in all cases (`CompleteIsUnion`).
- **`next_free` on touching chunks.** `NextFreeExactly` gives the sets on which
  it is right for every position; canonical sets are among them.
- **Empty buffers in a combined input stream** report the end of file early.
  `ReadableExactly`: all bytes are read exactly when no empty buffer comes
  before one that has bytes.
- **Saves on the hub are not atomic.** `Serializable` holds when requests under
  way together touch different (field, user) entries. On the same entry a save
  can undo an earlier one, since it sends all the endpoints or statistics of its
  user that it loaded, or do nothing when it loaded what it was asked to store.
  `SerialExactly`: any interleaving of any requests is serial at every point
  exactly when each save finds what it loaded still current. `OverlapExactly`:
  for any two requests, the same as a condition on the document and the requests.
- **A pairing can be delivered twice** when another one is stored between the
  two looks that a get takes (`DeliveredTwice`). `UndisturbedExactly`: in every
  interleaving, each delivery removed the document it returned exactly when no
  save took effect between the two looks of a get that delivered.
  `AtMostOnceExactly`: a set of requests guarantees delivery at most once in
  every interleaving exactly when it has no two gets with the passphrase of a
  stored pairing beside another store.
- **A store of a pairing can fail** without a save, when the document in its way
  goes away before it removes it (`StoreEndsExactly`). `StoreSavedExactly`: a store is guaranteed to be saved
  exactly when there is no other store beside it together with a third store or
  a get that has the passphrase of that other store.
- **Appending rotation with limit one** looks for the file it just removed as
  soon as there are two files (`LosesLastExactly`).

## Assumptions

- Each call to a Paxos server, to the datastore and to the file system is
  atomic; completed file system changes survive a crash, in order. What a crash
  leaves of a file being written is any prefix that was flushed.
- Clients of one consensus never use the same ballot (version, round, client)
  twice. A retried attempt may take any later ballot of its client; the source
  takes the next round, after that of the greatest ballot reported if it is later.
- Random draws, fetched lists, the truth values of arguments, the sizes of files
  and whether a file can be opened are parameters.
- Stored network documents list no user without endpoints: new ones list none,
  and merges keep it so. The nodes known before polling have distinct ids. The
  numbers of a log family are listed in increasing order and are not negative.
- A format that names an argument by a negative position is undefined behaviour
  in the source (elle/src/elle/print.cc:369-370) and the failure `NegativeIndex`
  in the model.
- Integers are unbounded; the range of numbers in format strings is explicit.

## Model

| member | source | states |
|---|---|---|
| `PaxosServer.Server.constructor` | elle/src/elle/athena/paxos/Server.hxx:245-262 | a new server has no proposal, is not partial, and belongs to its quorum |
| `PaxosServer.Server.CheckQuorum` | elle/src/elle/athena/paxos/Server.hxx:271-294 | a request must name the committed quorum, or the one whose election is confirmed for an earlier version |
| `PaxosServer.Server.CheckConfirmed` | elle/src/elle/athena/paxos/Server.hxx:298-332 | a version may start when none is skipped and the previous one is confirmed |
| `PaxosServer.Server.HandlePropose` | elle/src/elle/athena/paxos/Server.hxx:341-414 | the whole new state and answer, as the function `Propose` that the protocol proofs use |
| `PaxosServer.Server.HandleAccept` | elle/src/elle/athena/paxos/Server.hxx:416-450 | the whole new state and answer, as the function `Accept` |
| `PaxosServer.Server.HandleConfirm` | elle/src/elle/athena/paxos/Server.hxx:452-485 | the whole new state and answer, as the function `Confirm` |
| `PaxosElections.BallotOrder` | elle/src/elle/athena/paxos/Server.hxx:51-56 | ballots are compared by version, then round, then client |
| `PaxosElections.BallotsAreOrdered` | elle/src/elle/athena/paxos/Server.hxx:51-56 | the order of ballots is total |
| `PaxosElections.PromiseExactly` | elle/src/elle/athena/paxos/Server.hxx:385-414 | a proposal leaves the server at the later of two ballots with what it had accepted; what the answer tells, refusals included |
| `PaxosElections.EarlierVersion` | elle/src/elle/athena/paxos/Server.hxx:346-357 | a server that accepted on a later version tells so to anyone who asks for an earlier one |
| `PaxosElections.ElectionIsHonoured` | elle/src/elle/athena/paxos/Server.hxx:358-377 | after a confirmed election, exactly the elected quorum may start the next version, and becomes the quorum of the server |
| `PaxosElections.DatumIsCommitted` | elle/src/elle/athena/paxos/Server.hxx:358-377 | after a confirmed datum, exactly the same quorum may start the next version, and the datum becomes the value of the server |
| `PaxosElections.ElectionGuardsNextVersion` | elle/src/elle/athena/paxos/Server.hxx:271-294 | after a confirmed election, acceptances and confirmations of later versions are refused, naming the elected quorum to others |
| `PaxosElections.OtherQuorumsAreRefused` | elle/src/elle/athena/paxos/Server.hxx:271-294 | a server that is up to date refuses every quorum but its own and does not change |
| `PaxosElections.AcceptExactly` | elle/src/elle/athena/paxos/Server.hxx:416-450 | a value is accepted exactly at the ballot promised, and a confirmation given before is kept |
| `PaxosElections.ConfirmExactly` | elle/src/elle/athena/paxos/Server.hxx:452-485 | which servers answer a confirmation, as an if and only if |
| `PaxosElections.ConflictStops` | elle/src/elle/athena/paxos/Client.hxx:265-313 | an attempt whose acceptance is refused cannot commit and may be retried with its value |
| `PaxosElections.MissedVersion` | elle/src/elle/athena/paxos/Server.hxx:378-392 | a server that missed a version forgets what it held and promises, whatever quorum is named |
| `PaxosElections.BehindListensToAnyone` | elle/src/elle/athena/paxos/Server.hxx:378-392 | while a server is behind, the quorum that a request names makes no difference to its answer |
| `PaxosElections.ConfirmationRejoins` | elle/src/elle/athena/paxos/Server.hxx:467-484 | a confirmation brings such a server up to date, as a member of the quorum that asked |
| `PaxosElections.StepKeepsConfirmation` | elle/src/elle/athena/paxos/Server.hxx:437-448 | no step takes back a confirmation while its version lasts |
| `PaxosElections.ReturnIsConfirmed` | elle/src/elle/athena/paxos/Client.hxx:318-355 | in every run, when a call returns, a majority of its quorum has its version confirmed or is past it |
| `PaxosElections.ReachNextVersion` | elle/src/elle/athena/paxos/Client.hxx:150-358 | from any state in which a majority of the elected quorum confirmed the election, a call that names it for the next version can return |
| `PaxosElections.ElectionTakesEffect` | elle/src/elle/athena/paxos/Client.hxx:150-358 | for any two quorums that share a majority of the second: one elects the other, is refused from then on unless they are equal, and the other decides on the next version |
| `PaxosClient.MaxElement` | elle/src/elle/athena/paxos/Client.hxx:210-218 | the pass finds the first answer that no other beats, a value beating none |
| `PaxosClient.Adopt` | elle/src/elle/athena/paxos/Client.hxx:203-224 | the client goes on with the value reported under the greatest ballot, or its own when none is reported |
| `PaxosSafety.StepMonotone` | elle/src/elle/athena/paxos/Server.hxx:394-408 | no step of any client takes back a promise of a server |
| `PaxosSafety.StepKeepsVote` | elle/src/elle/athena/paxos/Server.hxx:437-448 | no step takes back that a server accepted a value at a ballot |
| `PaxosSafety.PositiveAnswer` | elle/src/elle/athena/paxos/Server.hxx:385-414 | a server that does not refuse is at the proposed ballot and reports what it last accepted, under the ballot it had promised |
| `PaxosSafety.StepKeepsInv` | elle/src/elle/athena/paxos/Client.hxx:150-358 | the invariant of the protocol: promises hold, votes below a ballot are covered by the answers to it, attempts go on only after a majority answered |
| `PaxosSafety.MajoritiesMeet` | elle/src/elle/athena/paxos/Client.hxx:119-146 | two headcounts that pass have a server in common |
| `PaxosSafety.ChosenBinds` | elle/src/elle/athena/paxos/Client.hxx:210-224 | what a majority accepted at a ballot is the value of every later attempt on that version, when answers are fresh or the quorum has at most two servers |
| `PaxosSafety.NewConfirmation` | elle/src/elle/athena/paxos/Server.hxx:467-484 | a server is told to confirm only what it accepted and what a majority accepted |
| `PaxosSafety.StepKeepsConfirmInv` | elle/src/elle/athena/paxos/Client.hxx:203-208 | whatever is marked confirmed, and whatever a client reports as decided, was accepted by a majority |
| `PaxosSafety.SafeRunsAgree` | elle/src/elle/athena/paxos/Client.hxx:150-358 | whatever quorums servers are made for and whatever values are submitted, elections included: in every run with one quorum named per version, with small quorums or fresh answers, all clients learn the same decision for a version |
| `PaxosSafety.FreshRunsAgree` | elle/src/elle/athena/paxos/Client.hxx:150-358 | in every run with one quorum named per version whose reports name the ballot of their value, all clients learn the same decision for a version |
| `PaxosSafety.SmallQuorumsAgree` | elle/src/elle/athena/paxos/Client.hxx:150-358 | on one or two servers, agreement holds in every run of clients that name their quorum |
| `PaxosSafety.Validity` | elle/src/elle/athena/paxos/Client.hxx:155-271 | in every run on any quorum, a decision is a value that a caller of `choose` asked for, also when attempts are retried with values taken over from answers |
| `PaxosReconfiguration.OneInForce` | elle/src/elle/athena/paxos/Server.hxx:271-294 | decisions that agree put one quorum in force for each version |
| `PaxosReconfiguration.ReconfigurationAgrees` | elle/src/elle/athena/paxos/Client.hxx:150-358 | in every run, across elections, in which attempts name the quorum in force for their version, with small quorums or fresh answers, all clients learn the same decision for a version |
| `PaxosRuns.ReachReturned` | elle/src/elle/athena/paxos/Client.hxx:318-355 | when all the servers that accepted also confirm, there is a run in which `choose` returns the value of its attempt |
| `PaxosDisagreement.LargeQuorumsDisagree` | elle/src/elle/athena/paxos/Server.hxx:394-404 | on every quorum of three servers or more there is a run in which two calls of `choose` return different decisions, both confirmed by a majority |
| `PaxosDisagreement.AgreementExactly` | elle/src/elle/athena/paxos/Client.hxx:150-358 | agreement is guaranteed in every run of clients that name the quorum of the servers, if and only if that quorum has at most two servers |
| `PaxosStaleRetry.StaleRetryDisagrees` | elle/src/elle/athena/paxos/Client.hxx:233-252 | there is a run in which every caller names the quorum in force for the version it asks for and all answers are fresh, yet two calls return different decisions |
| `AtomicFile.TidiedIsClean` | elle/src/elle/AtomicFile.cc:136-184 | from any leftover, recovery leaves only the path, with the current content |
| `AtomicFile.RecoveryIsRestartable` | elle/src/elle/AtomicFile.cc:136-184 | any number of recoveries cut short anywhere, then a full one, end like one full recovery |
| `AtomicFile.PartialCommit` | elle/src/elle/AtomicFile.cc:186-203 | a commit cut short leaves, after recovery, all of the new content if the second rename was done and the old content otherwise |
| `AtomicFile.StepRefinesRegister` | elle/src/elle/AtomicFile.cc:91-203 | every step of every run keeps the content, except the second rename, which sets it to all that was written |
| `AtomicFile.RunRefinesRegister` | elle/src/elle/AtomicFile.cc:91-203 | every run behaves like an atomic register |
| `AtomicFile.CrashSafe` | elle/src/elle/AtomicFile.cc:26-203 | after any run of reads, writes, crashes and restarts from any leftover, recovery yields the last content committed, and readers see it |
| `AtomicFile.CommitsWhatWasWritten` | elle/src/elle/AtomicFile.cc:91-203 | in every run, each commit that takes effect commits all the bytes written since its write was opened |
| `AtomicFile.WriteTakesEffect` | elle/src/elle/AtomicFile.cc:91-203 | from any idle state, a write in any portions that runs to its end leaves exactly the bytes written |
| `AtomicFile.File.constructor` | elle/src/elle/AtomicFile.cc:26-35 | construction recovers and knows whether content exists |
| `AtomicFile.File.Tidy` | elle/src/elle/AtomicFile.cc:136-184 | recovery as the renames and removals in sequence |
| `AtomicFile.File.OpenWrite` | elle/src/elle/AtomicFile.cc:91-96 | a write starts with an empty side file |
| `AtomicFile.File.CloseWrite` | elle/src/elle/AtomicFile.cc:105-114 | closing replaces the content by what was written and leaves no side file |
| `AtomicFile.File.Commit` | elle/src/elle/AtomicFile.cc:186-203 | the commit as the renames and the removal in sequence |
| `AtomicFile.File.OpenRead` | elle/src/elle/AtomicFile.cc:47-52 | a reader gets the current content |
| `FormatParser.LiteralRoundTrip` | elle/src/elle/print.cc:309-314 | escaped text is read back and stops at what follows |
| `FormatParser.VarRoundTrip` | elle/src/elle/print.cc:315-320 | names, positions of either sign and the empty variable are read back |
| `FormatParser.FlagsMeaning` | elle/src/elle/print.cc:165-185 | flags in any order and number: each has its effect, the last padding flag decides |
| `FormatParser.ItemRoundTrip` | elle/src/elle/print.cc:321-334 | braces, conditions and directives are read back |
| `FormatParser.RoundTrip` | elle/src/elle/print.cc:308-350 | parsing the rendering of any phrase reads all of it and gives back that phrase |
| `FormatParser.ReadsPhrase` | elle/src/elle/print.cc:308-336 | whatever the grammar reads is a phrase that can be rendered |
| `FormatParser.NormalForm` | elle/src/elle/print.cc:338-350 | every valid format means the same as the rendering of its parse |
| `FormatGrammar.ParseExactly` | elle/src/elle/print.cc:308-350 | the parser gives a string a phrase if and only if a derivation of the grammar, spelled out over characters, letters and number ranges, spells the string and stands for the phrase |
| `FormatGrammar.AcceptsExactly` | elle/src/elle/print.cc:308-350 | a string is a valid format if and only if the grammar derives it |
| `FormatGrammar.TreeIsRead` | elle/src/elle/print.cc:308-336 | every derivation is read back whole, whatever its escapes, signs, leading zeros and flags |
| `FormatGrammar.TreeIsSpelled` | elle/src/elle/print.cc:308-336 | whatever the parser reads has a derivation |
| `FormatPrinter.PhraseIsStatic` | elle/src/elle/print.cc:360-489 | with no `%%` under a condition, the interpreter writes, counts and fails as the meaning in which slots are fixed by position |
| `FormatPrinter.SuppressedIsSilent` | elle/src/elle/print.cc:380-488 | the interpreter writes nothing for text under a false condition, whatever it contains |
| `FormatPrinter.StaticExactly` | elle/src/elle/print.cc:360-489 | the interpreter has the static meaning on every argument list if and only if no `%%` stands under a condition |
| `FormatPrinter.PrintIsStatic` | elle/src/elle/print.cc:491-504 | printing gives the static meaning; too many arguments are rejected exactly when none is named by position and the format stands for fewer |
| `FormatOutput.PrintExactly` | elle/src/elle/print.cc:360-504 | when a format prints, as an if and only if on the given arguments, and what it writes then: the texts and arguments all of whose conditions are true, in order |
| `FormatOutput.ArgumentsInOrder` | elle/src/elle/print.cc:368-449 | a format of plain places prints exactly when there are as many arguments, and writes them all in order, each in its style, between its texts |
| `FormatPrinter.FalseRun` | elle/src/elle/print.cc:436-449 | with false arguments, each `%%` under a condition counts as one argument |
| `FormatPrinter.TrueRun` | elle/src/elle/print.cc:436-449 | with true arguments, no `%%` counts as an argument |
| `FormatPrinter.SlotsFixedExactly` | elle/src/elle/print.cc:436-449 | any two argument lists that differ in truth values only have the same number of arguments used, if and only if no `%%` stands under a condition |
| `FormatPrinter.Printer.Test` | elle/src/elle/print.cc:470-484 | a condition is the truth value of its argument, and fails when there is none |
| `FormatPrinter.Printer.PrintItem` | elle/src/elle/print.cc:386-488 | the interpreter updating its counter, flag and output by reference |
| `FormatPrinter.Printer.PrintPhrase` | elle/src/elle/print.cc:377-385 | the interpreter over a whole phrase |
| `Sampling.Skip` | elle/src/elle/random.hh:95-98 | a draw becomes the number of that rank among those not picked yet |
| `Sampling.SelectsDistinct` | elle/src/elle/random.hh:92-101 | draws select distinct numbers in range, and can be recovered from them |
| `Sampling.DistinctIsSelected` | elle/src/elle/random.hh:92-101 | any distinct numbers in range are selected by some draws |
| `Sampling.SelectionIsUnique` | elle/src/elle/random.hh:92-101 | the same draws select the same numbers |
| `Sampling.DrawsLeadingToExactly` | elle/src/elle/random.hh:86-109 | which draw sequences lead to a given subset |
| `Sampling.SamplingIsUniform` | elle/src/elle/random.hh:81-109 | every subset of k numbers comes from exactly k! draw sequences |
| `Sampling.PickSome` | elle/src/elle/random.hh:90-102 | the loop lists in order what the draws select |
| `Sampling.PickN` | elle/src/elle/random.hh:84-109 | an increasing list of the requested length: what the draws select, or all the numbers |
| `HubNetwork.MergeKeepsUsers` | beyond/src/couchdb.py:491-500 | a merge never leaves a user without endpoints |
| `HubNetwork.SaveStoresTheEdit` | beyond/src/__init__.py:929-951 | saving any edit of an unchanged document stores the edited copy without its deletion marks |
| `HubNetwork.BuildDiff` | beyond/src/__init__.py:932-942 | the loop of a save keeps exactly the entries that are new or differ |
| `HubNetwork.UpdatePassports` | beyond/src/couchdb.py:486-490 | passports are set and removed; removing one that is not there fails |
| `HubNetwork.UpdateUser` | beyond/src/couchdb.py:491-500 | the endpoints of one user are merged, and the user goes with the last of them |
| `HubNetwork.UpdateEndpoints` | beyond/src/couchdb.py:491-500 | all the users of a difference are merged |
| `HubNetwork.Update` | beyond/src/couchdb.py:473-507 | the update handler computes `Merge` |
| `HubRequests.ServedAlone` | beyond/src/bottle.py:782-853 | a request that runs alone never fails and stores its edit |
| `HubRequests.ChangeIsLocal` | beyond/src/__init__.py:932-951 | what a request sends concerns its own entry and is computed from that entry |
| `HubRequests.ServeIsLocal` | beyond/src/bottle.py:837-853 | a request leaves all other entries alone |
| `HubRequests.Serializable` | beyond/src/bottle.py:782-895 | any interleaving in which requests under way together touch different entries has the outcome of running them in the order of their saves |
| `HubRequests.SavedOverLookup` | beyond/src/couchdb.py:491-500 | a save that sends something brings back every endpoint of the user that it had loaded |
| `HubRequests.SavedPassport` | beyond/src/couchdb.py:486-490 | the passport after a save over a changed document, also when the save fails or sends nothing |
| `HubRequests.SavedStats` | beyond/src/couchdb.py:501-502 | the statistics after a save over a changed document: those of all the nodes are replaced by what was loaded |
| `HubRequests.SaveIsLocal` | beyond/src/couchdb.py:473-507 | a save over any document leaves all other entries alone |
| `HubRequests.SaveExactly` | beyond/src/__init__.py:929-951 | a save over a changed document has the effect of its request on that document if and only if what it loaded is still current |
| `HubRequests.SerialExactly` | beyond/src/bottle.py:782-895 | any interleaving of any requests stores at every point what the serial order of the saves does, if and only if each save is current |
| `HubRequests.OverlapExactly` | beyond/src/bottle.py:782-895 | when any two requests that loaded the same document have the serial outcome, as an if and only if on that document and the requests |
| `HubRequests.SavedOverIsMerge` | beyond/src/couchdb.py:491-500 | the endpoints of the user after a save, as the merge leaves them |
| `HubRequests.Datastore.UpdateStored` | beyond/src/couchdb.py:432-449 | a failed update stores nothing |
| `HubRequests.Datastore.Handle` | beyond/src/bottle.py:837-853 | load, edit and save with nothing in between |
| `HubPairing.StepKeepsInv` | beyond/src/couchdb.py:382-405 | what every call of every request keeps: stored documents and deliveries go back to saves, and no revision is removed twice |
| `HubPairing.ProcessIsTraced` | beyond/src/couchdb.py:382-405 | at every point of every run: a get between its looks was interrupted by a save if and only if what it fetched is no longer the last save; one past its second look, if and only if it is about to remove another document |
| `HubPairing.UndisturbedExactly` | beyond/src/__init__.py:280-290 | in every interleaving, every delivery removed what it returned if and only if no save took effect between the two looks of a get that delivered |
| `HubPairing.Deliveries` | beyond/src/__init__.py:280-300 | in every interleaving there are no more deliveries than saves, each under the right passphrase and in time; when no get that delivered was interrupted by a save, none is repeated |
| `HubPairing.RunIsAttributed` | beyond/src/couchdb.py:382-405 | in every interleaving, each save and each delivery belongs to a request that asked for it, no two to the same one |
| `HubPairing.DeliveredTwice` | beyond/src/__init__.py:280-290 | two gets with the passphrase of a stored pairing beside another store can have it delivered twice |
| `HubPairing.AtMostOnceExactly` | beyond/src/__init__.py:280-300 | a set of requests guarantees delivery at most once in every interleaving if and only if it has no such gets |
| `HubMailbox.StoreAlone` | beyond/src/couchdb.py:382-388 | a store that runs alone leaves its own pairing, whatever was there |
| `HubMailbox.GetAlone` | beyond/src/__init__.py:280-290 | a get that runs alone with the right passphrase takes what is stored and returns it unless it expired; any other does nothing |
| `HubMailbox.SerialIsMailbox` | beyond/src/__init__.py:280-290 | one at a time, any stores and gets work a mailbox with one place |
| `HubMailbox.StoreEndsExactly` | beyond/src/couchdb.py:382-405 | in every interleaving, a store that is done was saved, if and only if it never found the document in its way gone |
| `HubMailbox.StoreSavedExactly` | beyond/src/couchdb.py:382-405 | which requests guarantee that a store is saved in every interleaving, as an if and only if |
| `IntRanges.MinusIsDifference` | elle/src/elle/IntRange.cc:73-98 | difference is exact, in at most two ordered pieces, none of them empty unless the left operand is |
| `IntRanges.CompleteIsUnion` | elle/src/elle/IntRange.cc:195-246 | for any set of chunks, adding a range gives the union |
| `IntRanges.AddAllIsUnion` | elle/src/elle/IntRange.cc:150-155 | any sequence of additions gives the union of what was added |
| `IntRanges.CompleteCanonicalExactly` | elle/src/elle/IntRange.cc:195-246 | a canonical set stays canonical if and only if the range swallows no chunk that starts after it |
| `IntRanges.NextFreeExactly` | elle/src/elle/IntRange.cc:157-167 | the sets on which the next free position is right everywhere, as an if and only if |
| `IntRanges.CanonicalNextFree` | elle/src/elle/IntRange.cc:157-167 | on a canonical set the next free position is the least one in no chunk |
| `IntRanges.CanonicalContains` | elle/src/elle/IntRange.cc:169-177 | on a canonical set a range is contained if and only if all its points are |
| `IntRanges.Ranges.Add` | elle/src/elle/IntRange.cc:195-246 | the loop that erases and inserts, as the function `Complete` |
| `IntRanges.Ranges.NextFree` | elle/src/elle/IntRange.cc:157-167 | the loop over the chunks, right on canonical sets |
| `Buffers.GrowthRule` | elle/src/elle/Buffer.cc:315-324 | the capacities that growing gives, for each of the three ranges of sizes |
| `Buffers.AppendIsAmortized` | elle/src/elle/Buffer.cc:239-324 | appending n bytes in any portions relocates at most 3n bytes in all and reserves at most twice the size, one and a half times for large sizes |
| `Buffers.Buffer.SetCapacity` | elle/src/elle/Buffer.cc:225-237 | reallocation keeps what fits |
| `Buffers.Buffer.SetSize` | elle/src/elle/Buffer.cc:254-260 | a larger size grows the capacity by the growth rule and keeps the bytes |
| `Buffers.Buffer.Append` | elle/src/elle/Buffer.cc:239-245 | the bytes are added at the end, at the cost that the growth rule gives |
| `Buffers.Buffer.PopFront` | elle/src/elle/Buffer.cc:247-252 | the first bytes are dropped, in place |
| `Buffers.OutputStreamBuffer.constructor` | elle/src/elle/Buffer.cc:704-708 | writing starts after the content |
| `Buffers.OutputStreamBuffer.Sync` | elle/src/elle/IOStream.cc:99-109 | after a flush the buffer holds all that was written |
| `Buffers.OutputStreamBuffer.Overflow` | elle/src/elle/IOStream.cc:85-97 | a full window is flushed and a new one opened with the byte in it |
| `Buffers.OutputStreamBuffer.Run` | elle/src/elle/IOStream.cc:85-109 | any mix of bytes and flushes, and a final flush, appends exactly the bytes |
| `Buffers.ReadableExactly` | elle/src/elle/IOStream.cc:67-83 | reading to the end of file yields all the buffers if and only if no empty one comes before bytes |
| `Buffers.InputStreamBuffer.ReadBuffer` | elle/src/elle/Buffer.cc:673-684 | the buffers are handed out in order, then an empty one |
| `Buffers.InputStreamBuffer.GetByte` | elle/src/elle/IOStream.cc:67-83 | the next byte, or the end of file at an empty buffer |
| `Buffers.InputStreamBuffer.ReadAll` | elle/src/elle/IOStream.cc:67-83 | reading to the end of file |
| `Buffers.WriteThenRead` | elle/src/elle/Buffer.cc:402-412 | what is written through one stream is read back through the other |
| `EndpointPoll.LatestExactly` | src/memo/Network.cc:185-204 | of several entries for one node, the last one counts |
| `EndpointPoll.LastSuccessCounts` | src/memo/Network.cc:169-211 | only the last successful poll counts |
| `EndpointPoll.RepresentsKept` | src/memo/Network.cc:205-209 | removing the nodes that were not fetched leaves exactly the fetched ones |
| `EndpointPoll.Poller.constructor` | src/memo/Network.cc:136-148 | all first nodes are discovered |
| `EndpointPoll.Poller.Absorb` | src/memo/Network.cc:186-204 | a node is added or moved, and discovered exactly when it is new or moved |
| `EndpointPoll.Poller.Poll` | src/memo/Network.cc:185-209 | after a poll the list is exactly what was fetched and the overlay agrees with it |
| `EndpointPoll.Poller.Run` | src/memo/Network.cc:169-211 | in every run of polls the list is that of the last successful one and the overlay agrees with it |
| `LogRotation.RotateExactly` | elle/src/elle/fstream.hh:138-175 | the newest files that a rotation keeps and their number; a small last file is opened again when appending, otherwise one with a greater number is opened; the exact failures |
| `LogRotation.AppendsReuse` | elle/src/elle/fstream.hh:145-156 | any number of appending rotations over small files keep to one file |
| `LogRotation.UnlimitedKeepsAll` | elle/src/elle/fstream.hh:138-144 | with no limit, no file is ever removed |
| `LogRotation.LatestExactly` | src/memo/log.cc:217-244 | the latest files follow each other downwards and stop early only at a missing one |
| `LogRotation.RunsAreBounded` | elle/src/elle/fstream.hh:127-175 | after any mix of rotations there are at most as many files as the last limit and mode allow, in order, and without a gap when every first name opens; only appending with limit one or running out of names fails |
| `LogRotation.RunsKeepABlock` | elle/src/elle/fstream.hh:127-175 | what rotations leave is one block of consecutive numbers of bounded length ending with the newest; the bound is one more when appending |
| `LogRotation.LosesLastExactly` | elle/src/elle/fstream.hh:142-148 | a rotation looks for a file it removed if and only if it appends with limit one and two files or more |
| `LogRotation.AppendWithLimitOneFails` | elle/src/elle/fstream.hh:142-148 | this happens at the third rotation |
| `LogRotation.LatestAfterRotations` | src/memo/log.cc:217-244 | after rotations, the n latest are the n newest files there are, newest first |
| `LogRotation.Family.RotateFiles` | elle/src/elle/fstream.hh:138-175 | the removal of old files and the search for a name, as the function `Rotate` |
| `LogRotation.Family.LatestLogs` | src/memo/log.cc:217-244 | the loop from the newest file down to the first that is missing |

## Left out

- Reads in Paxos: `Client::state` and `Server::get` are not modelled.
- Paxos liveness, backoff and the pre-0.1.0 protocol without confirmations.
- `beyond/src/__init__.py` second saves: `save` overwrites the remembered originals with the last value of its loop, so the model covers one save after a load, as every request does.
- Passport limits, authentication and missing networks in the hub requests: they refuse a request before it saves. A dictionary that is absent from a stored document is taken as an empty one.
- Stream formatting in `print`: what an argument looks like under a directive is opaque; the output is the sequence of texts, arguments and directives. What was written before a failure is not specified.
- The value returned by `IntRanges::complete`: on one branch an end is passed where a size is expected.
- `select` and `pick_n` on a container: they only map positions to elements.
- `Buffer::shrink_to_fit`, comparisons, weak buffers and self-append: they would only add easy members.
- Races of log rotation with other processes, and `log_remove`, which only drops the oldest names.
- RPC, cryptography, overlays, block storage, command line and web interfaces: they depend on code and services outside these components.
