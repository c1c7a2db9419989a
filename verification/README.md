# A model of the message bus daemon's bookkeeping

The daemon (`dbus-daemon`, the C code under `bus/`) routes messages between connections.  One
incoming message edits several shared tables, any step may run out of memory, and whatever has
been done so far then has to be undone.  This project models that bookkeeping and proves what it
keeps, over every sequence of calls and every point of failure.

`dafny verify dfyconfig.toml` checks the whole project.

## How it is organised

For each part there is a *state*, a datatype of *events* (or finer *steps*) that name the calls
and how far each of them got, a function `Apply`, and lemmas about `Run` over every sequence of
events.  Beside it stands the code that the events abstract from: classes whose methods update
fields and loop over lists as the C code does.  Each method is proved to do to its fields what
the events it names do to the state.  Whether an allocation fails is open (`BusTypes.Exhausted`),
unless the object is one for which `enough` holds; for those the contracts say that no call fails
for want of memory.

The modules whose names end in `Meaning`, and `ReplyDeadlines` and `ActivationRequests`, say what
the states and events come to without using the functions that define them: in plain numbers,
times, positions and messages.

| module | models |
|---|---|
| `Transactions` | messages staged per connection, open transactions, cancel and execute |
| `ReplyTable`, `ReplyInvariants`, `ReplyTheorems`, `ReplyDeadlines` | expected replies, cancel hooks, expiry, the timer |
| `Connections` | the class that holds both tables, with the loops of `connection.c` and `expirelist.c` |
| `Dispatch`, `DispatchTheorems`, `DispatchMeaning` | routing one message, with the reply gating of the policy check |
| `ConnectionLists`, `ConnectionMeaning` | incomplete and completed connections, per-user counts, accept gating |
| `Activation`, `ActivationInvariants`, `ActivationTheorems`, `ActivationOutcomes`, `ActivationRequests`, `ActivationCode` | pending service activations |
| `ActivationDispatch` | resuming the dispatch of messages that waited for a service, on the tables of `Connections` |
| `ServiceFiles` | the two-level index of service files |
| `Containers`, `ContainerCode` | container instances |
| `ConfigMerge`, `ConfigInclude`, `ConfigMeaning`, `ConfigCode` | merging and including configuration files |
| `ExpatLoader` | the XML callbacks and the stack of elements |
| `DesktopFile`, `DesktopMeaning`, `DesktopCode` | the service-file parser |

Times are integer microseconds.  Connections, transactions and service names are numbers, since
only their identity matters.  The answers of the policy, of SELinux and of AppArmor, the name
registry and the match rules are parameters; the recipients that the match rules yield are
distinct and exclude the addressed recipient.

## Where the code does not do what one would expect

Each of these is a lemma, with the exact condition under which the expectation holds.

- Cancelling a transaction puts the expectations it had consumed at the front of the list: the
  order is restored exactly if they were consumed from the front, in the order of the list
  (`ReplyTheorems.CancelReordersIff`).
- A call to oneself that expects a reply and carries its own serial as reply serial licenses
  itself; no other message is a requested reply twice (`DispatchTheorems.RequestedOnlyOnceIff`).
- The assertion that a cancelled expectation still exists would fail if two open transactions
  edited the table; it holds exactly if what was recorded is still there, or was consumed by the
  same transaction (`ReplyTheorems.CancelSafeIff`, `ReplyTheorems.InterleavedCancelAsserts`).
- A refused message may still edit the reply table, because its transaction is executed: exactly
  if it is a requested reply, or a call that turns out to carry descriptors its recipient cannot
  take (`DispatchTheorems.RefusalKeepsTableIff`, `DispatchTheorems.RefusedReplyConsumes`).
- A failed allocation of the log information leaves its user charged for a connection
  (`ConnectionLists.ChargeExactIff`, `ConnectionLists.LockedOut`).
- The assertion on the number of incomplete connections holds for configured servers unless the
  limit is zero, and for container servers exactly if the limit was not reached
  (`ConnectionLists.AcceptAssertsIff`).
- A message that waited for a service may be handed on to it and be answered with an error by the
  same, executed transaction: exactly if memory runs out when the copy for the service has been
  queued, for the match rules or for a listener (`ActivationTheorems.HandedOnAndRefusedIff`).
- A request may be told "out of memory" by a transaction that is then cancelled, and be answered
  later all the same: exactly if there was no memory to queue the error
  (`ActivationTheorems.ToldInVainIff`).
- The assertion that a preallocated error is there can fail while messages are handed on: exactly
  if one that is told at once has no connection, or one whose preallocated error has been used up,
  which includes being told twice (`ActivationTheorems.ErrorsAtHandIff`).
- Cancelling one request drops the requests that were waiting before it
  (`ActivationTheorems.CancelledRequestTakesAll`).
- Editing a service file to claim a taken name unregisters it, and a later edit or deletion of it
  can unregister another file (`ServiceFiles.RegisteredIff`, `ServiceFiles.TouchesOnlyItsOwnIff`).
- A lookup by name may return an entry that goes by another name by then: exactly if its file was
  edited to claim a name that nobody has (`ServiceFiles.ServiceIndex.FindEntry`).
- A name that a service file provides may still not be found: exactly if, later in the same scan,
  a file that had provided or claimed it is gone or renamed, and no file after that provides it
  (`ServiceFiles.FoundAfterScanIff`).
- A service file is silently passed over when there is no memory for its command, since no error
  is set then (`missed` in `ServiceFiles`).
- `<syslog/>` in an included file is lost (`ConfigMerge.MergeAny`).
- A blank line that ends with a lone carriage return is skipped exactly if the text after it is
  blank up to the next newline (`DesktopFile.LoneCarriageReturn`).
- The check of section names accepts every name (`DesktopFile.EverySectionName`).

## Model

| member | source | states |
|---|---|---|
| `Transactions.ListingInEveryRun` | bus/connection.c:2426-2512 | in every state that any interleaving of open transactions, sends, cancels, executes and disconnections can reach, a transaction lists a connection exactly once if it holds staged messages of it, and otherwise not |
| `Transactions.EveryRunKeepsInv` | bus/connection.c:2514-2640 | every such interleaving keeps the listing invariant, from any state that has it |
| `Transactions.StagedIsOwed` | bus/connection.c:2426-2512 | after every run, what a transaction has staged on a connection is the list of sends read off the events alone, in order |
| `Transactions.ExecuteDelivers` | bus/connection.c:2568-2620 | executing hands every connection exactly what was sent to it, in send order, and leaves the messages and listings of all other transactions as they were |
| `Transactions.CancelDeliversNothing` | bus/connection.c:2524-2566 | cancelling delivers nothing and removes exactly the transaction's own messages |
| `Transactions.CancelPosted` | bus/connection.c:2552-2566 | a transaction that is begun, sends any list of messages and is cancelled leaves the state equal to the one it began in |
| `Transactions.ExecutePosted` | bus/connection.c:2606-2620 | if it is executed instead, all that changes is that its messages have been delivered, in order |
| `Connections.BusConnections.Send` | bus/connection.c:2426-2512 | stages the message and lists the connection at most once; a failure at either allocation undoes everything, and there is none while there is enough memory |
| `Connections.DropMessages` | bus/connection.c:2524-2549 | the loop over one connection's list removes exactly the messages of the transaction |
| `Connections.HandOver` | bus/connection.c:2568-2603 | the backward loop sends the transaction's messages oldest first and keeps the others in place |
| `Connections.BusConnections.CancelAndFree` | bus/connection.c:2552-2566 | drops the staged messages, then undoes the reply table, newest hook first |
| `Connections.BusConnections.ExecuteAndFree` | bus/connection.c:2606-2620 | delivers the staged messages and makes the edits of the reply table final |
| `Connections.BusConnections.RunHooks` | bus/connection.c:1916-1928 | the hooks, newest first, take back what was recorded and put back what was consumed |
| `Connections.BusConnections.ExpectReply` | bus/connection.c:1948-2074 | a repeated serial is refused, then a caller at its limit, and nothing else; the expectation is recorded with its hook, or memory really ran out, at worst with the timer left armed |
| `Connections.BusConnections.CheckReply` | bus/connection.c:2114-2181 | without a matching expectation a reply is not requested; with one it is, unless memory really runs out, and uses it up |
| `Connections.BusConnections.DropPendingReplies` | bus/connection.c:1851-1914 | forgets what the connection waited for and orphans, for immediate expiry, what others waited for from it |
| `Connections.BusConnections.Disconnected` | bus/connection.c:204-354 | afterwards no pending reply names the connection in either role, and no transaction lists it |
| `Connections.BusConnections.ForgetListings` | bus/connection.c:2622-2640 | every transaction with something staged on the connection forgets it |
| `Connections.BusConnections.DoExpiration` | bus/expirelist.c:124-183 | one walk expires exactly the due items, in order, up to the first failure, of which there is none while there is enough memory; it returns the least remaining wait, capped at an hour, or the out-of-memory wait (what is due, and how the timer relates to it in numbers, are `ReplyDeadlines.CompletePassIff` and `ReplyDeadlines.PassTimer`) |
| `Connections.BusConnections.ExpirePendingReplies` | bus/expirelist.c:185-202 | the pass re-arms the timer accordingly; every connection has received, after what it had, exactly the NoReply errors for its own expired calls, in order, each with the serial of its call, unless its policy eats them |
| `Connections.BusConnections.TellNoReply` | bus/connection.c:1764-1849 | one error reply in a transaction of its own, or nothing at all |
| `Connections.ToldIs` | bus/connection.c:1764-1809 | for every list of expired calls, a connected caller receives the NoReply errors of its own, in order, and nobody else any |
| `Connections.BusConnections.SendFromDriver` | bus/connection.c:2361-2424 | stages a message of the daemon, or drops it without an error if its own policy forbids it |
| `Connections.BusConnections.SendOomError` | bus/connection.c:1387-1415 | goes out without a transaction, and only with the preallocated message |
| `ReplyInvariants.EveryRunKeepsInv` | bus/connection.c:1851-2181 | every run keeps: distinct live calls, the limit, hooks that can be undone, the balance of the books and a timer that is in time |
| `ReplyTheorems.CancelRestores` | bus/connection.c:2077-2087 | whatever a transaction recorded and consumed, in any order and with any failure, cancelling it restores the table as a multiset and moves no book |
| `ReplyTheorems.CancelOrder` | bus/expirelist.c:251-261 | after any body, what it had consumed of the old expectations is in front, in the order of consumption, and the rest follows as it was |
| `ReplyTheorems.CancelReordersIff` | bus/expirelist.c:251-261 | after any body, cancelling restores the order exactly if it consumed from the front of the list, in the order of the list |
| `ReplyTheorems.CancelNeverAsserts` | bus/connection.c:1916-1928 | in every run the assertion that the cancelled expectation exists holds |
| `ReplyTheorems.CancelSafeIff` | bus/connection.c:1916-1928 | with foreign edits in between, it holds exactly if all that was recorded is still there or was consumed by the same transaction |
| `ReplyTheorems.InterleavedCancelAsserts` | bus/connection.c:1916-1928 | a state in which a second transaction makes it fail |
| `ReplyTheorems.LegalMidCancel` | bus/connection.c:1970-2008 | in every state of every run, and after any number of hooks of a cancel, live calls are distinct and no caller exceeds its limit |
| `ReplyTheorems.Conservation` | bus/connection.c:1948-2181 | per caller and serial, committed expectations are those pending plus those answered, expired and dropped, so one call licenses at most one requested reply |
| `ReplyTheorems.TimerInTime` | bus/expirelist.c:95-122 | with no failed pass, in every state the timer is armed no later than every deadline, and is due for orphaned items |
| `ReplyTheorems.TimerAlwaysArmed` | bus/expirelist.c:124-202 | failed passes included, it is never off while something can expire, and late by at most the out-of-memory wait |
| `ReplyTheorems.NobodyNames` | bus/connection.c:1851-1914 | after a drop no expectation names the connection |
| `ReplyTheorems.OrphanGetsOneNotice` | bus/connection.c:1764-1849 | whoever waited for a connection that went away gets exactly one NoReply from the next complete pass, and nothing can answer the call before |
| `ReplyDeadlines.CompletePassIff` | bus/expirelist.c:124-183 | a complete pass sends a call one notice and removes it exactly if it is an orphan or its stamp is at least the timeout in milliseconds ago; the rest stays in order |
| `ReplyDeadlines.FailedPassIff` | bus/expirelist.c:124-183 | a pass that fails at a position has done so exactly for those before it, and the timer fires again after 500 milliseconds |
| `ReplyDeadlines.PassTimer` | bus/expirelist.c:95-122 | after a complete pass the timer is off exactly if nothing can expire; otherwise it is no later than any deadline, and either an hour away or less than a millisecond before a deadline |
| `ReplyDeadlines.NeverTooSoon` | bus/expirelist.c:149-150 | over every run: a recorded call is told NoReply only when its whole timeout has passed, unless the connection that was to reply goes away |
| `ReplyDeadlines.RequestedIff` | bus/connection.c:2114-2181 | a reply is requested exactly if a pending call has its caller, its replier and its serial |
| `ReplyDeadlines.ConsumedIs` | bus/connection.c:2114-2181 | it uses up exactly that call and leaves the others in order |
| `ReplyDeadlines.RecordableIff` | bus/connection.c:1970-2008 | a call may be recorded exactly if the same call is not pending and its caller has fewer pending than the limit |
| `ReplyDeadlines.RecordedIs` | bus/connection.c:2010-2074 | it is pending from now, in front, and the timer is on |
| `ReplyDeadlines.DroppedIs` | bus/connection.c:1851-1914 | a connection that goes takes its own calls with it, and makes the calls that waited for it orphans due at once; the others stay |
| `Dispatch.CheckSecurityPolicy` | bus/bus.c:1584-1862 | unless memory runs out, a message passes exactly if there is no objection (unknown type, policy with the right answer on "requested", repeated serial, reply limit); passing makes exactly the edits of a requested reply and of a call that wants one, an objection uses up a requested reply and nothing else; an eavesdropper edits nothing |
| `Dispatch.SendOneMessage` | bus/dispatch.c:59-119 | a listener gets the message exactly if it may; otherwise it is passed over without an error and without touching the reply table |
| `Dispatch.SendToAddressed` | bus/dispatch.c:150-175 | unless memory runs out, the addressed recipient gets the message exactly if there is no objection and it can take the descriptors; otherwise that objection is the error |
| `Dispatch.DispatchMatches` | bus/dispatch.c:122-212 | posts copies to the addressed recipient and then to each willing listener, in order; it fails only with the objection of the addressed recipient, and then has posted nothing, or without memory, after any number of copies |
| `Dispatch.Finish` | bus/dispatch.c:503-549 | the transaction ends once: executed with the error reply if there is one, or cancelled with the out-of-memory error; while there is enough memory it is cancelled only if that is the error (what the sender receives is `DispatchMeaning.RefusedIsTold`) |
| `Dispatch.BusDispatch` | bus/dispatch.c:214-552 | for every message not for the daemon that needs no activation, and every point of failure: apart from memory the error is determined by the message, the policy and the table; the transaction is executed once, with all that was queued or the error reply, and exactly the edits that go with it, or nothing is delivered, the table is restored and the sender gets one NoMemory error, which uses up the one preallocated for it and which while there is enough memory only the policy can bring about |
| `DispatchTheorems.EachRecipientOnce` | bus/dispatch.c:147-201 | the addressed recipient and every willing listener get exactly one copy, nobody else any |
| `DispatchTheorems.CancelledIsInvisible` | bus/dispatch.c:503-536 | a cancelled dispatch changes nothing but one error for the sender; the expectations and all books are as before |
| `DispatchTheorems.RequestedOnlyOnceIff` | bus/bus.c:1645-1663 | once a message went through, the same message counts as a requested reply again exactly if it is a call to oneself that licenses itself |
| `DispatchTheorems.RefusalKeepsTableIff` | bus/dispatch.c:520-546 | a refused message leaves the table alone exactly if it is not a requested reply, and not a call refused only for its descriptors |
| `DispatchTheorems.RefusedReplyConsumes` | bus/dispatch.c:520-546 | an instance of the other case, between two connected clients: a refused reply uses up its expectation |
| `DispatchMeaning.DeliveredIs` | bus/dispatch.c:122-212 | a message that goes through is received once by its recipient and by every listener that the policy lets have it and that can take its descriptors, and by nobody else |
| `DispatchMeaning.RefusedIsTold` | bus/connection.c:2645-2675 | the sender of a refused message, and nobody else, receives one error with that name and the serial of the message, unless the policy eats it |
| `DispatchMeaning.InactiveIsClosed` | bus/dispatch.c:406-417 | a sender that has not said Hello is disconnected; nobody receives anything, and the table stays |
| `DispatchMeaning.WhyIs` | bus/bus.c:1584-1862 | a message is refused for its unknown type, by the policy, because the same call is pending, because its sender has as many calls pending as allowed, or for its descriptors, in this order, and with these errors |
| `DispatchMeaning.RefusedBecause` | bus/dispatch.c:406-546 | that is the error of an executed dispatch; without an owner of the name it is NameHasNoOwner, and a broadcast has none |
| `DispatchMeaning.TableAfter` | bus/dispatch.c:148-175 | after an executed dispatch a call is pending exactly if it was and the message was not its reply, or the message is a call that wants a reply and nothing but descriptors was in its way |
| `DispatchMeaning.BroadcastKeepsTable` | bus/dispatch.c:485-503 | without a recipient the table stays as it is |
| `DispatchMeaning.CallAndReply` | bus/bus.c:1645-1663 | when a call and then its reply have gone through, the policy was asked about a requested reply, the call is no longer pending, and a second such reply is not requested |
| `ConnectionLists.AuthenticationTimesOut` | bus/connection.c:872-877 | in every run the incomplete list is oldest first, the limits on completed connections hold, and whoever is not closed will be scanned by its deadline |
| `ConnectionLists.RestIsYounger` | bus/connection.c:996-1005 | behind the first connection that is not overdue, none is overdue and none has less time left |
| `ConnectionLists.Connections.ExpireIncomplete` | bus/connection.c:951-1014 | the scan that stops early closes exactly what a full scan would, and sets the exact truncated time to the next expiry, or disables the timer |
| `ConnectionLists.ChargeExactIff` | bus/connection.c:1610-1621 | a user is charged for its completed connections plus every failed log-information allocation; so the charge is right exactly if there was none |
| `ConnectionLists.LockedOut` | bus/connection.c:1705-1750 | a run in which one failure locks out a user without connections |
| `ConnectionLists.GateFollowsCount` | bus/bus.c:1864-1895 | with a positive limit, in every run configured servers accept exactly while the count is below the limit, and without container servers the count stays within it |
| `ConnectionLists.AcceptAssertsIff` | bus/connection.c:879-883 | in every run, the assertion after an accept holds exactly if the limit is not zero and the connection came through a configured server or the limit was not reached |
| `ConnectionLists.ContainersAreNotGated` | bus/bus.c:1881-1894 | container servers can bring in any number of incomplete connections |
| `ConnectionLists.Connections.Complete` | bus/connection.c:1566-1652 | moves the connection and charges its user, or fails at one of three points with the effect that point has, but not while there is enough memory |
| `ConnectionLists.Connections.CheckLimits` | bus/connection.c:1705-1750 | says yes exactly if both the number of completed connections and the charge of the user are below their limits |
| `ConnectionLists.Connections.AdjustForUid` | bus/connection.c:163-202 | charging may fail and then changes nothing; discharging a charged user cannot fail |
| `ConnectionLists.Connections.Setup` | bus/connection.c:754-949 | the new connection is last among the incomplete ones and the overdue ones are closed; or nothing has changed |
| `ConnectionLists.Connections.Disconnected` | bus/connection.c:315-344 | leaves the right list, and the downward adjustment cannot fail |
| `ConnectionLists.Connections.CheckAllWatches` | bus/bus.c:1864-1895 | every configured server is switched to match the count |
| `ConnectionMeaning.ScanClosesIff` | bus/connection.c:951-1014 | a scan closes exactly those whose time for authentication, in milliseconds since they were accepted, has passed, and changes no list |
| `ConnectionMeaning.ScanTimer` | bus/connection.c:1007-1014 | it leaves the timer off exactly if nobody has time left, and otherwise less than a millisecond before the first deadline |
| `ConnectionMeaning.NeverClosedTooSoon` | bus/connection.c:979-995 | over every run: an accepted connection is not closed before its whole time for authentication has passed |
| `ConnectionMeaning.AcceptIs` | bus/connection.c:872-889 | an accepted connection is the last of the incomplete ones, the scan has been made, and the servers listen exactly if there are fewer than allowed |
| `ConnectionMeaning.HelloAllowedIff` | bus/connection.c:1705-1750 | a connection may complete exactly if there are fewer completed ones than allowed, and its user is charged for fewer than allowed |
| `ConnectionMeaning.HelloIs` | bus/connection.c:1566-1652 | the one that completes moves to the end of the completed ones, and its user is charged one more; if memory runs out it stays, and its user is charged all the same only if it is for the log information |
| `ConnectionMeaning.GoneIs` | bus/connection.c:315-344 | a connection that goes leaves exactly its own place, and its user is charged one less if it was completed |
| `ConnectionMeaning.LimitsHold` | bus/connection.c:1705-1750 | over every run: no more completed connections than allowed, in all and per user, and the charges are the numbers of connections plus the failures for the log information |
| `ActivationInvariants.EveryRunKeepsInv` | bus/activation.c:157-223 | every step of every run, the middle of a cancel included, keeps the counts, the references, the order of requests and the books |
| `ActivationTheorems.CountsInEveryRun` | bus/activation.c:1764-1774 | the total is the sum of the list lengths over live pending activations and within the limit; each reference count is table membership plus hooks |
| `ActivationTheorems.OutcomesAre` | bus/activation.c:1150-1356 | whenever no transaction has anything left to say, a request has been told once if an executed transaction answered it, once more if that one had two things to say to it, plus once for every error that a cancelled one had sent at once |
| `ActivationOutcomes.TellingsAre` | bus/activation.c:1150-1356 | in every run, how often a request is told something is what can be read off the fates of the acquisitions, whether their transactions are executed, and the failures |
| `ActivationOutcomes.HeldIsSilent` | bus/activation.c:1087-1148 | while an acquisition that will be executed holds a request, and ever after, nothing else is said to it |
| `ActivationOutcomes.AtMostOneOutcomeIff` | bus/activation.c:1150-1356 | in every run, every request is told at most once exactly if the fates allow it: no executed acquisition hands a message on and refuses it, and nobody whom another one tells at once is told anything later |
| `ActivationTheorems.AtMostOneOutcome` | bus/activation.c:1150-1356 | at most one outcome, if no cancelled transaction had sent an error at once and no executed one had two things to say to a request |
| `ActivationTheorems.NothingRepeated` | bus/activation.c:1253-1272 | nobody is told in vain in a run exactly if no transaction is cancelled that has sent an error at once |
| `ActivationTheorems.NothingDoubled` | bus/activation.c:1253-1272 | nobody is told two things by one transaction exactly if none is executed that has them staged |
| `ActivationTheorems.ExecutedAcquisitionTells` | bus/activation.c:1150-1281 | for every state and request: an executed acquisition tells it exactly what there is to say to it |
| `ActivationTheorems.HandedOnAndRefusedIff` | bus/activation.c:1253-1272 | it is told two things exactly if it is a connected auto-start request whose dispatch failed after the copy for the owner had been queued |
| `ActivationTheorems.ToldInVainIff` | bus/activation.c:1253-1272 | a cancelled acquisition tells a request something exactly if it is told at once, and the request is waiting again in any case |
| `ActivationTheorems.ErrorsAtHandIff` | bus/connection.c:1387-1415 | the assertions of the preallocated error hold during an acquisition exactly if all who are told at once are connections that have one, and no two are the same connection |
| `ActivationTheorems.NoSecondChance` | bus/activation.c:1562-1575 | a request that waits in no pending activation which could still be answered never will be answered, in any continuation |
| `ActivationTheorems.FailureTellsEachOnce` | bus/activation.c:1299-1340 | a failure tells each connected requester once, and nobody else |
| `ActivationTheorems.AcquisitionTells` | bus/activation.c:1150-1281 | an acquisition says to every request what there is to say to it: a reply, that it was handed on, an error, or the last two; and nothing else |
| `ActivationTheorems.HandedOnInOrder` | bus/activation.c:1236-1281 | replies come in order of arrival, messages are handed on in order of arrival, and each at most once |
| `ActivationTheorems.CancelledAcquisitionRestores` | bus/activation.c:1087-1148 | a cancelled acquisition leaves the state it began in, equal in every field, except for the errors that were sent at once |
| `ActivationTheorems.CancelledRequestTakesAll` | bus/activation.c:1562-1575 | cancelling one request drops the whole pending activation without an outcome for the others |
| `ActivationRequests.QueuedIs` | bus/activation.c:1845-1993 | a queued request is the last of those that wait for its name, with its connection and its kind; the command is that of the first request; nothing else changes |
| `ActivationRequests.RequestStays` | bus/activation.c:1845-1993 | over every run: as long as it waits, it is the same request, under the same name and command |
| `ActivationRequests.AcquisitionAnswers` | bus/activation.c:1150-1281 | an acquisition that is executed answers every waiting request, added to what it had been told: an explicit one [Started], an auto-start one [PassedOn] or as its dispatch failed, and one that is disconnected nothing |
| `ActivationRequests.FailureAnswers` | bus/activation.c:1299-1340 | a failure answers every connected one with one error |
| `ActivationRequests.RequestIsAnswered` | bus/activation.c:1150-1281 | from the request to its answer, over every run in between: a connected explicit request that still waits is answered [Started], a connected auto-start one that is handed on [PassedOn] |
| `ActivationRequests.RequestOutlivesTransaction` | bus/connection.c:2606-2620 | when the transaction of the request is executed, the request still waits, and nobody has been told anything |
| `ActivationRequests.GiveUpIs` | bus/activation.c:2275-2280 | a name that is given up is no longer waited for; its requests count no longer, unless a hook still holds them |
| `ActivationRequests.HookRunIs` | bus/activation.c:1087-1148 | a hook that runs takes its name out of the table, or puts it back as it was, and touches no other pending activation |
| `ActivationRequests.ConnectedIs` | bus/activation.c:1299-1340 | who is connected, and who has a preallocated error |
| `ActivationRequests.StillReadyIff` | bus/connection.c:1387-1415 | after an acquisition a connection has its preallocated error exactly if it had one and was not told at once |
| `ActivationCode.BusActivation.ActivateService` | bus/activation.c:1737-2280 | the answer is "too many" exactly at the limit, "no such service" exactly without a service file and "not allowed" exactly if the policy denies an auto-start; while nothing fails for memory or in starting a command, "not started" exactly if systemd has to be asked and refuses or would itself be over the limit; an accepted request is queued with its hook, its command and its kind, the table gains this name and, if systemd has to be started first, that of systemd; otherwise nothing has been queued or nobody is left waiting for the name, and at most an empty transaction is left open |
| `ActivationCode.BusActivation.StartViaSystemd` | bus/activation.c:2040-2140 | every step is one of the nested transaction, which is closed, or left behind empty for want of memory; systemd itself is requested exactly if it does not run, and below the limit |
| `ActivationCode.BusActivation.Launch` | bus/activation.c:2030-2280 | succeeds, while nothing fails for memory or in starting a command, exactly if systemd is not asked or can be; otherwise the name is given up, last of all |
| `ActivationCode.BusActivation.ActivateSystemd` | bus/activation.c:2099-2118 | the nested request is refused at the same limit, and otherwise queued for the daemon itself, unless memory runs out |
| `ActivationCode.BusActivation.EnqueueRequest` | bus/activation.c:1845-1993 | queues this request with its hook, as `ActivationRequests.QueuedIs` spells out; without memory for the hook the whole pending activation goes; it does not fail while there is enough memory |
| `ActivationCode.BusActivation.NameIsAcquired` | bus/activation.c:1150-1293 | answers everybody and takes the pending activation out under a restoring hook, or, for want of memory, has said a beginning of that in a transaction that can only be cancelled; it aborts only if an assertion of the preallocated error fails |
| `ActivationCode.BusActivation.SendPendingMessages` | bus/activation.c:1236-1274 | the loop says what the fates come to, in order, and uses up exactly the preallocated errors it needs; it reaches a failing assertion exactly if one of them is not there |
| `ActivationDispatch.Resume` | bus/activation.c:1243-1272 | resumes one dispatch in the open transaction: the posts, the edits of the reply table, the error and the preallocated error are those of one of the five fates, or the assertion of the preallocated error is reached without one; while there is enough memory a message without an objection is handed on |
| `ActivationDispatch.ResumeAll` | bus/activation.c:1236-1274 | the whole loop comes to fates that leave nobody told at once without a preallocated error, or reaches that assertion; every error is the objection to its message at its turn, or memory; while there is enough memory nobody is told at once |
| `ActivationDispatch.HandedOnIff` | bus/dispatch.c:148-175 | the new owner is posted the message exactly once unless it is denied |
| `ActivationDispatch.PostedIs` | bus/activation.c:1253-1272 | what everybody is posted and sent by one resumed dispatch: one copy to each recipient that was reached, and to the sender, if it failed, the error with the serial of its message, in the transaction or at once |
| `ActivationDispatch.OwnerGets` | bus/activation.c:1236-1274 | of the messages of clients the new owner is posted exactly those of the connected auto-start requests that were not denied, in the order of their arrival |
| `ActivationCode.BusActivation.PendingActivationFailed` | bus/activation.c:1345-1356 | after any number of attempts without memory, exactly one round of errors and the pending activation is gone |
| `ActivationCode.BusActivation.ChildFailed` | bus/activation.c:1469-1492 | exactly the names whose pending activation has the same command go, and that of the child, which is last; no other step is taken |
| `ActivationCode.BusActivation.CancelAndFree` | bus/connection.c:2552-2566 | the messages are dropped, then all hooks run, newest first, then they are freed in the same order |
| `ActivationCode.BusActivation.ExecuteAndFree` | bus/connection.c:2606-2620 | the messages go out and the hooks are freed without being run |
| `ActivationCode.OneWayToEnd` | bus/connection.c:2552-2566 | that order determines every step to the end of the transaction |
| `ServiceFiles.EveryRunKeepsInv` | bus/activation.c:401-568 | under all additions, edits, renames, deletions and memory failures, whatever has a name is keyed by its own name and is in its own directory under its own file name |
| `ServiceFiles.RegisteredIff` | bus/activation.c:516-530 | a step keeps every file registered exactly if it does not edit one to claim another's name |
| `ServiceFiles.RegisteredInEveryRunIff` | bus/activation.c:516-530 | all files stay registered throughout a run exactly if it contains no such edit |
| `ServiceFiles.DeletionTakesAnothersName` | bus/activation.c:620-632 | for every file that claims a taken name: another file that takes its old name loses it when the first is deleted |
| `ServiceFiles.ServiceIndex.AddEntry` | bus/activation.c:401-513 | registers a well-named file with a free name in both tables, or in neither |
| `ServiceFiles.ServiceIndex.RewriteEntry` | bus/activation.c:514-568 | renames in place, with the command and the time of the file, or unregisters if the name is taken, or unfiles without memory (that an entry says what its file says is `ServiceFiles.EntriesAfterScan` and `ServiceFiles.EntriesAreTrue`) |
| `ServiceFiles.ServiceIndex.CheckServiceFile` | bus/activation.c:589-686 | deletes the entry of a missing file and reads exactly a newer one again, unless that is missed unnoticed; out of memory it has done nothing or unfiled the changed entry; neither happens while there is enough memory |
| `ServiceFiles.ServiceIndex.UpdateDirectory` | bus/activation.c:692-835 | the index becomes what the turns of the listed service files make of it, one after the other, with the missed ones named; if memory runs out noticeably, what the turns before that made of it, and at most a changed file is unfiled; while there is enough memory none of that happens and none is missed |
| `ServiceFiles.ServiceIndex.UpdateServiceCache` | bus/activation.c:1601-1628 | the same for the turns of all directories |
| `ServiceFiles.CachedAfterScanIff` | bus/activation.c:748-806 | after any scan, a file on disk is cached exactly if it was before, or at one of its turns it was complete, well named and its name was free; a missing one exactly if it was before and had no turn |
| `ServiceFiles.ListedIsCached` | bus/activation.c:748-806 | every listed, complete file is cached after the scan, unless it was missed, or badly named for its directory, or its name was another's at its turn |
| `ServiceFiles.FoundAfterScanIff` | bus/activation.c:1601-1628 | after any scan a name is registered exactly if a turn gave it, or it was registered before, and no later turn took it |
| `ServiceFiles.CurrentAfterScan` | bus/activation.c:589-686 | after any scan every listed file that was not missed is current: what is cached for it exists on disk and is as new as the file, if it can be found by name and the file is complete |
| `ServiceFiles.EntriesAfterScan` | bus/activation.c:514-568 | after any scan, what is cached for a file is as it was, or has the name, the command, the place and the time of the file on disk |
| `ServiceFiles.ListedIsRead` | bus/activation.c:661-673 | after any scan, a listed, complete file that can be found by name and was not missed is cached with what it says, or is no newer than what was cached |
| `ServiceFiles.NamedAfterScan` | bus/activation.c:514-568 | after any scan, the entry of every name is as it was or says what its file says |
| `ServiceFiles.EntriesAreTrue` | bus/activation.c:514-568 | over every run and every history of the files: every name leads to an entry whose command is what its file said at the time that the entry records |
| `ServiceFiles.EntersIff` | bus/activation.c:401-513 | a turn adds a file exactly if it is not cached, exists, is complete, its name is free and it is called after its name where that is demanded |
| `ServiceFiles.TurnsAre` | bus/activation.c:748-760 | the turns are the listed files that end in .service, in order |
| `ServiceFiles.ServiceIndex.FindEntry` | bus/activation.c:1630-1665 | a cached name is found exactly if its file still exists; the entry is then, in every field, what the newer file says, or what it was if the file is no newer, was missed, is incomplete or claims a taken name; another name is found exactly if some file gives it and none takes it later in the scan, and its entry says what its file says; while there is enough memory nothing is missed |
| `ServiceFiles.ServiceIndex.Clear` | bus/activation.c:854-944 | reloading starts from empty tables for the configured directories; the entries that are in use stay |
| `ServiceFiles.ServiceIndex.ListServices` | bus/activation.c:2282-2316 | every activatable name once |
| `Containers.EveryRunKeepsInv` | bus/containers.c:272-366 | every step keeps the references, the counts per user, the limits and the record of signals |
| `ContainerCode.CountsInEveryRun` | bus/containers.c:845-895 | each user's count is the number of its registered instances, within both limits |
| `ContainerCode.RemovedExactlyOnce` | bus/containers.c:280-300 | an instance is signalled as removed once if it was announced and is gone, and never otherwise |
| `ContainerCode.FreedOnlyWhenIdle` | bus/containers.c:302-312 | an instance goes away only without server, without connections and without slots |
| `ContainerCode.NoneLingers` | bus/containers.c:272-343 | in every run, an instance that is there is being set up, has a server that listens, or has a connection |
| `ContainerCode.BusContainers.UnrefInstance` | bus/containers.c:272-342 | the last reference signals, unregisters and uncounts, however often the signal has to be tried |
| `ContainerCode.BusContainers.AddServer` | bus/containers.c:664-976 | the limit is exceeded exactly if there are as many containers as allowed, in all or for this user; otherwise, unless something fails, exactly one announced, listening instance with one reference is added; in all other cases instances, counts, announcements and signals are as before |
| `ContainerCode.BusContainers.NewConnection` | bus/containers.c:491-546 | full exactly at the limit; otherwise, unless something fails, the connection is last in the list and the instance has one reference more; in all other cases nothing has changed |
| `ContainerCode.BusContainers.RemoveConnection` | bus/containers.c:1350-1395 | what the connection created stops listening, it leaves its own container's list, no other instance changes, and no other step is taken |
| `ContainerCode.BusContainers.Finalize` | bus/containers.c:473-489 | a connection that is freed gives up its slot and the one reference that goes with it |
| `ConfigMerge.MergeDo` | bus/config-parser.c:347-418 | merging and then processing a directive is processing it before merging |
| `ConfigMerge.MergeFold` | bus/config-parser.c:347-418 | processing directives in a parser of their own and merging the result is processing them in place |
| `ConfigMerge.MergeIsConcatenation` | bus/config-parser.c:347-418 | merge(fold xs, fold ys) = fold(xs + ys) for ys without syslog |
| `ConfigMerge.MergeAny` | bus/config-parser.c:382-389 | for any ys the syslog elements are lost, and the equation holds exactly if there are none or syslog was on |
| `ConfigMerge.FlagsAreShared` | bus/config-parser.c:281-304 | a service directory has a flag exactly if all its mentions have it |
| `ConfigMerge.FirstMentionOrder` | bus/config-parser.c:281-304 | service directories come in the order of their first mentions |
| `ConfigInclude.Flattening` | bus/config-parser.c:2372-2443 | loading any tree of includes succeeds or fails as, and gives the same result as, processing its directives in order, with the syslog elements of included files left out |
| `ConfigInclude.FlatteningDir` | bus/config-parser.c:2479-2591 | the files of a directory that fail are skipped whole |
| `ConfigCode.MergeIncluded` | bus/config-parser.c:347-418 | the loops compute the merge; out of memory leaves some contexts of the included file merged and nothing else |
| `ConfigCode.AppendUnique` | bus/config-parser.c:281-304 | the search loop adds a directory or narrows its flags |
| `ConfigCode.IncludeFile` | bus/config-parser.c:2372-2443 | terminates by the paths not yet on the stack, leaves the shared stack exactly as it found it, and given memory computes the specification; in any case a list of directives, each of which stands in a file, accounts for what it did |
| `ConfigCode.IncludeDirectory` | bus/config-parser.c:2479-2591 | the same for a directory: the errors of its files are forgotten, but not those of reading the directory |
| `ConfigCode.Load` | bus/config-loader-expat.c:161-311 | the elements of one file, up to the first failure: setting by setting, the configuration is what the directives of the file and all it includes mean (`ConfigMeaning.FoldSays`); without enough memory, what a list of directives means that stand in these files |
| `ConfigCode.LoadToplevel` | bus/config-parser.c:2903-2926 | the configuration of the daemon is, setting by setting, what the directives of its file and of all it includes mean on top of the default limits, and there is an address to listen on; given memory it fails exactly as the specification does |
| `ConfigInclude.ToplevelLoadsIff` | bus/config-parser.c:2917-2922 | the daemon's own file loads exactly if all its directives do and one of them, there or in an included file, is an address |
| `ConfigMeaning.FoldSays` | bus/config-parser.c:2593-2901 | what a list of directives comes to, setting by setting: the last user, type, pid file, helper, context of a name and value of a limit wins; a switch is on if it was or is set anywhere; addresses, mechanisms and directories are added in order |
| `ConfigMeaning.ToplevelMeans` | bus/config-parser.c:2903-2926 | when the daemon's file loads, its configuration is that of its flat list of directives, on top of the default limits and nothing else |
| `ConfigMeaning.SettableIff` | bus/config-parser.c:2084-2242 | which limits exist and which values they may have |
| `ConfigMeaning.NoIncludes` | bus/config-parser.c:2244-2335 | a file without includes loads exactly if all its elements are understood and its limits can be set, and its list is that of its own directives |
| `ConfigMeaning.FlatConcat` | bus/config-loader-expat.c:161-311 | the list of a file is the lists of its parts, one after the other, up to the first error |
| `ConfigMeaning.IncludeSplices` | bus/config-parser.c:2372-2443 | where a file is included, its own list stands, without syslog; if it is missing, nothing does or loading fails; and one that is being included already makes it fail |
| `ConfigMeaning.DirectoryContributes` | bus/config-parser.c:2479-2591 | of a directory, the files that end in .conf and load, one after the other |
| `ConfigMeaning.DirectorySplices` | bus/config-parser.c:2479-2591 | where a directory is included, what its files contribute stands, and then the directory itself; a missing one is nothing, and one that cannot be read an error |
| `ConfigMeaning.DirectoriesAre` | bus/config-parser.c:281-304 | the service directories are those that are mentioned |
| `ExpatLoader.EveryRunKeepsShape` | bus/config-parser.c:2021-2082 | for every sequence of callbacks the stack has one of the listed shapes of depth at most three, no element on it is without a type, and the multiple-content assertion is not reached |
| `ExpatLoader.ContentKeepsInv` | bus/config-parser.c:2593-2613 | only the innermost element can have had its content, and only in the middle of a callback or after a failure |
| `ExpatLoader.StackIsOpenElements` | bus/config-parser.c:2244-2335 | unless a callback failed, the stack is the elements started and not ended |
| `ExpatLoader.AcceptedIsBalanced` | bus/config-parser.c:2903-2927 | when no callback failed, the stack is empty exactly if every element that was started was ended |
| `ExpatLoader.AcceptedIff` | bus/config-parser.c:2021-2335 | a file is accepted exactly if every element is known and stands where it may, has acceptable attributes, and text where and only where it is to have it, every element is ended in turn, and memory suffices |
| `ExpatLoader.ExpatContext.Content` | bus/config-parser.c:2593-2646 | marks the element on top as read, or fails; its assertions hold in every state the loader can be in |
| `ExpatLoader.ExpatContext.StartElement` | bus/config-loader-expat.c:62-121 | flushes the text, then pushes the element if it is allowed there |
| `ExpatLoader.ExpatContext.EndElement` | bus/config-loader-expat.c:123-140 | flushes the text, then pops the element if it is complete |
| `ExpatLoader.ExpatContext.CharacterData` | bus/config-loader-expat.c:142-159 | text is collected until the next element starts or ends, or fails |
| `DesktopFile.RoundTrip` | bus/desktop-file.c:395-578 | parsing a canonical print of any sections gives them back, in order |
| `DesktopFile.UnescapeEscaped` | bus/desktop-file.c:181-265 | unescaping undoes escaping for every text without NUL |
| `DesktopFile.LaidOutLine` | bus/desktop-file.c:452-578 | a line is read the same however it is spaced around the equals sign and whichever of the three line ends it has |
| `DesktopFile.CommentSkipped` | bus/desktop-file.c:362-376 | comments are skipped |
| `DesktopFile.LocaleSkipped` | bus/desktop-file.c:484-496 | lines for a locale are skipped, whatever they say |
| `DesktopFile.LoneCarriageReturn` | bus/desktop-file.c:340-360 | a blank line that ends in a carriage return alone is skipped exactly if what follows is blank up to the newline; otherwise the file is rejected |
| `DesktopFile.BlankLineRejected` | bus/desktop-file.c:340-360 | for every header and line, a blank line between them is accepted or rejected by its line end |
| `DesktopMeaning.UnescapeIff` | bus/desktop-file.c:181-265 | unescaping gives a text exactly if each backslash is followed by s, t, n, r or a backslash, read as that byte, each other byte is read as itself, and there is no NUL |
| `DesktopMeaning.EndsOfLine` | dbus/dbus-string.c:1643-1693 | a line ends before a newline, a carriage return and newline, a carriage return alone, or the end of the file |
| `DesktopMeaning.HeaderLine` | bus/desktop-file.c:395-450 | a line that begins with a bracket starts a section if it ends with one and what is in between can be read, and otherwise is an error |
| `DesktopMeaning.ValueLine` | bus/desktop-file.c:452-578 | a key of letters, digits and minus signs, blanks, an equals sign, blanks and a readable value adds that line to the last section; an unreadable value is an error |
| `DesktopMeaning.BracketLine` | bus/desktop-file.c:484-496 | a key with a bracket after it is passed over |
| `DesktopMeaning.NoKey` | bus/desktop-file.c:466-482 | a line that does not begin with a key is an error |
| `DesktopMeaning.KeyNeedsSection` | bus/desktop-file.c:667-674 | so is one before the first section |
| `DesktopMeaning.NoEqualsSign` | bus/desktop-file.c:498-520 | so is a key with nothing after it |
| `DesktopMeaning.NotAnEqualsSign` | bus/desktop-file.c:498-520 | so is a key with another byte after it |
| `DesktopMeaning.Skipped` | bus/desktop-file.c:340-376 | blank lines and comments are passed over |
| `DesktopCode.UnescapeString` | bus/desktop-file.c:181-265 | never writes past its buffer of one byte more than the text, and computes the unescaped text or reports the right error; out of memory only if there is not enough |
| `DesktopCode.Parser.NewSection` | bus/desktop-file.c:134-302 | adds the section or changes nothing; the sections fit into the array, which has at most twice their number allocated |
| `DesktopCode.Parser.NewLine` | bus/desktop-file.c:319-338 | the same for the lines of a section |
| `DesktopCode.Parser.ParseNext` | bus/desktop-file.c:651-679 | every turn of the loop moves strictly forward and reads one line as the grammar says |
| `DesktopCode.Parser.Load` | bus/desktop-file.c:601-686 | for every byte sequence the parser ends with what the grammar says, or out of memory, which does not happen while there is enough |
| `DesktopCode.GetRaw` | bus/desktop-file.c:690-756 | the value of the first such key of the first such section, or nothing if there is none |
| `DesktopCode.LookupAfterPrint` | bus/desktop-file.c:690-756 | every lookup gives the same before and after printing and parsing |

## Left out

- Monitors and message capture: they add recipients outside of the reply rules.
- Names, match rules, policy rules and the methods of the daemon itself: their answers are parameters.
- Names and match rules that a connection gives up when it disconnects: only its messages, its expected replies and the lists are modelled.
- Messages for the daemon itself in `bus_dispatch`, and dispatch that starts an activation: the request is `ActivationCode` and the rest of the dispatch is `ActivationDispatch`, but they do not share one state.
- ActivationDispatch.ResumeAll: only for requests of connections; the daemon's own request for systemd, which has no sender, is in `ActivationCode` alone.
- Policy of the daemon's own replies in `Activation`: a reply counts as said even if the policy then silently drops it.
- Dispatch.CheckSecurityPolicy: for a sender that has said Hello; the driver's own messages go through a separate yes-or-no answer.
- Connections.BusConnections.ExpectReply: requires that no other open transaction has edited the reply table, which is how the daemon uses it; what happens otherwise is `ReplyTheorems.CancelSafeIff`.
- Connections.BusConnections.CheckReply: likewise.
- ReplyTheorems.TimerInTime: the clock starts above zero, because a stamp of zero marks an orphaned expectation.
- The time that passes between arming a timer and the main loop noticing it.
- Limits that change while the daemon runs: every limit is fixed for a run.
- Failures that systemd reports itself (bus/activation.c:2326): they end in the same `PendingActivationFailed`.
- Activation messages are recorded as outcomes of requests, not as messages in `Transactions`; errors that the dispatcher sends to a request that could not be queued are not counted as outcomes.
- ActivationCode.BusActivation.PendingActivationFailed: the number of attempts without memory is a parameter, so that the retry loop ends; `ContainerCode.BusContainers.UnrefInstance` likewise.
- Spawning, babysitters, argument vectors and the environment: "started" or "not started" is all that is left of them.
- Reference counts of service-file entries; entries are kept by identity and never reused.
- Pending activations, container instances and service-file entries are values in a map from identities, not objects of their own; their aliasing is that of the identities.
- Container metadata, arguments and addresses: `AddServer` starts where they are known to be good.
- Policy elements, paths relative to the including file and the SELinux attributes of includes: paths are taken as already resolved.
- The content rules of single elements in `ExpatLoader`: whether the text or the attributes are acceptable is a parameter.
- The size limit and the UTF-8 check of service files, and the numbers in error messages.
- The arrays of sections and lines in `DesktopCode` are sequences with a separate capacity; only the unescaping buffer is an array.
