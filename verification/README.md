# A verified model of the CWMP auto-configuration server

The server speaks CWMP (TR-069) to devices. A client of its API enqueues RPCs for a device; the RPCs wait in a
persistent queue until the device opens a session, and the session sends them one at a time and waits for the
answers. This project models four parts of it and proves what they promise:

* **The session machine with its persistent queue.** `Machine` is the specification: what one request of a device or
  of the API does to the tables, the session objects, the two session indexes and a ghost record of everything that
  happened (`History`). `QueueInvariant` and `MachineInvariant` hold the inductive invariant, `Runs` and `SessionRuns`
  the statements about every run, with any number of sessions per device and any database call failing. `Requests`
  says for each kind of request what it is answered and what it leaves behind, in terms of what was asked.
  `EndlessSearch` follows the one loop that need not end. `Database` and `Controller` are the code as it runs - tables,
  session records changed in place, maps of pointers - proved against the machine, and `Server.Serve` shows that
  whatever calls come in, the server goes through a run of the machine and answers as the machine does.
* **The SOAP envelope printer and reader.** `Dom` and `Generators` build element trees in place and print them;
  `EnvelopeReader` is the one-pass loop with two stacks of pointers into growing slices, where growing a slice may move
  its cells. `Envelope` is the same reader as a fold, `EnvelopeRoundTrip` proves that it inverts the printer under
  every padding. `MessageParsers`, `Inform` and `Decoding` read messages; `RoundTrips`, `MessageRoundTrips` and
  `ParameterRoundTrips` close the circle from a message to its text and back, `EndToEnd` follows an answer from the
  wire to the queue, and `Replies` says what a device gets back for what it puts on the wire.
* **The event broker.** `BrokerProtocol` interleaves publishers, subscribers, unsubscribers and consumers in steps no
  larger than the lock allows, where new readers wait behind a writer that waits; `EventBroker` is the same code call
  by call, each call a path of the protocol. The events the server publishes are a field of `Controller.Acs`, and
  `Valid` ties them to the record.
* **Version negotiation** (`Versions`).

A few conventions. A session object's identity is its place in the order of creation. Scripts of faults say
which of the database calls of a request fail, and are finite: after them calls succeed. Every theorem that does not ask
for deletions that succeed holds whatever these scripts say; scripts that go on for ever are those of `EndlessSearch`.
JSON decoding and `Sscanf` are functions the theorems quantify over (`Config`). The order in which Go visits a map is
left open: the namespaces kept of a double declaration, the order of a method list, the missing parameter an Inform is
refused for. UUIDs are fresh. A handler that dereferences a nil session or an absent RPC element replies `Crash`.

Where comments and code of the repository disagree the code is followed: no cleaner ever removes an abandoned session
(the comments at internal/controllers/cwmp_controller.go:92 and :210 expect one); `UseCWMPVersion` and `HoldRequests`
from a device are never rejected, because the header parser never fills them; rejected messages get no SOAP fault when
no session was found to take prefixes from (`SessionRuns.CrashesExactly` says exactly when, and two lemmas of `Replies`
give the envelopes that do it).

Five expectations fail, each with an input that shows it and the exact condition under which they hold:

* Every request gets a reply. The search for the next RPC ignores failed deletions, so a row that was sent too often and
  cannot be deleted is fetched for ever, and neither the handler nor its session ends
  (`EndlessSearch.FailingDeletionsHang`); `EndlessSearch.NeverEndsExactly` has the condition. The queue keeps its
  invariant meanwhile (`EndlessSearch.SearchKeepsQueueInv`). The steps of `Machine` are the requests that do end, and
  `EndlessSearch.FiniteFaultsEnd` and `EndlessSearch.EndedIsFound` say that these are the ones its scripts describe.
* Every device can read the server's replies. For one that makes one of the five namespaces its default one, which the
  server accepts (`Replies.DefaultNamespaceIsAccepted`), everything is printed with a bare colon or without that
  namespace's declaration, and is no envelope (`Replies.PrintedForDefaultIsLost`); `MessageRoundTrips.EnvelopeIsRead`
  and `MessageRoundTrips.MessageIsRead` have the condition.
* Every reply carries the ID of the message it answers. Faults of a parser that gives up have an empty ID
  (`Replies.EmptyInformLosesId`); `Replies.EchoesExactly` has the condition.
* A device ID string identifies its device. With a product class, or with a dash in a part, another identity has the
  same string, and two such devices share a row and a queue (`Inform.DashesCollide`); `Inform.IdentifiesExactly` has the
  condition among all identities. Informs carry trimmed texts only (`Replies.InformIdentitiesAreAccepted`), so among the
  identities they carry a dash does no harm at an end of the string or beside white space:
  `Inform.IdentifiesAcceptedExactly` has that condition, and `Inform.BlanksKeepApart` an identity on which the two
  differ.
* A parameter list survives printing and reading. A type that an API client gives two prefixes loses both
  (`ParameterRoundTrips.TwoPrefixesAreLost`); `ParameterRoundTrips.ApiListRoundTrips` has the condition.

## Model

| member | source | states |
|---|---|---|
| Runs.FifoOverRuns | internal/controllers/cwmp_controller.go:424-453 | in every reachable state the rows of a device, put behind those that have left, are its accepted RPCs in the order of acceptance |
| Runs.LeavingOrderOverRuns | db/db.go:161-203 | along a run the rows that have left only get longer at the end and stay a prefix of what was accepted |
| Runs.ActiveIsFrontOverRuns | internal/controllers/cwmp_controller.go:291-294 | the active RPC of any session is at the front of its device's queue or gone from it, and that session sent it |
| Runs.BoundedRetryOverRuns | internal/controllers/cwmp_controller.go:437-441 | whatever fails, an RPC is sent at most six times and a device gets at most six sends per accepted RPC |
| Runs.SentAsAcceptedOverRuns | internal/controllers/cwmp_controller.go:443-447 | what is sent is the message that was validated, to its own device, while queued and at most five times sent |
| Runs.NothingIsLostOverRuns | internal/controllers/api_controller.go:107-116 | an accepted RPC is in its device's queue exactly as long as it has not left, and left only by an answer or after six sends |
| Runs.OnlyAnswersRemove | internal/controllers/cwmp_controller.go:399-422 | a removal by answer happens only in a step that delivers an answer in a session where the RPC is active |
| Runs.RowsLeaveForAReason | internal/controllers/cwmp_controller.go:406-409 | from one state of a run to the next a row disappears only if answered in a session of its device where it is active, or sent six times |
| Runs.PathExtends | internal/controllers/cwmp_controller.go:43-158 | the record of events only ever grows |
| SessionRuns.TurnSendsOrEnds | internal/controllers/cwmp_controller.go:142-157 | a turn sends one RPC to its device or ends the session, and sends plus remaining budget never grow |
| SessionRuns.TurnsAreBounded | internal/controllers/cwmp_controller.go:424-453 | without new RPCs for a device its sessions survive at most as many turns as its rows have sends left, whatever fails |
| SessionRuns.SessionEnds | internal/controllers/cwmp_controller.go:150-157 | whatever other requests come between, a session takes at most that many turns and one without new RPCs for its device; turns whose search does not end are none |
| SessionRuns.SessionsEndOnlyWhenEmpty | internal/controllers/cwmp_controller.go:428-435 | whatever fails, a turn ends the session only if nothing is left in its device's queue or the last fetch of its search failed |
| SessionRuns.ResponsesNeverExceedSends | internal/controllers/cwmp_controller.go:411-418 | over any run the response events of an RPC never exceed its sends |
| SessionRuns.ResponsesFollowSends | internal/controllers/cwmp_controller.go:406-418 | a response event follows a send of that RPC by that session to that device |
| SessionRuns.OneResponsePerSession | internal/controllers/cwmp_controller.go:288-295 | when the deletions on answers succeed, whatever else fails, a session publishes one event per RPC and nobody sends it again |
| SessionRuns.AnswersTakeEffect | internal/controllers/cwmp_controller.go:405-409 | an answer whose deletion succeeds removes its RPC and publishes exactly one event |
| SessionRuns.LifetimesOverRuns | internal/session/session.go:16-22 | session states never go back along a run, and a terminated session is in neither index ever after |
| SessionRuns.IndexesOverRuns | internal/controllers/cwmp_controller.go:236-241 | in every reachable state index keys are session IDs, indexed sessions are live, and each device entry leads to a session of that device in the ID index |
| SessionRuns.RegistrationOverRuns | internal/controllers/cwmp_controller.go:560-606 | in every reachable state sessions past their Inform and queued rows belong to registered devices |
| Requests.BootingDevicesAreTakenIn | internal/controllers/cwmp_controller.go:518-607 | an Inform with the event "0 BOOTSTRAP" or "1 BOOT" puts its device in the table, known or not, with what it says of itself and the last values under three suffixes, is published and gets the InformResponse of its ID and version; if the one call fails it gets fault 8002, and tables and record stay |
| Requests.OtherDevicesMustBeKnown | internal/controllers/cwmp_controller.go:564-585 | without such an event the same happens exactly if the device is in the table and both calls succeed; an unknown device gets fault 8001, a failed call fault 8002, and tables and record stay |
| Requests.WaywardPostsAreIgnored | internal/controllers/cwmp_controller.go:78-88 | an empty post whose cookie leads nowhere gets 204 and changes nothing |
| Requests.EmptyPostsOutOfTurnEndSessions | internal/controllers/cwmp_controller.go:90-100 | an empty post in a session that was not receiving gets 400 and ends it: its ID and its device lead nowhere any more, other sessions, tables and record stay |
| Requests.EmptyPostsInTurnSendOrEnd | internal/controllers/cwmp_controller.go:102-109 | in one that was receiving it starts the sending phase with an active RPC that the reply carries and the record shows as sent, or ends the session with 204 |
| Requests.AnswersSendOrEnd | internal/controllers/cwmp_controller.go:142-157 | an answer is followed by the next active RPC in the same way, its session keeping its state, or ends the session with 204 |
| Requests.AnswersCount | internal/controllers/cwmp_controller.go:399-422 | an answer with the ID of the active RPC is published, and its row removed unless the call fails or it is gone; one with another ID publishes and removes nothing; then the record shows sends and RPCs given up only |
| Requests.MethodsAreListed | internal/controllers/cwmp_controller.go:376-390 | GetRPCMethods in a session gets a GetRPCMethodsResponse with its ID and the three names, each once, and changes nothing |
| Requests.StrangersAreRefused | internal/controllers/cwmp_controller.go:242-260 | without a session any other message gets fault 8001 with its own header, and changes nothing |
| Requests.UnreadableIsRefused | internal/controllers/cwmp_controller.go:111-139 | a message whose parser gives up gets the header, source, code and text of the parser's fault, or 500 for other errors; tables, record and indexes stay |
| Replies.UnreadableGetsFault | internal/controllers/cwmp_controller.go:455-474 | on the wire: an element its parser cannot read gets fault 8003 of the client without a header, or 500 if it is a Fault; an unknown name gets fault 8000 with the message's header |
| Requests.RepliesKeepPrefixes | internal/controllers/cwmp_controller.go:203-241 | along any run everything sent in a session after its Inform is printed with the namespaces and prefixes of that Inform |
| Requests.AcceptedIsQueued | internal/controllers/api_controller.go:79-116 | a request with a known device, an RPC that builds and no failing call appends one unsent row and is recorded; any other changes nothing |
| Requests.ApiStatus | internal/controllers/api_controller.go:79-135 | 202 exactly if it is queued and either no session was asked for, one is under way or the device can be reached; else 500 if queued, and which of 400 and 500 if not |
| Replies.InformsRegisterExactly | internal/controllers/cwmp_controller.go:227-241 | an Inform on the wire registers its session in both indexes, under its cookie and its device, exactly if its element can be read; else indexes, tables and record stay as they are |
| SessionRuns.CrashesExactly | internal/controllers/cwmp_controller.go:174-186 | exactly which requests kill their handler instead of getting a fault, and that they change nothing |
| Replies.EmptyBodyCrashes | internal/controllers/cwmp_controller.go:174-176 | an envelope with an empty body, however padded, decodes to one thing only, and kills the handler in every state |
| Replies.SessionTimeoutCrashes | internal/controllers/cwmp_controller.go:328-334 | so does every envelope with a SessionTimeout and an RPC other than Inform |
| SessionRuns.ReplyIds | internal/controllers/cwmp_controller.go:243-295 | whose ID a reply has: that of the message if it is turned away or is a request that parses, that of the parser's fault if it does not, and that of the session's next RPC after an answer |
| Replies.EchoesExactly | internal/xml/cwmp_1_4/parsers.go:483-552 | on the wire: a reply that is not the next RPC after an answer carries the ID of the message exactly if that ID is empty, no parser is reached, or the element can be read |
| Replies.EmptyInformLosesId | internal/xml/cwmp_1_4/parsers.go:497-549 | an Inform with an ID and no contents is refused with a fault that has no ID |
| MachineInvariant.StepKeepsInv | internal/controllers/cwmp_controller.go:43-158 | every request, API call and restart keeps the invariant that ties queue, sessions, indexes, devices and events together |
| MachineInvariant.HandleKeepsInv | internal/controllers/cwmp_controller.go:160-298 | the same for one request of a device, with any database failures |
| MachineInvariant.EnqueueKeepsInv | internal/controllers/api_controller.go:79-135 | the same for one request of the API |
| QueueInvariant.EnqueueKeepsQueueInv | internal/controllers/api_controller.go:107-116 | accepting an RPC leaves every row rebuildable to the message accepted under its ID, in order and within budget |
| QueueInvariant.SendKeepsQueueInv | db/db.go:173-197 | counting a fetch and sending the row keep count and record of sends in step |
| QueueInvariant.DeleteKeepsQueueInv | db/db.go:200-203 | deleting the front row keeps order, budget and the other devices' queues |
| QueueInvariant.FindOutgoingServes | internal/controllers/cwmp_controller.go:427-450 | the search for the next RPC serves the front row, drops only rows sent six times, and finds nothing only if a fetch failed or the device's queue is empty, never because a row cannot be rebuilt |
| Controller.PickRpc | internal/controllers/cwmp_controller.go:424-453 | if its failures come to an end, the fetch-and-delete loop ends and does to the tables what the machine's search does |
| EndlessSearch.NeverEndsExactly | internal/controllers/cwmp_controller.go:427-441 | for any failures at all: the loop never ends exactly if no fetch ever fails and fewer deletions ever succeed than there are worn-out rows in front of the device's queue |
| EndlessSearch.FailingDeletionsHang | internal/controllers/cwmp_controller.go:437-440 | with a worn-out row in front it never ends if fetches work and deletions do not |
| EndlessSearch.SearchKeepsQueueInv | internal/controllers/cwmp_controller.go:427-441 | however long it goes on, the queue keeps its invariant, and rows in front of a queue stay there or leave for good |
| EndlessSearch.FiniteFaultsEnd | internal/controllers/cwmp_controller.go:427-441 | if from some call on nothing fails, it ends |
| EndlessSearch.EndedIsFound | internal/controllers/cwmp_controller.go:424-453 | a loop that ends has done what the machine's search does with the failures it met |
| Controller.Acs.FindOutgoingRpc | internal/controllers/cwmp_controller.go:424-453 | the same for the server's own state, with nothing else changed |
| Controller.Acs.AcceptResponse | internal/controllers/cwmp_controller.go:405-418 | the row is deleted, the RPC is active no more and the event published is the one the machine records |
| Controller.Acs.ProcessIncomingResponse | internal/controllers/cwmp_controller.go:399-422 | new state, remaining failures and published events are the machine's |
| Controller.Acs.RegisterAndPublish | internal/controllers/cwmp_controller.go:560-606 | tables and answer are the machine's, and an event is published exactly if the answer is an InformResponse |
| Controller.Acs.ProcessInformRequest | internal/controllers/cwmp_controller.go:518-607 | together with the sending of the answer, the machine's treatment of an Inform for every pattern of database failures |
| Controller.RefreshDevice | internal/controllers/cwmp_controller.go:568-584 | a device that does not boot is updated if known and no call fails, and which of the three faults it gets otherwise |
| Controller.RegisterDevice | internal/controllers/cwmp_controller.go:560-595 | exactly when an Inform is answered by an InformResponse, with a boot event and without, and that the row is stored exactly then |
| Controller.DetermineCwmpVersion | internal/controllers/cwmp_controller.go:339-365 | the branches and the loops they call lead to the version of the machine |
| Controller.FindBootEvent | internal/controllers/cwmp_controller.go:520-529 | true exactly if some event is a bootstrap or boot |
| Controller.Acs.CreateNewSession | internal/session/session.go:40-55 | a new record with the drawn ID, in neither index |
| Controller.Acs.HandleInformMessage | internal/controllers/cwmp_controller.go:203-241 | together with the sending of its outcome, the machine's treatment of an Inform |
| Controller.Acs.HandleOtherMessage | internal/controllers/cwmp_controller.go:242-295 | together with the sending of its outcome, the machine's treatment of any other message |
| Controller.Acs.HandleIncomingMessage | internal/controllers/cwmp_controller.go:160-298 | together with the sending of its outcome, the machine's step |
| Controller.Acs.Conclude | internal/controllers/cwmp_controller.go:111-157 | sending the outcome, printed with the session's prefixes, or ending the session, as the machine does |
| Controller.Acs.HandleEmptyPost | internal/controllers/cwmp_controller.go:73-108 | an empty post does what the machine says, and one that is refused has ended its session |
| Controller.Acs.CwmpHandler | internal/controllers/cwmp_controller.go:43-158 | new state and reply are the machine's for every body, cookie and pattern of failures, and replies are printed with the namespaces of the session, or of the message if it opens or finds none |
| Controller.Acs.ApiHandler | internal/controllers/api_controller.go:79-135 | new state and reply are the machine's for every API request |
| Controller.MapOrder | internal/controllers/cwmp_controller.go:376-390 | a visit of the map, whose order becomes that of the list sent, finds the three method names, each once |
| Controller.AnswerFinishes | internal/controllers/cwmp_controller.go:142-149 | processing an Inform and sending its answer is one step of the machine |
| Controller.FoundIsNoAnswer | internal/controllers/cwmp_controller.go:443-452 | the search only yields RPCs of the server's own |
| Server.HandleCall | internal/controllers/cwmp_controller.go:43-158 | reading a body and handling it is an enabled step of the machine whose message decodes from that body, and the reply is the machine's, printed as it goes out |
| Server.Serve | internal/controllers/cwmp_controller.go:43-158 | whatever calls come in, the server goes through a run of the machine and gives the machine's replies, so what holds of all runs holds of it |
| EndToEnd.DeliveredAnswerTakesEffect | internal/controllers/cwmp_controller.go:399-422 | in every reachable state an answer printed with the active RPC's ID, however padded, is read back, removes the RPC and is published once as it was read |
| Database.Db.AddDevice | db/db.go:65-90 | inserts or replaces the row of the device, or changes nothing if it fails |
| Database.Db.UpdateDevice | db/db.go:92-107 | replaces the row of a known device only |
| Database.Db.GetDeviceByID | db/db.go:109-135 | the stored device, absent or failed, told apart |
| Database.Db.IsDeviceRegistered | db/db.go:137-148 | whether the device has a row |
| Database.Db.QueueRPC | db/db.go:150-159 | a new last row with a new id and no sends |
| Database.Db.FetchQueuedRPC | db/db.go:161-198 | the device's row with the least id, its old count returned and its count increased, or nothing changed |
| Database.Db.DeleteQueuedRPC | db/db.go:200-203 | all rows with the message ID go, the others keep their order |
| Database.DeviceRoundTrips | db/db.go:65-135 | a stored device reads back but for the two versions, which have no column, and other devices are untouched |
| Tables.LeastId | db/db.go:173-176 | the row of the device with the least id, or that there is none |
| Tables.LeastIdIsFront | db/db.go:173-176 | the row fetched is the front of the device's queue, and none is fetched exactly when it is empty |
| Tables.PendingOfDeleted | db/db.go:200-203 | deleting a device's front row takes the first ID from its queue and leaves other devices' queues alone |
| ApiMessages.BuildCwmpMessageFromParts | internal/controllers/api_controller.go:145-282 | the branches and loops build the message, or refuse, as the request's contents say |
| ApiMessages.ValuesAreBuilt | internal/controllers/api_controller.go:252-277 | a SetParameterValues request builds exactly if it decodes to a non-empty list, with one parameter per entry, its name, its value and its type after the first colon, in order, and the key |
| ApiMessages.AttributesAreBuilt | internal/controllers/api_controller.go:229-251 | the same for SetParameterAttributes, every entry field by field |
| ApiMessages.ObjectsAreBuilt | internal/controllers/api_controller.go:147-174 | AddObject and DeleteObject build exactly if the request decodes and names an object, with that name and key |
| ApiMessages.NameListsAreBuilt | internal/controllers/api_controller.go:175-200 | GetParameterValues and GetParameterAttributes build exactly if the request decodes to a non-empty list, with that list |
| ApiMessages.OthersAreBuilt | internal/controllers/api_controller.go:201-228 | the requests that need no contents, and that exactly the names of no RPC are unsupported |
| ApiMessages.TypeFollowsFirstColon | internal/controllers/api_controller.go:262-265 | the type of a parameter is what follows the first colon of the type asked for, or all of it |
| ApiMessages.BuildIsIdIndependent | internal/controllers/api_controller.go:141-145 | whether a request builds does not depend on its ID, which is all that differs |
| ApiMessages.RebuildFromColumn | db/db.go:52-55 | rebuilding from the stored column gives the message that was validated, NULL included |
| Versions.MaxCommonVersion | internal/cwmp/cwmp_versions.go:59-90 | the loops compute the negotiated version |
| Versions.MaxCommonIsMaximum | internal/cwmp/cwmp_versions.go:67-87 | the result is the maximum supported version listed, and nothing else is |
| Versions.UnknownIffNoneListed | internal/cwmp/cwmp_versions.go:60-64 | nothing is negotiated exactly when no supported version is listed |
| Versions.MaxCommonOfJoined | internal/cwmp/cwmp_versions.go:67-69 | negotiating two joined lists is taking the higher of both results, for all strings |
| Versions.MaxCommonIgnoresOrder | internal/cwmp/cwmp_versions.go:69-87 | order and repetition do not matter |
| Versions.MaxCommonOfToString | internal/cwmp/cwmp_versions.go:42-57 | the printed form of a supported version negotiates to that version |
| Versions.VersionText | internal/cwmp/cwmp_versions.go:21-57 | a supported version is written as its two numbers with a dot between them |
| Inform.NegotiatedVersion | internal/controllers/cwmp_controller.go:339-365 | without a list each namespace URL leads to exactly its version, the 1.2 URL to 1.3 exactly with a SessionTimeout; a list leads to the greatest supported version on it |
| Inform.IdentifiesExactly | internal/controllers/cwmp_controller.go:623-629 | no other identity has a device's ID string exactly if it has no product class and no dash |
| Inform.IdentifiesAcceptedExactly | internal/controllers/cwmp_controller.go:623-629 | the same among the identities that Informs can carry: no product class, and every dash but the separator is at an end of the string or has white space beside it |
| Inform.BlanksKeepApart | internal/controllers/cwmp_controller.go:623-629 | an identity with a dash that is alone with its string among those that Informs carry |
| Replies.InformIdentitiesAreAccepted | internal/xml/parser.go:81-94 | whatever the stream, the identity of an Inform that is read is one of these: its parts are trimmed, and two of them not empty |
| Inform.AcceptedIdentitiesAreRead | internal/xml/cwmp_1_4/parsers.go:554-597 | and each of these can be carried |
| Inform.DeviceIdStringsIdentify | internal/controllers/cwmp_controller.go:623-629 | in a fleet without dashes two ID strings are equal exactly when the identities are |
| Inform.DashesCollide | internal/controllers/cwmp_controller.go:623-629 | with a dash two different accepted devices share one ID string |
| Namespaces.BuildNamespaceMap | internal/xml/parser.go:171-181 | for every namespace some declaration binds, one of the declarations that bind it, whatever the order |
| Namespaces.PrefixesAreDistinct | internal/xml/parser.go:171-181 | different namespaces never get one prefix |
| Namespaces.SummaryIsUnique | internal/xml/parser.go:171-181 | without double declarations the order of the visit does not matter |
| EnvelopeReader.ParseSOAPEnvelope | internal/xml/parser.go:13-135 | the loop with pointer stacks returns what the fold returns, for every token stream, balanced or not |
| EnvelopeReader.PointersAreCurrent | internal/xml/parser.go:20-23 | whatever the stream, a flag tells whether its stack is in use, and every entry is the current last child of the one below |
| EnvelopeReader.PushChild | internal/xml/parser.go:55-61 | appending a child keeps all pointers current even when the slice moves |
| EnvelopeReader.AppendChild | internal/xml/parser.go:56-58 | a slice grows in place or by copying, with the same contents |
| EnvelopeReader.PopChild | internal/xml/parser.go:97-117 | dropping a pointer completes an element inside its parent |
| EnvelopeReader.CloseAll | internal/xml/parser.go:121-134 | elements still open at the end belong to their parents |
| EnvelopeRoundTrip.ReaderRefinesBuilder | internal/xml/parser.go:45-117 | with Header and Body under the Envelope the reader finds what a recursive builder finds in the tree, errors included |
| EnvelopeRoundTrip.EnvelopeRoundTrips | internal/xml/dom/dom.go:61-80 | reading any padding of a printed envelope with trimmed texts gives back Header and Body: names, attributes, texts, order |
| EnvelopeRoundTrip.RunElement | internal/xml/parser.go:55-94 | reading an element's tokens appends that element to the innermost open one |
| Envelope.RunClean | internal/xml/parser.go:81-95 | white space and tokens of other kinds are invisible to the reader in every state |
| Xml.PaddingIsInvisible | internal/xml/dom/dom.go:48-59 | an indenting encoder's white space, and comments, are padding |
| Xml.CleanTokens | internal/xml/parser.go:83-94 | dropping padding from the tokens of a tree is trimming the texts of the tree |
| Envelope.ReadTextsAreTrimmed | internal/xml/parser.go:81-94 | whatever the stream, no text that is read has white space at its ends |
| Dom.Encode | internal/xml/dom/dom.go:61-80 | the recursive encoder prints the tree its elements denote |
| Dom.DecodingResolves | internal/xml/dom/dom.go:48-59 | decoding printed tokens yields, to the end, the tree with its prefixes resolved |
| Generators.GenerateMessageParts | internal/xml/cwmp_1_4/generators.go:36-66 | the skeleton shared by all messages |
| Generators.GenerateFault | internal/xml/cwmp_1_4/generators.go:96-115 | prints the fault's tree, and refuses other messages |
| Generators.GenerateGetRPCMethods | internal/xml/cwmp_1_4/generators.go:171-180 | prints the request's tree |
| Generators.GenerateGetRPCMethodsResponse | internal/xml/cwmp_1_4/generators.go:182-201 | prints the method list in its order |
| Generators.GenerateInformResponse | internal/xml/cwmp_1_4/generators.go:203-226 | prints the version header only when there is a version |
| Generators.GenerateSetParameterValues | internal/xml/cwmp_1_4/generators.go:271-294 | prints the parameter list with its array type and each value with its type |
| Generators.GenerateXmlMessage | internal/controllers/cwmp_controller.go:476-490 | the generator of the message's name prints the message |
| Text.MatchArrayTypeExact | internal/xml/cwmp_1_4/parsers.go:418-418 | the matcher accepts exactly the strings of the pattern with exactly that capture |
| Text.ArrayTypeRoundTrip | internal/xml/cwmp_1_4/generators.go:285-285 | a printed array type is accepted and its count read back |
| Text.AtoiItoa | internal/xml/cwmp_1_4/parsers.go:451-458 | printing and reading a number is the identity on 64 bits and refused beyond |
| Text.TrimSpaceFixpoints | internal/xml/parser.go:83-84 | trimming lands in the trimmed texts and is the identity exactly on them |
| MessageParsers.ParseGetRPCMethodsResponse | internal/xml/cwmp_1_4/parsers.go:397-416 | the last method list, or the first error |
| MessageParsers.ParseMethodList | internal/xml/cwmp_1_4/parsers.go:420-481 | the texts of the items in order, or the error of the first check that fails |
| MessageParsers.ParseFault | internal/xml/cwmp_1_4/parsers.go:93-138 | source, code and text as the last element of each kind sets them |
| MessageParsers.FaultFieldsAreLast | internal/xml/cwmp_1_4/parsers.go:93-138 | a fault reads exactly if all codes in its details are numbers, and then has the last code, the last of all its texts and the last source named |
| MessageParsers.ParseParameterValueStructList | internal/xml/cwmp_1_4/parsers.go:681-765 | names, values and types in order, or the error of the first check that fails |
| MessageParsers.ParameterFieldsAreLast | internal/xml/cwmp_1_4/parsers.go:715-748 | a parameter reads exactly if its children are names and values, and then has the last name, value and type |
| MessageParsers.ListsHaveDeclaredLength | internal/xml/cwmp_1_4/parsers.go:756-764 | a list that reads has as many items as it declares and as it has children |
| MessageParsers.ParameterListReads | internal/xml/cwmp_1_4/parsers.go:681-765 | a parameter list reads exactly if it declares as many items as it has children and all are parameters, and then has one per child, in order |
| MessageParsers.MethodListReads | internal/xml/cwmp_1_4/parsers.go:420-481 | the same for a method list and the texts of its items |
| MessageParsers.ListAnswersCarryLastList | internal/xml/cwmp_1_4/parsers.go:364-416 | the two answers with lists carry the list of their last list element, or none if there is none, and are refused only if one of these elements cannot be read |
| MessageParsers.ParseCPEHeader | internal/xml/parser.go:149-169 | the last value of each of three header elements |
| MessageParsers.HeaderFieldsAreLast | internal/xml/parser.go:149-169 | each field is the text of the last element of its name |
| MessageParsers.LastTextIsLast | internal/xml/cwmp_1_4/parsers.go:554-597 | the last text of a name is that of a child no other of the name follows, or there is none |
| MessageParsers.HeaderFieldsNeverFilled | internal/xml/parser.go:158-165 | UseCWMPVersion and HoldRequests are never read from a device |
| Inform.IsValidInform | internal/xml/cwmp_1_4/parsers.go:767-800 | accepts exactly the Informs with manufacturer, events, parameters and every required suffix, and names a reason otherwise |
| Inform.ParseInform | internal/xml/cwmp_1_4/parsers.go:483-552 | the Inform its children spell out, each field from the last child of its name, if every child reads and the Inform is acceptable, or an error that fits |
| Inform.InformFieldsAreLast | internal/xml/cwmp_1_4/parsers.go:497-541 | an Inform element reads exactly if its DeviceId, Event, ParameterList, MaxEnvelopes and RetryCount children read, and then has the identity, the whole event and parameter lists, the numbers and the time of the last child of each name |
| Inform.ParseDeviceId | internal/xml/cwmp_1_4/parsers.go:554-597 | the four identity fields, each the last of its name, three of them required |
| Inform.ParseEventList | internal/xml/cwmp_1_4/parsers.go:601-677 | the events in order, or the error of the first check that fails |
| Inform.EventListReads | internal/xml/cwmp_1_4/parsers.go:601-677 | a list reads exactly if it declares as many items as it has children and all are events; it then has one event per child, each with the last code and key |
| Inform.Extract | internal/controllers/cwmp_controller.go:531-545 | the one pass finds the last value under each of five suffixes |
| Inform.TheSuffixesAreDisjoint | internal/controllers/cwmp_controller.go:534-543 | no name ends in two of the suffixes, so the order of the tests does not matter |
| Inform.AcceptedFieldsAreFound | internal/xml/cwmp_1_4/parsers.go:802-808 | an accepted Inform yields a value for a required suffix exactly when some name has a dot before it |
| Inform.AcceptedDeviceIsComplete | internal/controllers/cwmp_controller.go:547-558 | with the dots the stored record holds an actual value in each of the five fields |
| Inform.AcceptedButNotFound | internal/controllers/cwmp_controller.go:534-543 | without them an accepted Inform yields nothing |
| Decoding.ParseCwmpMessage | internal/controllers/cwmp_controller.go:455-474 | the parser of the name decides, and unknown names are refused with fault 8000 |
| Decoding.DispatchedReads | internal/controllers/cwmp_controller.go:455-474 | what the parsers return is a message exactly if the element can be read; their faults have code 8003 and no header, that of an unknown name has the message's |
| Decoding.ReadPost | internal/controllers/cwmp_controller.go:160-176 | a body is read as one of the things its tokens can mean |
| Decoding.DecodedIsWellFormed | internal/controllers/cwmp_controller.go:320-337 | whatever is sent, messages read are named after their element, carry their header and never are TransferComplete; a header is rejected exactly for two elements reserved to Informs |
| RoundTrips.SummariesAreUsable | internal/xml/parser.go:171-181 | the namespaces kept of a device's envelope can be printed with exactly when the device's prefixes are good ones |
| RoundTrips.DistinctPrefixesAreKept | internal/xml/structs.go:41-57 | any five different legal prefixes, bound to the five URLs, can be declared, and printed with exactly if none is empty |
| Replies.UsualPrefixesAreKept | internal/xml/structs.go:41-57 | the usual prefixes, with or without a default namespace, are such a choice, so devices as in the lemmas of Replies exist |
| Replies.DefaultNamespaceIsAccepted | internal/controllers/cwmp_controller.go:160-176 | a device may make any of the namespaces its default one: its Inform is read and answered under these namespaces |
| Replies.PrintedForDefaultIsLost | internal/xml/cwmp_1_4/generators.go:36-66 | whatever is then printed for it is, under every padding, no envelope to a reader of the five namespaces |
| Replies.AnswerOpensWithColon | internal/xml/cwmp_1_4/generators.go:41-43 | with SOAP as its default namespace every message to it starts with the name ":Envelope" |
| RoundTrips.ScopeLookup | internal/xml/cwmp_1_4/generators.go:43-48 | in the scope of an envelope every prefix stands for its own namespace and nothing else is declared |
| RoundTrips.NamespacesRecovered | internal/xml/parser.go:137-181 | a reader finds the namespaces the envelope was printed with |
| RoundTrips.OursSurvive | internal/xml/dom/dom.go:61-80 | elements without envelope names survive printing and reading with names, values, trimmed texts and order |
| MessageRoundTrips.EnvelopeIsRead | internal/xml/cwmp_1_4/generators.go:36-66 | any padding of any printed message is read to its namespaces, headers and RPC exactly if its receiver has a prefix for every namespace |
| ParameterRoundTrips.PrintedIsAddressed | internal/xml/cwmp_1_4/generators.go:36-66 | every message the server prints is read, under every padding, as one element with the message's name in the CWMP namespace, under a header with the ID and, with an InformResponse, the version |
| MessageRoundTrips.InformResponseIsRead | internal/xml/cwmp_1_4/generators.go:203-226 | an InformResponse is read, under every padding, as its ID, its version if there is one, and the number of envelopes, and nothing else |
| ParameterRoundTrips.SetParameterValuesIsDelivered | internal/xml/cwmp_1_4/generators.go:271-294 | a SetParameterValues is read, under every padding, element by element: every parameter in its place with name, value and type, their number in the array type, and the key |
| MessageRoundTrips.FaultIsRead | internal/xml/cwmp_1_4/parsers.go:102-135 | the text in the detail overrides the generic one |
| MessageRoundTrips.MessageIsRead | internal/xml/cwmp_1_4/parsers.go:93-138 | a printed Fault, GetRPCMethods or GetRPCMethodsResponse is read, under every padding, as itself with trimmed texts, under the same namespaces, if its receiver has a prefix for every namespace, and else not as an envelope |
| MessageRoundTrips.MessageRoundTrips | internal/xml/cwmp_1_4/generators.go:96-201 | between tokens, it comes back equal exactly when its receiver has a prefix for every namespace, its texts are trimmed and its header is only an ID |
| ParameterRoundTrips.ParameterListRoundTrips | internal/xml/cwmp_1_4/generators.go:284-290 | a printed SetParameterValues list comes back equal exactly when its receiver has a prefix for every namespace, names and values are trimmed and no type has a colon |
| ParameterRoundTrips.TypeIsRead | internal/xml/cwmp_1_4/parsers.go:738-743 | the type read is what follows the last colon of the type written |
| ParameterRoundTrips.ApiListRoundTrips | internal/controllers/api_controller.go:260-276 | what an API request builds, once printed, comes back equal exactly when its receiver has a prefix for every namespace, names and values are trimmed and no type asked for has two colons |
| ParameterRoundTrips.TwoPrefixesAreLost | internal/xml/cwmp_1_4/parsers.go:738-743 | of a type asked for with two prefixes the message built has one, and none is read back |
| BrokerProtocol.StepKeepsInv | internal/events/broker.go:31-69 | every step of every thread keeps the broker's invariant |
| BrokerProtocol.SafetyOverRuns | internal/events/broker.go:43-69 | under every interleaving no send or close meets a closed channel, writers are alone, and mapped channels are open but for the one about to be deleted |
| BrokerProtocol.StreamsOverRuns | internal/events/broker.go:63-67 | received and waiting events are an in-order subsequence of the matching ones offered; events are missing only if 32 were waiting; a buffer never full has them all |
| BrokerProtocol.PublishedOnceOverRuns | internal/events/broker.go:55-69 | a finished publication has offered its event once to each subscriber it found whose filter lets it through, and to no other |
| BrokerProtocol.FinishedComeFirst | internal/events/broker.go:55-69 | a publication over before another began reaches every common subscriber first |
| BrokerProtocol.NoDeadlock | internal/events/broker.go:55-69 | a call in progress can go on or waits for one that can, also where readers queue behind a writer that waits, and publishing never waits for a consumer |
| EventBroker.Broker.SubscribeWithFilter | internal/events/broker.go:31-41 | a new open, empty channel under the new ID, and the call is a path of the protocol |
| EventBroker.Broker.Unsubscribe | internal/events/broker.go:44-51 | the channel is closed once and taken out, others keep their events, and the call is a path of the protocol |
| EventBroker.Broker.Publish | internal/events/broker.go:55-69 | every subscriber is offered the event once, whatever the order of the visit, and the call is a path of the protocol |
| EventBroker.Broker.Receive | internal/controllers/events_controller.go:48-48 | a consumer takes the oldest event, and that is a step of the protocol |
| EventBroker.PublishRuns | internal/events/broker.go:55-69 | a publication without interruption is a path of the protocol that offers the event once to every subscriber |
| EventBroker.PathIsRun | internal/events/broker.go:31-69 | the steps of all calls so far are a run of the protocol, so what holds of all runs holds of the broker |

## Left out

- HTTP, cookies, routing, event streaming, logging, start and stop of the process, clocks and request contexts: not modelled; requests are atomic steps.
- Data races on the session maps, which have no lock: two requests never overlap in the model.
- Connection requests to devices: whether one gets through is a parameter.
- SQLite: abstract tables; a call that fails changes nothing, so a commit that took effect and yet reported an error is not covered.
- Go's XML tokenizer beyond names and scopes: escapes, well-formedness and encodings; a stream that breaks off is a flag.
- MessageRoundTrips.MessageRoundTrips: holds between the tokens printed and the tokens read; a character that XML does not allow is replaced by Go's encoder, so a text that has one does not come back equal even if trimmed.
- ParameterRoundTrips.ParameterListRoundTrips: the same.
- JSON decoding and Sscanf: any function of the text; an API body that is not JSON is not modelled.
- UUIDs: assumed fresh and not empty.
- The parsers of AddObjectResponse, DeleteObjectResponse, GetParameterAttributesResponse, GetParameterNamesResponse and SetParameterValuesResponse: any function of the element; they repeat the modelled ones.
- The generators of AddObject, DeleteObject, GetParameterAttributes, GetParameterNames, GetParameterValues, Reboot and SetParameterAttributes: repeat the modelled ones.
- A fault source outside the two defined ones.
- The sort of a method list after it has been printed, which changes only the sender's copy.
- Texts of errors that quote numbers or the errors of library calls: the model keeps their fixed part.
- Requests whose search never ends: not steps of the machine; `EndlessSearch` says which they are and what they do to the queue, but not how the rounds of such a request mix with other requests.
- Answers that cannot be printed: all outgoing messages have generators, and printing does not fail on them.
- Broker.Subscribe: SubscribeWithFilter without a filter.
- Prefixes that no document may declare: one with a colon, which a decoder does not deliver, and xml and xmlns, which are reserved; the statements about prefixes are about all others.
