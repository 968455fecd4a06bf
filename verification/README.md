# Store-and-forward messages and their user database, in Dafny

This project models the message server of the repository: the per-node delivery queue, the hand-over
of messages to a new node, the framing of a client's stream, the elastic channel, message routing,
presence notices, and the user database with its write-ahead files, alias index and groups.

`dafny verify dfyconfig.toml` checks all of it.

| file | what it is about |
|---|---|
| `Common.dfy` | small things that several modules share |
| `Elastic.dfy` | the elastic channel in front of a node's queue, as a class; message names and their order |
| `NodeQueue.dfy` | one node: directory, queue goroutine, links, and the connection token they pass on |
| `Delivery.dfy` | all nodes with posters, user locks, links, `AddNode` + `copyDir`, logins and crashes, step by step |
| `Agreement.dfy` | when the queue of a node agrees with its directory for good, and the panic if it does not |
| `Reachable.dfy` | runs from the empty server to what the other two files say may happen |
| `Redelivery.dfy` | a message that was not acked can always be sent again, and a node's directory emptied |
| `Finishing.dfy` | how a poster, and a copy, can be brought to an end from every state |
| `Utf8.dfy` | UTF-8 decoding and the length check of a ping |
| `Framing.dfy` | the read loop of a link over a fixed buffer, as a class, against a parser of the whole stream |
| `Names.dfy` | file names of records and queues, queue ids, and how recovery reads them back |
| `Records.dfy` | the user database as its callers see it: state, calls, and what every call keeps |
| `UserDb.dfy` | the same calls as methods of a class that works through caches over files |
| `Effects.dfy` | what a call achieves, and whom it leaves alone |
| `Outcomes.dfy` | exactly when each call succeeds |
| `Logs.dfy` | histories of calls as logs of what each call was to somebody |
| `Histories.dfy` | names and node numbers over whole histories of calls |
| `NodeHistories.dfy` | over whole histories: who is registered, which nodes may log in, which queues are linked to |
| `Membership.dfy` | group membership over whole histories |
| `MemberHistories.dfy` | over whole histories: whose a name is, and who is what in a group |
| `Retry.dfy` | calls made twice |
| `NameClaims.dfy` | a name claimed concurrently as alias and as group id, with lazily filled caches |
| `Recovery.dfy` | the file operations of `putRecord`, crashes, and recovery, step by step |
| `CrashRetry.dfy` | a call cut short by crashes, recovered, and made again |
| `Server.dfy` | calls on many records at once over `Recovery`'s files, with crashes and restarts |
| `Progress.dfy` | how a write, and recovery, can be brought to an end from every state of that server |
| `GroupNames.dfy` | the aliases that groups record, in every run of that server |
| `ServerRetry.dfy` | a call that is cut short there and made again |
| `Routing.dfy` | which nodes `_queueMsg` links, as a class using the database |
| `Recipients.dfy` | over whole histories: whom a message goes to |
| `Presence.dfy` | presence notices, as a class |
| `LastLink.dfy` | the presence set of one user, taken and given back by concurrent links |

Concurrent code is a transition system in which each visible action (taking a lock, a channel operation,
a file operation, a locked block) is one step; theorems are about every finite sequence of steps. Code
that works in place is a class whose methods are proved against functions of the old state.

## Where the code holds less than its design

Each of these is proved with its exact condition.

- A login makes a queue that agrees with its directory in every continuation, and whose goroutine panics
  in none, exactly if no poster that is still linking owes the node a message which `copyDir` already put
  there (`Agreement.SafeLoginIsExact`). If one does, the id is pushed a second time, and a client that acks
  what it gets leads to the panic on the missing file, whatever else is in the buffer
  (`Agreement.UnsafePanics`, `NodeQueue.DrainPanics`). Such a login, and the panic, can be come to from the
  empty server (`Reachable.UnsafeLogin`, `Reachable.PanicHappens`).
- A new node misses a message of its source exactly if a crash ended the poster before it had come to that
  node, or the node sent the message itself and was left out (`Delivery.NewNodeMissesNothing`). Both happen
  (`Reachable.LostInCrash`, `Reachable.LeftOutOfItsOwn`); the first in no run without a crash
  (`Delivery.NoCrashNoLoss`), the second to nobody but senders (`Delivery.LeftOutIsSender`).
- The loop agrees with the parser as long as header end plus `DataLen` fits in 64 bits; where it does not,
  the sum comes out negative, and a slice expression panics unless the handler has ended the link as it
  would otherwise (`Framing.DataEndExact`, `Framing.Link.Advance`). All messages before that one are as the
  parser has them (`Framing.Link.Run`).
- A ping is taken exactly if its text also fits into the buffer behind its header; if not, the slice
  expression panics (`Framing.PingedExactly`).
- Recovery deletes the committed record of a group exactly if its id ends in ".tmp"
  (`Names.CommittedIsCompleted`, `Recovery.SuffixDecides`). User ids cannot end so.
- The 256th node of a user gets the number 0 and is refused at login (`Histories.NumberingExact`,
  `Histories.NodeZeroIsRefused`), and adding it twice makes it anew (`Retry.RetryExact`). It then gets the
  number 1, and shares the queue of the user's first node, as a 257th node would: a user's nodes have
  different queues exactly if there are at most 255, or 256 of which none was added twice; adding one keeps
  them different exactly if the user has fewer than 256 (`Histories.OwnQueuesApart`,
  `Histories.NewQueueApart`). A history leads there (`Histories.QueueShared`).
- An AddUser made again for a user's first node reports success even if the node has been dropped since. It
  does not take the node back, which is still refused at login (`NodeHistories.AddedAgain`).
- A node numbered 0 is linked to like others, though it cannot log in: messages pile up in its queue's
  directory (`NodeHistories.ListedExactly`, `NodeHistories.LoginExactly`).
- A retry reports success exactly if it adds no node (or one numbered 0) and founds no group with only
  the founder invited (`Retry.RetryReports`). The comment at userdb.go:166-167 promises success always.
  The state that a retry leaves is right after crashes, too, and with other calls beside it, exactly unless
  it adds a node numbered 0 (`CrashRetry.CrashThenRetry`, `ServerRetry.RetryAfterCrash`).
- A barred member stays barred exactly until a joined member invites him again, which any of them may, or he
  quits under the alias that his entry records; either leaves him invited (`Membership.BarredExactly`,
  `Membership.BarredUntil`).
- Every member of a group is a registered user, except for one called "*defunct"
  (`Membership.EveryMemberIsUser`). A group has that one exactly if somebody was invited to it under a
  dropped alias by a joined member, or in founding it; or if its founder went by that id himself
  (`Membership.DefunctIsInvited`, `Membership.DefunctListed`). It happens (`Membership.DefunctHappens`).
  Where it has joined, every post to the group is refused (`Recipients.RefusedExactly`).
- Through concurrent calls and crashes each member of a group stays recorded under an alias that leads to
  him or that he has dropped (`GroupNames.GroupsAgreeAlways`), except that the alias recorded for
  "*defunct" may lead to its user again: a crash takes a dropped name back exactly if the write that drops
  it is still to be committed (`GroupNames.DroppedForGood`, `GroupNames.DropTakenBack`). Without a crash
  there is no exception (`GroupNames.NoCrashAllAgree`).
- `unref` finds its user's set, unless links come while another is between the two locked blocks of its
  `unref`. In the following no new references are taken. One panics exactly if a link is about to delete a
  set which is not the one that it counted down to 0, and is in use (`LastLink.PanicExactly`); no user is
  ever told "off" twice exactly if none has been, and each link that will delete a set is alone with it
  (`LastLink.TwiceExactly`). The panic can be come to (`LastLink.UnrefPanics`). If no reference is taken
  while a link is between the blocks, neither happens (`LastLink.CalmIsSafe`).

## Model

| member | source | states |
|---|---|---|
| `Elastic.ElasticChan.constructor` | qlib/qlib.go:982-986 | the queue starts with the directory's listing, sorted and complete |
| `Elastic.ElasticChan.Serve` | qlib/qlib.go:1102-1132 | whatever select prefers, everything buffered or received is handed out once, in an order that some sequence of channel events explains, and nothing is left when the input closes |
| `Elastic.SortStringsSorts` | qlib/qlib.go:1110-1117 | sorting leaves the ids in order and the same ids |
| `Elastic.ReceivedHolds` | qlib/qlib.go:1109-1117 | the buffer is sorted after each id received and has exactly that id more |
| `Elastic.Conserved` | qlib/qlib.go:1102-1132 | over any events, ids handed out plus ids still buffered are the ids there were plus those received; the buffer stays sorted |
| `Elastic.NoInversion` | qlib/qlib.go:1109-1124 | of two ids in the buffer together the lesser has left before the greater does, whatever comes in meanwhile |
| `Elastic.HexOrder` | qlib/qlib.go:1203-1205 | fixed-width hex numbers are in string order exactly if they are in numeric order |
| `Elastic.NameOrder` | qlib/qlib.go:818-818 | the order of message names is the order of (priority, id) |
| `NodeQueue.TokenStep` | qlib/qlib.go:990-1073 | every action of links and queue goroutine keeps the place of the connection token |
| `NodeQueue.SendNeverBlocks` | qlib/qlib.go:1003-1004 | a goroutine that comes to a send on connChan finds room |
| `NodeQueue.OneToken` | qlib/qlib.go:990-1015 | hasConn is 1 exactly when one token exists: claimed, in the channel, or held by one goroutine |
| `NodeQueue.OneServer` | qlib/qlib.go:990-992 | at most one link serves a node |
| `NodeQueue.WritesToServer` | qlib/qlib.go:1061-1073 | the queue goroutine writes only to the connection of the link that serves the node, while that is past its login |
| `NodeQueue.AcksToItself` | qlib/qlib.go:1018-1035 | a link that acks writes to its own connection, and the queue goroutine does not meanwhile |
| `NodeQueue.ClosedIsForgotten` | qlib/qlib.go:1009-1016 | after unlink has returned the queue neither holds nor gets that connection |
| `NodeQueue.NodeStep` | qlib/qlib.go:1061-1100 | a linked entry leaves the directory only when completely sent to a link of the node and acked by id from such a link; the buffer stays sorted; that one not acked is sent again is `Redelivery.TimerResends` and `Redelivery.NextGetsIt` |
| `Redelivery.TimerResends` | qlib/qlib.go:1067-1100 | at a node with a linked client and a message in hand, the timer and the goroutine's own steps lead to the message's being sent to that client again |
| `Redelivery.NextGetsIt` | qlib/qlib.go:990-1016 | a link that leaves while its ack is awaited, and another that comes, lead to the same message's being sent to the other: without the timer if the goroutine hears of the leaving, else after it |
| `NodeQueue.AgreeStep` | qlib/qlib.go:818-831 | head in flight, buffer and ids not yet pushed remain the directory, each once, and the goroutine does not panic, as long as no id comes twice |
| `NodeQueue.AgreeAck` | qlib/qlib.go:1085-1092 | a matching ack takes the head out of queue and directory together; stale acks take nothing |
| `NodeQueue.HeadListed` | qlib/qlib.go:1073-1076 | the file being sent is in the directory |
| `NodeQueue.DrainPanics` | qlib/qlib.go:1073-1076 | an idle queue whose buffer has an id twice, or one that is not in the directory, panics on the missing file if its client acks all it gets |
| `Delivery.ArrivalCovered` | qlib/qlib.go:808-831 | when a poster links a message for one node of a user, every other node of the user has it, is owed it, or was left out as the sender |
| `Delivery.InvNewNode` | userdb.go:196-222 | a node is added only while no poster has its user open, so each poster's list of nodes stays complete |
| `Delivery.CopiesAt` | qlib/qlib.go:1295-1309 | during and after a copy each entry of the source is still to be copied or covered at the new node, whatever posters, acks and other copies do |
| `Delivery.InvStep` | qlib/qlib.go:786-831 | every step of posters, copies, logins, queues and crashes keeps the whole invariant |
| `Delivery.InvRun` | qlib/qlib.go:786-1132 | the invariant holds in every reachable state |
| `Delivery.NewNodeMissesNothing` | qlib/qlib.go:513-521 | once the copy has ended, in every interleaving, a message in the source's directory is in the new node's, or was sent to and acked by it, or is owed to it by a poster, if and only if no crash ended its poster before it came to the node, and the node was not left out as its sender |
| `Delivery.NoMessageLost` | qlib/qlib.go:1061-1100 | in every run with disconnects, timeouts, dropped and stale acks and restarts, a message linked for a node is in its directory until sent to and acked from a link of that node |
| `Delivery.AckMeansAllLinked` | qlib/qlib.go:786-833 | the success ack to a sender means that every node of every opened recipient was linked, except the sender's own if left out |
| `Delivery.NoCrashNoLoss` | qlib/qlib.go:786-833 | without a crash no message is lost to any node |
| `Delivery.LeftOutIsSender` | qlib/qlib.go:817-821 | only the node that sent a message is ever left out of it |
| `Delivery.ConnectionSafety` | qlib/qlib.go:990-1073 | at each node of every reachable state: one token, sends never block, no write after unlink |
| `Delivery.OneWriter` | qlib/qlib.go:298-402 | in every reachable state no two goroutines write to one connection: the queue goroutines of all nodes and all links, with the direct writes of `TmtpRev`, `Register`, login, ack and quit |
| `Delivery.DirectOnlyLoggedOut` | qlib/qlib.go:416-430 | the gate lets `TmtpRev` and `Register` through only on links that are not logged in and that no queue knows |
| `Delivery.OneNodePerLink` | qlib/qlib.go:425-429 | no two nodes' queues know the same link |
| `Redelivery.Redelivers` | qlib/qlib.go:990-1100 | from every reachable state without a panic, whatever links there are and have done, a message in the hand of a node's goroutine can be on its way to a new client of the node |
| `Redelivery.DeliversAll` | qlib/qlib.go:1061-1100 | from every such state, if the queue of a node agrees with its directory, a new client can log in to it that acks only what it gets, gets everything in the directory, and leaves the directory empty |
| `Finishing.PosterSucceeds` | qlib/qlib.go:786-833 | from every such state each running poster can come to its success ack, with the message linked for every node that it noted and did not leave out |
| `Finishing.CopySucceeds` | qlib/qlib.go:1295-1309 | from every such state each copy to a new node can be brought to its end, and the node is ready for login |
| `Agreement.InStepKept` | qlib/qlib.go:967-988 | once made at a safe moment, a queue stays in agreement with its directory through every step |
| `Agreement.QueueIsDirectory` | qlib/qlib.go:967-1092 | in every run whose logins come at safe moments, queue and directory agree, the file being sent exists and no queue goroutine panics |
| `Agreement.SafeLoginIsExact` | qlib/qlib.go:967-988 | agreement in every continuation of a login, and the absence of a panic in every continuation, each hold if and only if the login was safe |
| `Agreement.UnsafePanics` | qlib/qlib.go:1073-1076 | from every unsafe login of every reachable state there is a way to the panic |
| `Reachable.UnsafeLogin` | qlib/qlib.go:964-988 | an unsafe login can be come to from the empty server |
| `Reachable.PanicHappens` | qlib/qlib.go:1073-1076 | and so can the panic |
| `Reachable.LostInCrash` | qlib/qlib.go:513-521 | a run with a crash after which a new node lacks a message of its source for good |
| `Reachable.LeftOutOfItsOwn` | qlib/qlib.go:817-821 | a run in which a new node lacks what it sent |
| `Utf8.DecodeOfEncode` | qlib/qlib.go:676-684 | decoding the encoding of any scalar value gives it back with its width |
| `Utf8.EncodeOfDecode` | qlib/qlib.go:676-684 | what decodes is the encoding of what it decodes to |
| `Utf8.UnitsAreUtf16` | qlib/qlib.go:676-690 | the units counted for a code point are those of its UTF-16 encoding, surrogate pairs included, which reads back as the code point |
| `Utf8.CheckText` | qlib/qlib.go:676-690 | the loop ends and computes the UTF-16 length, or refuses |
| `Utf8.LengthOfText` | qlib/qlib.go:676-690 | a text of scalar values without U+FFFD has the length that their UTF-16 units sum up to, and at most three bytes a unit |
| `Utf8.TextOfLength` | qlib/qlib.go:676-690 | whatever has a length spells such a text |
| `Utf8.PassesExactly` | qlib/qlib.go:660-693 | a ping passes exactly if it spells a text whose UTF-16 encoding has at most 140 units; the pre-check on bytes refuses nothing more |
| `Framing.FourHexParses` | qlib/qlib.go:203-213 | the length prefix reads back as the length written |
| `Framing.PackedAreRecovered` | qlib/qlib.go:203-213 | messages packed one behind the other come out again, each with its header and data |
| `Framing.HandledTakesAll` | qlib/qlib.go:416-658 | a handler that keeps the link going takes exactly DataLen bytes, cut into its parts |
| `Framing.GateKeepsOrder` | qlib/qlib.go:421-430 | over any message, who is logged in has sent `TmtpRev`; so `TmtpRev` and `Register` pass only before login |
| `Framing.GateExactly` | qlib/qlib.go:416-430 | a message passes the gate exactly if its op is in order: `TmtpRev` first and once, `Register` or `Login` after it and once, everything else after that; the link ends with the error for its case |
| `Framing.PassesWhen` | qlib/qlib.go:416-658 | exactly when a message gets through: op in order, all of the data there, and by op what text or note must be |
| `Framing.TakesParts` | qlib/qlib.go:416-745 | what is taken of a message by op: a post, a note and a post, a text, or nothing; posts and notes are not empty |
| `Framing.ParseKeepsOrder` | qlib/qlib.go:416-430 | in every stream the parser lets through exactly what is in order with what came before, and ends with the gate's error exactly at what is not |
| `Framing.LoginComesFirst` | qlib/qlib.go:421-430 | in what the loop did on any stream, however reads were split, each message that got through and is none of `TmtpRev`, `Register` and `Login` stands behind one of the latter two, and that behind a `TmtpRev`; each comes once |
| `Framing.ParseFollowsMessages` | qlib/qlib.go:326-386 | the headers that reach the handler are those of the stream's messages in order, and each message but the last has had its data taken |
| `Framing.PingedExactly` | qlib/qlib.go:660-693 | a ping is taken exactly if its text is there, fits into the buffer and passes |
| `Framing.DataEndExact` | qlib/qlib.go:370-373 | the computed end of the data in the buffer is right unless header end plus DataLen overflows, which panics |
| `Framing.FrameStable` | qlib/qlib.go:357-379 | what the buffer says about the next header is what the whole stream says, as soon as it says anything |
| `Framing.Conn.Read` | qlib/qlib.go:311-317 | a read gives between one byte and what fits, or end of stream |
| `Framing.Link.Fill` | qlib/qlib.go:337-355 | the bytes read land behind those in the buffer |
| `Framing.Link.RecvFile` | qlib/qlib.go:1207-1221 | the file gets the data that has arrived and then exactly the rest from the connection |
| `Framing.Link.CheckPing` | qlib/qlib.go:660-693 | reads what is missing of the text, however it arrives, and judges it as the parser does |
| `Framing.Link.PostNotify` | qlib/qlib.go:712-745 | the note is the first NoteLen bytes, the post the rest, and DataLen is restored |
| `Framing.Link.HandleMsg` | qlib/qlib.go:416-658 | gates the op on the link's state as `Framing.GateExactly` says, and takes the data that the parser takes, from buffer and connection |
| `Framing.Link.Have` | qlib/qlib.go:370-373 | how much of the data is in the buffer |
| `Framing.Link.Advance` | qlib/qlib.go:380-385 | what follows the message is shifted to the front of the buffer |
| `Framing.Link.Dispatch` | qlib/qlib.go:374-385 | after the handler the loop stands at the next message, or has ended as the parser does |
| `Framing.Link.ParseBuffer` | qlib/qlib.go:350-385 | label Parse: waits for more, ends, or moves on in the stream |
| `Framing.Link.ReadMore` | qlib/qlib.go:337-349 | the slice to read into is never empty, and reading keeps the loop's view of the stream |
| `Framing.Link.Run` | qlib/qlib.go:326-386 | however reads are split, the loop ends, and headers, data and end are those of the parser on the whole stream; if header end plus DataLen overflows at some message, so are those before it, and the end is a panic or the one that the handler comes to; all that got through was in order |
| `Names.UnescapeOfEscape` | userdb.go:688-700 | escaping a record's name and unescaping it gives it back |
| `Names.SuffixKept` | userdb.go:145-151 | escaping neither makes nor removes the suffix that recovery goes by |
| `Names.CommittedIsCompleted` | userdb.go:144-159 | recovery completes a committed file under its own kind and id exactly if the id does not end in ".tmp", else deletes it |
| `Names.UnfinishedIsDeleted` | userdb.go:145-147 | recovery deletes every file under construction |
| `Names.TempNamesApart` | userdb.go:695-700 | different records have different temp files |
| `Names.CommittedIsNotUnfinished` | userdb.go:695-700 | a committed file never has the name of one under construction, unless its id ends in ".tmp" |
| `Names.QidsApart` | userdb.go:85-87 | queue ids are equal exactly if user and number are |
| `Names.DirectoriesApart` | qlib/qlib.go:1311-1317 | so are their lower-cased directories, for ids made by the server |
| `Names.ServerUidIsValid` | qlib/qlib.go:1135-1140 | the database accepts every user id that the server makes |
| `Records.AliasAddedKeeps` | userdb.go:256-317 | an alias that passes the checks is indexed and recorded for the user, and nobody else's names change |
| `Records.AliasDroppedKeeps` | userdb.go:319-364 | dropping marks the first entry under the name, which suffices for index and records to agree |
| `Records.GroupInvitedKeeps` | userdb.go:451-500 | an invitation keeps recorded aliases indexed and group ids apart from aliases |
| `Records.GroupLeftKeeps` | userdb.go:571-608 | so do quitting and barring |
| `Records.NamesStep` | userdb.go:165-608 | every call keeps users, names and index in agreement, whatever groups record |
| `Records.InvStep` | userdb.go:165-608 | every call keeps: the index leads from each name to its one owner, or to "*defunct" if an entry marks it so; names and group ids are apart; members' aliases are indexed |
| `Records.InvAfter` | userdb.go:165-608 | all of that holds after every history of calls |
| `Records.NumbersAreBytes` | userdb.go:215-215 | node numbers are bytes in every history |
| `Records.LinkedOne` | userdb.go:869-881 | only a touched entry's symlinks change |
| `UserDb.Database.constructor` | userdb.go:125-163 | a restart on the files gives the same database with empty caches |
| `UserDb.Database.FetchUser` | userdb.go:706-738 | a record is read into the cache once, and a new one made on demand, the files unchanged |
| `UserDb.Database.FetchGroup` | userdb.go:740-766 | the same for groups |
| `UserDb.Database.Lookup` | userdb.go:421-449 | cache and symlinks give one answer |
| `UserDb.Database.PutUser` | userdb.go:808-837 | writes the record and the symlinks of its touched names |
| `UserDb.Database.ClearTouched` | userdb.go:79-83 | clears the flags of all entries and nothing else |
| `UserDb.Database.AddUser` | userdb.go:169-194 | does to the files what the call does to the database, error cases included |
| `UserDb.Database.AddNode` | userdb.go:196-222 | likewise |
| `UserDb.Database.DropNode` | userdb.go:224-254 | likewise |
| `UserDb.Database.Verify` | userdb.go:368-387 | the queue id of a node that is known and not defunct; by `NodeHistories.LoginExactly`, of one that was added and never dropped |
| `UserDb.Database.OpenNodes` | userdb.go:389-406 | the queue ids of all nodes of the user that are not defunct; by `NodeHistories.ListedExactly`, of those added and never dropped |
| `UserDb.Database.GroupGetUsers` | userdb.go:610-634 | the joined members, for a joined or invited caller |
| `UserDb.Database.IsInvalidInput` | userdb.go:668-677 | refuses exactly text with U+FFFD or an unprintable character |
| `UserDb.Database.IsInvalidAscii` | userdb.go:679-686 | refuses exactly text with a character outside printable ASCII |
| `UserDb.Database.AddAlias` | userdb.go:256-317 | the checks on lazily filled caches decide as on the files, and one touched entry leaves cache, record and symlinks in agreement |
| `UserDb.Database.DropAlias` | userdb.go:319-364 | likewise for the entry marked defunct |
| `UserDb.Database.GroupInvite` | userdb.go:451-500 | a group put into the cache empty is founded or taken out again; the files change as the call says |
| `UserDb.Database.GroupJoin` | userdb.go:502-538 | as the call says, error cases included; when that is success, `Outcomes.SucceedsExactly` and `MemberHistories.InvitedMayJoin` say |
| `UserDb.Database.GroupAlias` | userdb.go:540-569 | likewise |
| `UserDb.Database.GroupQuit` | userdb.go:571-608 | likewise |
| `UserDb.Database.Perform` | userdb.go:165-608 | any call keeps caches, files and the database's invariant in order |
| `Effects.DoneMeansAchieved` | userdb.go:165-608 | a call that reports success has achieved what it is for, and returns the id or alias concerned |
| `Outcomes.SucceedsExactly` | userdb.go:165-608 | exactly when each call succeeds, in terms of who owns a name, has dropped it, or is what in a group: an alias can be added if it is the user's or nobody's and no group's; an invited or joined member can join under no name, one of his own, or the recorded one if joined; and so on |
| `Outcomes.ErrorIsReason` | userdb.go:165-608 | the error that a call reports names something that is wrong with it |
| `Outcomes.FoundExactly` | userdb.go:421-449 | a name is found to lead to its one owner, to "*defunct" if he has dropped it, or to nobody if it has no owner |
| `Logs.LogAt` | userdb.go:165-608 | an entry of a log is what the call was to the database before it |
| `NodeHistories.LoginExactly` | userdb.go:368-387 | in every history Verify succeeds, with the queue id that adding the node returned, exactly if the node was added, with a number other than 0, and never dropped |
| `NodeHistories.ListedExactly` | userdb.go:389-406 | in every history OpenNodes lists exactly the queue ids returned by adding the nodes that were never dropped |
| `NodeHistories.NodeListed` | userdb.go:389-406 | if the user's nodes are few enough to have queues of their own, a node's queue id is listed exactly if the node was never dropped |
| `NodeHistories.DropEndsIt` | userdb.go:224-254 | after a successful DropNode the node is refused at login and, its queue being its own, not listed |
| `NodeHistories.AddedAgain` | userdb.go:179-186 | an AddUser repeated for a first node since dropped reports success and changes nothing, and the node is still refused |
| `NodeHistories.NodeCallsExactly` | userdb.go:208-243 | a user who has had at most 255 nodes can be given a new one exactly if fewer than 100 are live; any known one can be dropped but the last live one |
| `NodeHistories.RegisteredExactly` | userdb.go:169-194 | in every history the users are those whom AddUser registered, with the identity data that it first brought |
| `Histories.NamesForever` | userdb.go:256-364 | in every history a name stays with its first owner; the index leads to the owner until the name is dropped and to "*defunct" ever after |
| `Histories.AliasOrGroup` | userdb.go:281-307 | what ever was an alias never is a group id, and the reverse, at any two moments of a history |
| `Histories.NodesNumbered` | userdb.go:169-254 | in every history a user with at most 255 nodes has them numbered 1 to their number, and the count of live nodes is right and in 1 to 100 |
| `Histories.NumberingExact` | userdb.go:215-216 | adding a node keeps that exactly if the user has fewer than 255 nodes |
| `Histories.NodeZeroIsRefused` | userdb.go:380-386 | login with the new node gives its queue id exactly if it was not the 256th |
| `Histories.QueuesApart` | qlib/qlib.go:1135-1140 | in every history nodes of different users have different queue ids and, for users made by the server, different queue directories |
| `Histories.OwnQueuesApart` | userdb.go:215-221 | in every history the nodes of one user do, exactly if there are at most 255, or 256 with one numbered 0 |
| `Histories.NewQueueApart` | userdb.go:208-221 | a successful AddNode leaves that true exactly if the user had fewer than 256 nodes |
| `Histories.QueueShared` | userdb.go:208-221 | a history after which two of a user's 256 nodes share a queue id |
| `Membership.StandingStep` | userdb.go:451-608 | a member's standing changes only by a call that explains it |
| `Membership.StandingExplained` | userdb.go:451-608 | in every history: joined by the member's own call or as founder; barred by another member joined at that moment; invited by a member joined at that moment, by the founder, or by quitting |
| `Membership.EveryEntryInvited` | userdb.go:451-608 | every entry but the founder's was made by an invitation, and none ever vanishes |
| `Membership.RecordedAliasHolds` | userdb.go:451-608 | each recorded alias is indexed to its member or to "*defunct" |
| `Membership.BarredExactly` | userdb.go:451-608 | a call changes the standing of a barred member exactly if it is an invitation by a joined member under an alias of his, or his own quitting under the alias recorded; he is then invited |
| `Membership.BarredUntil` | userdb.go:451-608 | in every history a member has been barred since some moment exactly if there was no such call since |
| `Membership.EveryMemberIsUser` | userdb.go:451-608 | in every history each member is a registered user or "*defunct" |
| `Membership.DefunctIsInvited` | userdb.go:457-495 | a call makes "*defunct" a member exactly if it is an invitation by a joined member under a dropped alias, or founds the group, its id being free and valid, with an invitation under one or by a founder of that id |
| `Membership.DefunctListed` | userdb.go:457-495 | in every history "*defunct" is a member exactly if there was such a call |
| `Membership.DefunctHappens` | userdb.go:457-495 | a history of five calls after which it is |
| `MemberHistories.NamesExactly` | userdb.go:256-364 | in every history a name is the user's exactly if a successful AddAlias gave it to him, and is dropped exactly if a successful DropAlias of his dropped it |
| `MemberHistories.LeadsExactly` | userdb.go:421-449 | so Lookup leads to a user exactly if the name was given to him and he has not dropped it |
| `MemberHistories.GroupsExactly` | userdb.go:451-500 | in every history the groups are those to which an invitation succeeded |
| `MemberHistories.StandingExactly` | userdb.go:451-608 | in every history a member's standing is what the last successful call that concerned it gave him: invited, joined or founder, quit or barred |
| `MemberHistories.AliasExactly` | userdb.go:451-569 | in every history a member's recorded alias is the last one that an invitation, founding, joining under a name, or GroupAlias recorded |
| `MemberHistories.InvitedMayJoin` | userdb.go:502-538 | in every history a user who was invited, or founded or joined the group, can join it under no new name, and list its members, exactly if barring is not the last that was done to him |
| `Retry.RetryExact` | userdb.go:165-608 | a call made twice leaves what it leaves made once, exactly unless it adds a node numbered 0 |
| `Retry.RetryReports` | userdb.go:165-167 | exactly when a retry reports success again |
| `NameClaims.InvStep` | userdb.go:281-309 | every step of concurrent claims of a name keeps alias and group id apart, through cache fills, rechecks, writes and restarts |
| `NameClaims.NeverBoth` | userdb.go:466-483 | however claims interleave, a name is never both, in caches or files, nor ever a group id if it may not be one |
| `NameClaims.AliasAlone` | userdb.go:281-309 | with no other goroutine about, AddAlias makes the name its user's exactly if it is free or his already |
| `NameClaims.GroupAlone` | userdb.go:466-483 | and an invitation founds a group exactly if the name is nobody's and may be a group's |
| `Recovery.NoPanic` | userdb.go:823-891 | no file operation of a write can fail: the draft never exists, the link targets never do |
| `Recovery.WorkAdvances` | userdb.go:808-893 | each operation of a write leaves files and names as far along as it should |
| `Recovery.WorkKept` | userdb.go:808-893 | concurrent writes of distinct records do not disturb each other |
| `Recovery.OperationKeepsView` | userdb.go:848-893 | no operation but the commit changes what recovery would make of the files |
| `Recovery.CommitSetsView` | userdb.go:831-834 | the commit replaces the record and all of its names at once |
| `Recovery.CommittedVisited` | userdb.go:144-159 | recovery resumes a committed record under its own name, in whatever order files are listed |
| `Recovery.InvStep` | userdb.go:125-163 | every step of writes, crashes and recovery keeps the invariant |
| `Recovery.CrashesAreAtomic` | userdb.go:139-160 | through any concurrent writes that want no name in common (none ever do: `Server.WritesNeverClash`), crashes, and crashes during recovery, each record and its symlinks are in the end those of the last commit, or as before, and the temp directory is empty |
| `Recovery.SuffixDecides` | userdb.go:145-147 | a committed record survives recovery exactly if its id does not end in ".tmp" |
| `Recovery.LinkedIs` | userdb.go:869-881 | the symlinks made one by one are those of the write seen whole |
| `CrashRetry.OneWrite` | userdb.go:165-608 | a successful call is the write of one record and its touched names |
| `CrashRetry.OldOrNew` | userdb.go:139-160 | crashes during a call leave the database before it or after it, as the commit came or not |
| `CrashRetry.CrashThenRetry` | userdb.go:139-167 | a call made again after crashes and recovery leaves what one uninterrupted call leaves, exactly unless it was committed and adds a node numbered 0 |
| `Server.RecordsApart` | userdb.go:281-309 | the records of two users never want the same symlink made |
| `Server.CallMayBegin` | userdb.go:808-837 | whatever writes are in flight, the write of a call can begin beside them |
| `Server.WritesNeverClash` | userdb.go:808-837 | so it is in every run of concurrent calls, crashes and restarts |
| `Server.NamesAgreeAlways` | userdb.go:125-163 | in every such run users, names and index agree, in what calls see and in what the next start will find, and the two are the same when no write is in flight |
| `Server.FinishedIsSafe` | userdb.go:823-837 | in every such run a record that no write in flight is about, and the names of its user, will be recovered as calls see them |
| `Server.ConcurrentCallsAreAtomic` | userdb.go:139-160 | in every such run each record and symlink is in the end that of the last commit, and the temp directory is empty |
| `Progress.Finishes` | userdb.go:808-893 | from every state a write in flight can be finished, whatever others are in flight, and leaves exactly its record committed |
| `Progress.Recovers` | userdb.go:125-163 | from every state a crash and recovery lead to a server at rest that has exactly what was committed |
| `GroupNames.FoundIsKnown` | userdb.go:298-314 | what is found under a name that no AddAlias is writing belongs to its user in the committed records, too |
| `GroupNames.GroupCallKnown` | userdb.go:451-608 | a group call that waits for AddAlias records committed names |
| `GroupNames.CommitNames` | userdb.go:831-834 | no commit leaves a group with an alias that is not its member's |
| `GroupNames.GroupsAgreeAlways` | userdb.go:451-608 | in every run of concurrent calls, crashes and restarts, in what calls see and in what the next start will find, each member other than "*defunct" is a registered user under an alias that leads to him or is dropped, and "*defunct" is under somebody's |
| `GroupNames.NoCrashAllAgree` | userdb.go:451-608 | in every run without a crash calls see all of `Records.Inv`, "*defunct" included |
| `GroupNames.DroppedForGood` | userdb.go:340-361 | in every such run a name found dropped is recovered so exactly if no write that drops it is still to be committed |
| `GroupNames.DropTakenBack` | userdb.go:340-361 | a run in which a crash takes a drop back and leaves "*defunct" in a group under a name that leads to its user |
| `ServerRetry.CallAgain` | userdb.go:165-608 | on a database that lacks any of what others did, a call of which nothing or all was committed leaves its record as it did, exactly unless it was committed and adds a node numbered 0 |
| `ServerRetry.RetryAfterCrash` | userdb.go:139-167 | so in every run: a call cut short by a crash, with others beside it, and made again first thing after the restart, a group call provided the names that it looks up lead where they led |
| `Routing.Poster.Expand` | qlib/qlib.go:796-816 | one entry adds the live nodes of the users it leads to, and tells whether it leads to the sender |
| `Routing.Poster.QueueMsg` | qlib/qlib.go:786-833 | links exactly the live nodes of all recipients (`Recipients.WantedExactly` says who they are), each once, without the sending node unless an entry other than the own copy leads to the sender; nothing if an entry is in error |
| `Routing.OnlyEntriesMatter` | qlib/qlib.go:786-833 | order and repetition of recipients do not matter |
| `Routing.WantedHasOneOwner` | qlib/qlib.go:808-814 | a linked node is a live node of exactly one user, to whom an entry leads |
| `Routing.ExclusiveSparesSender` | qlib/qlib.go:804-807 | a group taken exclusively leads to no node of the sender |
| `Recipients.WantedExactly` | qlib/qlib.go:786-833 | in every history of database calls a message is linked for exactly the nodes, added and never dropped, of the users whom an entry names, or who last joined a group named by an entry that the sender belongs to, himself left out if exclusive; for the sending node only if an entry other than the own copy is for its user |
| `Recipients.RefusedExactly` | qlib/qlib.go:796-816 | in every history an entry is in error exactly if it names nobody registered, or a group that the sender was not let into or is barred from, or one that "*defunct" has joined and is not left out of |
| `Presence.Ohi.Ref` | qlib/qlib.go:864-884 | the reference count is the number of links that hold one |
| `Presence.Ohi.Edit` | qlib/qlib.go:856-862 | a notice goes out exactly if it says something new |
| `Presence.Ohi.Unref` | qlib/qlib.go:886-904 | when the last link of a user goes, exactly those last told "on" are told "off" |
| `Presence.Ohi.GetOhiTo` | qlib/qlib.go:906-918 | exactly the users whose last notice to this one was "on" |
| `Presence.StrictlyAlternating` | qlib/qlib.go:403-412 | consecutive notices between two users say the opposite |
| `Presence.FirstIsOn` | qlib/qlib.go:540-551 | the first notice between two users is "on" |
| `LastLink.InvStep` | qlib/qlib.go:864-904 | every step of concurrent ref and unref, but for a deletion that hits another set, keeps the set in the map counting its links, and a set counted down to 0 is told or will be |
| `LastLink.PanicExactly` | qlib/qlib.go:886-904 | without new references, unref panics in some continuation if and only if a link is about to delete a set in use that it did not count down |
| `LastLink.TwiceExactly` | qlib/qlib.go:891-901 | without new references, no users are told twice in any continuation if and only if none have been and each link that will delete a set is alone with it |
| `LastLink.CalmIsSafe` | qlib/qlib.go:886-904 | in every run that takes no reference while a link is between the blocks of its unref, no unref panics, the set counts its links, and each set's users are told once |
| `LastLink.UnrefPanics` | qlib/qlib.go:886-890 | three links that come and go lead to the panic |

## Left out

- TLS, the listener, NTP, configuration, signals, logging and OpenID token checks.
- Timers and timeouts are steps that may happen at any time; nothing is claimed about real time, fairness or deadlock. `Progress`, `Finishing` and `Redelivery` say what can be brought about, not that it will be.
- Unlocked reads and the weaker guarantees of Go's memory model: locked blocks and channel operations are atomic steps.
- fsync below link, remove and symlink: a completed link with its directory sync counts as durable.
- JSON, CRC and SHA: records are values, a header is what an arbitrary decoder makes of its bytes, a stored record is what was written; checksum errors do not occur.
- The presence rules of header fields other than DataLen, DataHead and NoteLen are one flag of the header.
- The packed header in front of a stored message file: files are the data that follows it.
- `tHeader.For` lists, group messages and acts of the ops that carry no data: in framing they are an arbitrary decision to refuse.
- `unicode.IsPrint` is an arbitrary predicate on characters; strings are sequences of characters, and their bytes in file names are the UTF-8 of those.
- Names "", "." and "..", which have no file of their own below a directory.
- Pointers to cached records shared between goroutines: records are values in the cache, and calls of the `Database` class are atomic. `NameClaims` and `Recovery` take apart the two places where this hides interleavings.
- The read lock that OpenNodes leaves held and CloseNodes drops is part of `Delivery`, not of `UserDb`.
- DropNode and DropAlias have no step in `Delivery`: no message reaches them.
- Framing.Link.Run: where header end plus DataLen overflows, leaves open which of the two ends it comes to, as that depends on how the stream was read.
- CrashRetry.CrashThenRetry: is about one call at a time; `ServerRetry` is about calls beside one another.
- ServerRetry.RetryAfterCrash: says nothing about a group call whose names lead elsewhere by then, because their users have dropped them or because the crash has taken a drop back.
- In `Server` a call decides in one step, under its record's lock, what it writes; the interleavings before that are the subject of `NameClaims`. A group call waits there only for an AddAlias of a name that it looks up; in the code it waits for any.
- Presence.Ohi.Unref: is one atomic step, as good as the source's two blocks while no reference is taken between them; `LastLink` is about what happens otherwise.
- Message ids are unique over restarts, as the documentation demands of the clock (Protocol.md, "Id strings").
- Test support: the `Temp` methods, `Erase`, the test client and the older database stub.
