# Models of wolfSSH's stateful code

Dafny models of the parts of wolfSSH where state is kept across calls, interruptions and
peers, and proofs of what that code is there for. Each file is one module.

* **SCP** (`ScpText`, `ScpTree`, `ScpWalk`, `ScpSource`, `ScpSourceTalk`, `ScpSink`,
  `ScpSourceMachine`, `ScpSinkMachine`, `Dialogue`, `ScpSession`, `ScpSourceSide`, `ScpSinkSide`,
  `ScpSourceMoves`, `ScpSinkMoves`, `ScpRoundTrip`, `ScpRecvDir`). The source and the sink
  are step functions over their fields; two classes run the same steps on mutable fields and
  in-place buffers and are proved to refine them. The composition is proved by a session-type
  argument: each side's remaining sends and receives are a script, the scripts match, and every
  pass keeps scripts and messages under way coherent. From that follow the round trip of every
  tree, freedom from deadlock, and that every run can be completed.
* **Agent relay** (`AgentRelay`), **channel window** (`ChannelWindow`), **handshake**
  (`Handshake`): classes whose methods follow the C functions, with ghost histories of what
  went in and out. What sockets, callbacks and the peer do is arbitrary in every call.
* **Path canonicaliser** (`RealPath`): the in-place loop against a stack fold.
* **OpenSSH formats** (`OsshCert`, `OsshOptions`, `KeyEnvelope`) and **certificates**
  (`DerWalk`, `CertChain`): the parsers and writers against the formats, in both directions.
* `Bytes` and `Buffers` hold the words, strings and buffers they share.

`dafny verify dfyconfig.toml` checks everything.

Some of the laws one would expect do not hold without a condition, and the models say which:

* Reads that run past one sent message break the SCP round trip (`CoalescedReadLosesLine`);
  the session's channels do not let a read cross a message.
* `ScpPopDir` cuts at a backslash too, so it undoes entering a directory exactly when the
  name has no separator (`PopUndoesChild`, `PopDecidesWhereNext`); a walk that goes wrong is
  `BackslashNameMisleadsWalk`. The trees carried have names that `GetScpFileName` accepts.
* The receive window never stalls on its own side, but a failed adjust parks the credit and
  nothing sends it while there is nothing to read (`StallAfterFailedAdjust`). Outside a rekey
  the peer sees the whole window exactly when the last adjust tried was not parked, and is
  blocked exactly when what is parked covers it (`PeerBlockedExactly`, `ParkedGoesExactly`,
  `Drive`).
* Credit is announced twice when a flushed adjust is followed by a socket error from the
  highwater callback (`CreditSentTwice`), and in no other case (`Settle`).
* `wolfSSH_accept` goes past `stopState` exactly when the handshake is to end at
  `ACCEPT_CLIENT_SESSION_ESTABLISHED`, its last wait is over and the session granted is an SCP
  or SFTP one (`Accept`); `GrantPassesStop` gives the runs.
* `GetOpenSshKey` looks at the padding only when the list is a whole number of blocks
  (`DecodedExactly`, `PaddingDecides`); `MispaddedDecodes` is a file with wrong padding that is
  accepted.

## Model

| member | source | states |
|---|---|---|
| Bytes.WordRoundTrip | src/misc.c:75-98 | ato32 gives back every word that c32toa wrote |
| Bytes.GetUint32 | src/internal.c:5943-5956 | succeeds exactly when four octets are left; the octets passed over are the word's encoding |
| Bytes.GetStringRef | src/internal.c:6094-6119 | on success the octets between the cursors are the string's encoding and the cursor stays inside the buffer |
| Bytes.StringRefAt | src/internal.c:6094-6119 | wherever an encoded string stands, reading there succeeds and gives that string and the cursor behind it |
| Buffers.Grow | src/internal.c:5556-5611 | GrowBuffer keeps the unread octets, makes the room asked for, moves the cursor to the front, and does not reallocate while what is wanted fits |
| Buffers.Take | src/ssh.c:1426-1431 | _BufferTake hands out the next octets in order, wipes them and leaves the rest |
| Buffers.Shrink | src/internal.c:5614-5654 | ShrinkBuffer keeps the unread octets and falls back to the static size once they fit it |
| ScpText.ScpParseUInt64 | src/wolfscp.c:1199-1227 | the digit loop with its overflow guard accepts exactly the digit strings whose value does not pass the limit, and gives that value |
| ScpText.FindSpaceInString | src/wolfscp.c:1156-1180 | finds the first space behind the cursor, or none |
| ScpText.GetScpFileMode | src/wolfscp.c:1092-1140 | the octal loop gives the mode the four digits denote, and rejects what is not four octal digits and a space |
| ScpText.GetScpFileName | src/wolfscp.c:1289-1355 | the length and separator loop gives the name up to the terminator, or refuses it |
| ScpText.NameIsComponent | src/wolfscp.c:1306-1330 | the names let through are exactly the paths of one component other than . and .. |
| ScpText.HeaderParsedExactly | src/wolfscp.c:1758-1914 | a C or D line is understood exactly when it is the letter, four octal digits, any octet, a decimal size of at most 32 bits, a space and an accepted name, and as just that |
| ScpText.TimesParsedExactly | src/wolfscp.c:1371-1467 | a T line is understood exactly when it holds two decimal times of at most 64 bits in its form, and as those |
| ScpText.OtherLinesParsedExactly | src/wolfscp.c:1758-1914 | an E line is understood by its letter alone, and nothing but C, D, E and T lines is |
| ScpText.FileLineRoundTrip | src/wolfscp.c:474-506 | the C line printed for any mode, size and name that fits parses back to the 0777-masked mode, the size and the name |
| ScpText.DirLineRoundTrip | src/wolfscp.c:515-543 | the D line printed for a directory parses back to its masked mode and its name |
| ScpText.EndLineRoundTrip | src/wolfscp.c:549-572 | the E line parses back as the end of a directory |
| ScpText.TimeLineRoundTrip | src/wolfscp.c:430-463 | the T line printed for any two 64-bit times parses back to those times |
| ScpWalk.FindLastSeparator | src/wolfscp.c:3217-3255 | the scan of ScpPopDir and ExtractFileName finds the last separator of either kind |
| ScpWalk.PopUndoesChild | src/wolfscp.c:3217-3255 | popping a directory restores the path it was entered from exactly when its name has no separator of either kind |
| ScpWalk.PopDecidesWhereNext | src/wolfscp.c:3217-3255 | for every walk: after a directory is left, the next entry is looked for where it is exactly when that directory's name had no separator; otherwise the transfer is aborted unless the wrong path exists |
| ScpWalk.BackslashNameMisleadsWalk | src/wolfscp.c:3217-3255 | on a directory holding a subdirectory with a backslash in its name and a file, which a POSIX system may have, the walk leaves the subdirectory and aborts on the file |
| ScpWalk.WalkStarts | src/wolfscp.c:3646-3890 | the first recursive call enters the root of the tree and owes exactly the rest of its items |
| ScpWalk.WalkPops | src/wolfscp.c:3646-3890 | a directory read to its end is popped, answers with one exit, and the walk owes what is left of its parents |
| ScpWalk.WalkEnters | src/wolfscp.c:3411-3551 | a directory entry is pushed and answered with its name and masked mode, its children now being owed first |
| ScpWalk.WalkOpens | src/wolfscp.c:3411-3551 | a file entry is opened and answered with its name, mode, times, size and first data, the rest of it staying unread |
| ScpWalk.OwedUnfolds | src/wolfscp.c:3646-3890 | what a walk owes is its next item followed by what it owes after it: the walk is the preorder of the tree |
| ScpTree.ItemsRebuild | src/wolfscp.c:2714-3000 | the receive callback sequence of a tree's preorder items rebuilds that tree, for every tree |
| ScpTree.WireRoundTrip | src/wolfscp.c:430-572 | every control line that can be carried reaches the sink's parser as the message it stands for |
| ScpTree.ScriptsMatch | src/wolfscp.c:228-895 | the sends and receives the source owes for a list of items answer those the sink owes, one for one |
| ScpSource.StepConserves | src/wolfscp.c:574-895 | every pass of the source machine keeps: data sent followed by the buffer is the data handed over, the offset counts what was sent, header and timestamp are out once |
| ScpSource.SourceConservation | src/wolfscp.c:574-895 | the same over every run, whatever counts the callback returns, whatever prefix each send takes and however often a want interrupts, and at most scpFileSz + 1 visits of SCP_TRANSFER per file |
| ScpSource.FileEndsWhole | src/wolfscp.c:777-845 | a file is only closed with an empty buffer, everything handed over sent, and at least scpFileSz octets of it |
| ScpSource.InterruptedCallsStay | src/wolfscp.c:790-812 | a want, a drained stderr packet and a failing channel end a call with the machine and what was sent as they were, and nothing else ends it with a want or for stderr |
| ScpSourceTalk.SourceSpeaks | src/wolfscp.c:574-895 | over every run, for every callback and both kinds of request, what goes out is a beginning of what the callback's answers ask for: its lines, and each file's times, header, data and confirmation; unless something failed what is missing is what the state still holds, each message having been confirmed before the next; the transfer is done with nothing missing, and never once aborted |
| ScpSourceMachine.Machine.Fill | src/wolfscp.c:657-728 | what the callback hands over stands behind what the file buffer already holds |
| ScpSourceMachine.Machine.Shift | src/wolfscp.c:777-828 | a short send moves the unsent octets to the front of the buffer in place and advances the offset |
| ScpSourceMachine.Machine.Pass | src/wolfscp.c:587-893 | one pass of the switch over the object's fields is one step of the source machine |
| ScpSourceMachine.Machine.DoScpSource | src/wolfscp.c:574-895 | a call makes passes until it is done, fails, must wait or has drained stderr, and none after that; state, octets sent and answer are those of the machine's run |
| ScpSink.StepExact | src/wolfscp.c:228-372 | every pass keeps the callbacks made equal to those the octets received ask for and the octets sent equal to the confirmations due, unless a callback refuses, which leads to the refusing confirmation and nothing else does |
| ScpSink.SinkExactness | src/wolfscp.c:228-372 | for every fragmentation, want and failure, as long as no callback has refused: the new-file, new-directory and end-of-directory callbacks are those the accepted C, D and E lines ask for, in order, with the times of the T line before; the files done are those received whole, each with its header's name, mode and times and all of its octets; data under way is the open file's content at the running offset, never past its size; between files none is open; and what was sent is one good octet for every line, timestamp and file |
| ScpSink.RefusalIsAnswered | src/wolfscp.c:1943-1996 | in every run, from the first refused callback on: nothing more is called, the state stays, every pass that is not a want fails, and what goes out is the failing octet, never the good one |
| ScpSink.InterruptedCallsStay | src/wolfscp.c:1758-2042 | a want and a failing channel end a call with the machine as it was; a control line too long for its buffer fails |
| ScpSinkMachine.Machine.Append | src/wolfscp.c:1758-1914 | a partial read is appended behind the control line held so far |
| ScpSinkMachine.Machine.Parse | src/wolfscp.c:1758-1914 | the newline is replaced by a terminator in place and the sealed line is what is parsed |
| ScpSinkMachine.Machine.Carry | src/wolfscp.c:1758-1914 | a parsed line sets its fields and makes its one callback |
| ScpSinkMachine.Machine.Pass | src/wolfscp.c:241-370 | one pass of the switch over the object's fields is one step of the sink machine |
| ScpSinkMachine.Machine.DoScpSink | src/wolfscp.c:228-372 | a call makes passes until it is done, must wait or has failed, and none after that; state, octets sent and answer are those of the machine's run |
| Dialogue.SendKeeps | src/wolfscp.c:574-895 | a side that sends what its script says keeps the two scripts and the messages under way coherent |
| Dialogue.ReceiveKeeps | src/wolfscp.c:228-372 | a side that takes the next message under way finds it is the one its script awaits, and coherence is kept |
| Dialogue.NeverStuck | src/wolfscp.c:228-895 | two coherent sides with something left to do never both wait |
| Dialogue.DoneTogether | src/wolfscp.c:228-895 | two coherent sides end together |
| ScpSourceMoves.SourceMove | src/wolfscp.c:574-895 | every pass of the source with its default callback keeps the session invariant, whatever is sent, taken or read, and uses up fuel unless it must wait |
| ScpSinkMoves.SinkMove | src/wolfscp.c:228-372 | the same for every pass of the sink |
| ScpRoundTrip.RoundTrip | src/wolfscp.c:228-895 | for every file tree and every schedule of the two sides, neither fails, and once the sink is done its callbacks have rebuilt the tree: names, 0777-masked modes, contents and, with -p, file times |
| ScpRoundTrip.SomeSideMoves | src/wolfscp.c:228-895 | short of the end no reachable state has both sides waiting |
| ScpRoundTrip.EveryRunCanFinish | src/wolfscp.c:228-895 | every run can be driven on to a point where both sides are done |
| ScpRoundTrip.CoalescedReadLosesLine | src/wolfscp.c:2000-2042 | a confirmation read that runs on into the next control line is taken for a good confirmation and the line is lost: why reads must not cross messages |
| ScpRecvDir.UpUndoesJoinExactly | src/wolfscp.c:2448-2486 | on a path that is the base or ends in a name, ScpRecvPathUp undoes ScpRecvPathJoin exactly for the names without a separator, but for one that comes first and joins the name itself |
| ScpRecvDir.UpUndoesJoin | src/wolfscp.c:2448-2486 | so it does for every name the sink accepts |
| ScpRecvDir.UpKeepsBase | src/wolfscp.c:2472-2486 | going up never cuts the base path |
| ScpRecvDir.UpLeaves | src/wolfscp.c:2472-2486 | leaving the innermost of the names entered gives the base joined with the others |
| ScpRecvDir.Receiver.PathJoin | src/wolfscp.c:2448-2468 | in place: the joined string with its terminator when it fits, and otherwise nothing changes |
| ScpRecvDir.Receiver.PathUp | src/wolfscp.c:2472-2486 | in place: the string without its last component |
| ScpRecvDir.Receiver.Enter | src/wolfscp.c:2522-2587 | a name is entered and its directory's identity recorded, or path, descriptor and depth are what they were |
| ScpRecvDir.Receiver.Leave | src/wolfscp.c:2590-2617 | the parent is taken only when it is the directory entered from, else nothing changes |
| ScpRecvDir.Receiver.Drive | src/wolfscp.c:2918-2988 | over any sequence of enters and leaves with directories moved in between, the path is the base joined with the names entered and the descriptor is what its depth was when entered |
| AgentRelay.Agent.WriteAll | src/agent.c:1917-1937 | short writes are followed up; the count says how much of the message the connection carried |
| AgentRelay.Agent.WriteMessage | src/agent.c:1942-1958 | on success the whole message is on one connection, on a new one only if nothing of it went out on the old; a dead connection is given up only once another has failed too |
| AgentRelay.Agent.ReadFull | src/agent.c:1962-1979 | exactly the octets asked for, in the order the agent sent them, however the reads come |
| AgentRelay.Agent.ReadMessage | src/agent.c:1983-2031 | the next whole reply of allowed size, as the agent sent it, joins the replies owed, and the reset before it drops nothing; it fails only for a failing read or a length no message may have |
| AgentRelay.Agent.SendReply | src/agent.c:2113-2162 | what the channel has taken followed by rxBuf is what the agent sent; success means all of it is taken and the buffer wiped; the answer tells what held the reply back |
| AgentRelay.Agent.Exchange | src/agent.c:2214-2268 | a request goes out only with no reply owed, is wiped, and its reply joins the replies in the request's place |
| AgentRelay.Agent.Pump | src/agent.c:2214-2268 | one turn of the relay loop shrinks the channel's bytes and the unframed bytes lexicographically, or ends with nothing buffered and no whole message held |
| AgentRelay.Agent.RelayChannel | src/agent.c:2165-2281 | for calls ended by nothing worse than a wait, the messages written followed by relayBuf are the channel bytes read, every connection carried whole messages once, every request has its reply and the replies are what the agent sent; a call ends otherwise than with everything whole relayed only for a call to the outside that did not go through or a length no message may have |
| AgentRelay.Agent.Run | src/agent.c:2165-2281 | the same over any number of calls and arrivals on one channel; no byte that arrived is missing, and what the channel took is a beginning of what the agent sent |
| AgentRelay.FramingIsUnique | src/agent.c:2234-2268 | a byte stream splits into whole messages in one way only, so what the agent is written does not depend on how the bytes arrived |
| ChannelWindow.Channel.CreditWindow | src/internal.c:9357-9400 | credit goes out together with what was parked, or is parked, and is dropped exactly when parking it would pass 32 bits |
| ChannelWindow.Settle | src/internal.c:9357-9400 | what was parked and the new credit are accounted for in full: sent, parked or dropped, the last exactly past 32 bits; what is parked goes exactly with an adjust that is tried and clears; credit is counted twice exactly when a socket error follows the flush |
| ChannelWindow.Channel.NoOverflow | src/internal.c:9362-9365 | with a peer that keeps to its window the overflow guard never fires |
| ChannelWindow.Channel.PutData | src/internal.c:5497-5530 | data is taken exactly when it fits packet, window and buffer, keeps both conservation laws, and nonempty data the peer may send by its own count is always taken |
| ChannelWindow.Append | src/internal.c:14195-14231 | AppendBuffer keeps what is unread, adds the data, and grows the memory only if it must, to its double where that is enough |
| ChannelWindow.Channel.PutExtData | src/internal.c:14195-14298 | the same for stderr data, which shares the window |
| ChannelWindow.Channel.PutUnknownData | src/internal.c:14235-14298 | dropped data of another type is credited straight back, and settled as any credit is, and the window stays what it was |
| ChannelWindow.Channel.UpdateWindow | src/ssh.c:5114-5148 | octets read are compacted and credited once more than half the buffer is used or the window is shut, and the unread ones stay |
| ChannelWindow.Channel.Read | src/ssh.c:5154-5204 | a read gives the next octets of what arrived, keeps the conservation of window and credit, and reopens a shut window whatever stderr still holds |
| ChannelWindow.Channel.ReadExt | src/ssh.c:5212-5266 | the same for stderr, credited at once |
| ChannelWindow.Channel.SetKeying | src/internal.c:9405-9438 | when keying ends parked credit is settled |
| ChannelWindow.Channel.Apply | src/ssh.c:5114-5266 | each operation credits its own amount or none, and the credit books move by exactly what becomes of that |
| ChannelWindow.Channel.ParkedGoesExactly | src/internal.c:9367-9396 | parked credit stays until an operation that credits something, outside a rekey and before a disconnect, has its adjust clear |
| ChannelWindow.Channel.Drive | src/ssh.c:5114-5266 | under any interleaving of arrivals, reads, failed adjusts and rekeys, the window law, the credit law and both prefix laws hold; if every adjust cleared, nothing is owed outside a rekey, and a drained channel's peer that kept to its window may send at least half of what it could at the start |
| ChannelWindow.Channel.DrainedWindowOpen | src/ssh.c:5124-5147 | with both buffers drained windowSz is at least the initial window less half of bufferSz |
| ChannelWindow.Channel.PeerBlockedExactly | src/internal.c:9378-9400 | outside a rekey the peer sees the whole window exactly when the last adjust tried was not parked; drained, it is blocked exactly when it was and what is parked covers the window |
| ChannelWindow.StallAfterFailedAdjust | src/internal.c:9389-9396 | for every window size: one failed adjust leaves a drained channel whose peer may send nothing, and further reads do not send the credit |
| ChannelWindow.CreditSentTwice | src/internal.c:9384-9396 | an adjust that was flushed but whose highwater callback reports a socket error is parked and sent again: the peer ends with twice the window |
| Handshake.Server.SendStep | src/ssh.c:707-830 | a step's message is framed once, and the state moves on or waits with that message queued |
| Handshake.Server.Await | src/ssh.c:718-845 | a waiting step ends only with the peer far enough and, where keys are waited for, with a key exchange come to its end; it frames none of the driver's messages, and asks for a read only while it is not over and nothing is left to read |
| Handshake.Server.FlushFirst | src/ssh.c:676-710 | a flush on re-entry sends all that was queued, and advances exactly the states whose own message was queued, and SERVER_USERAUTH_SENT, never past stopState |
| Handshake.Server.OpenAgentChannel | src/agent.c:1800-1886 | a retry never opens a second agent channel, and success means its message is out |
| Handshake.Server.Establish | src/ssh.c:825-878 | once the last wait is over state and answer are those of the session granted: SCP, SFTP or established, then with the agent channel that was asked for |
| Handshake.Server.Accept | src/ssh.c:644-898 | the state never decreases; from short of its stop a call ends past it if and only if the stop is SESSION_ESTABLISHED, no error is left and the session granted is SCP or SFTP; it answers WS_SCP_INIT, the SFTP answer and success exactly then and exactly at the stop, and on re-entry what the SCP or SFTP session answers; with all the client's messages there to be read it ends where the session they lead to says; the messages are framed exactly once and in order and are out, and SESSION_ESTABLISHED implies CLIENT_DONE |
| Handshake.GrantPassesStop | src/ssh.c:825-859 | from a new server, calm messages that lead to an SCP or SFTP session take the call past its stop with that session's answer, and to any other session or none to SESSION_ESTABLISHED with success |
| Handshake.Server.Run | src/ssh.c:644-898 | the same over any number of interrupted calls |
| Handshake.Server.MessagesAreEarned | src/ssh.c:712-830 | KEXINIT is framed only after the client's version, SERVICE_ACCEPT only after a key exchange has ended and the client's request has come, USERAUTH_SUCCESS only after the client has authenticated |
| Handshake.Server.PeerSeesScript | src/ssh.c:644-898 | what has left the server at any moment is a beginning of the script |
| Handshake.NotAdvancedAreTheWaits | src/ssh.c:929-944 | the list of states a flush does not advance is exactly the waiting states |
| Handshake.Client.SendStep | src/ssh.c:911-1195 | a client message is framed once, with its agent or its session channel, and the state moves on or waits with it queued |
| Handshake.Client.FlushFirst | src/ssh.c:923-967 | a flush on re-entry advances only a state whose own message was queued |
| Handshake.Client.Connect | src/ssh.c:911-1195 | an interrupted call leaves every message so far framed once and in order; it answers success exactly when it has got to the end, with all of them out, and gets there if all the server's messages are there to be read |
| Handshake.Client.Run | src/ssh.c:911-1195 | over any interrupted run each client message is framed exactly once in order, exactly one session channel is appended and at most one agent is created |
| Handshake.Client.MessagesAreEarned | src/ssh.c:969-1195 | each client message is framed only after the server has come as far as that message answers, and from the service request on only after a key exchange has ended |
| Handshake.Client.PeerSeesScript | src/ssh.c:911-1195 | what has left the client at any moment is a beginning of its script |
| Handshake.DueIsScript | src/ssh.c:969-1195 | the messages of the states, in their order, are the client's script |
| RealPath.StrNCat | src/port.c:940-965 | wstrncat appends all of a string with its terminator, or reports that it does not fit |
| RealPath.CutLast | src/ssh.c:6201-6222 | a .. segment cuts the path in place at its last separator and keeps the root, which is the pop of the stack |
| RealPath.Append | src/ssh.c:6224-6246 | another segment is appended in place exactly when it fits, which is the push |
| RealPath.Canonicalise | src/ssh.c:6162-6248 | the buffer ends with the stack fold of the segments, and the call fails exactly when the default path or a path on the way does not fit |
| RealPath.RealIsCanonical | src/ssh.c:6136-6161 | the result has no empty, . or .. segment and no delimiter inside one |
| RealPath.RealIsIdempotent | src/ssh.c:6136-6161 | resolving a result again gives it back, in any room it fits |
| RealPath.RealJoins | src/ssh.c:6136-6161 | resolving x and then a relative y is resolving x/y, and both succeed in the same room |
| RealPath.RealSegments | src/ssh.c:6193-6246 | for every path: a name goes below what comes before it, .. takes away the last name there is, and . nothing |
| RealPath.RealUpUndoesName | src/ssh.c:6136-6161 | a name followed by .. resolves as if neither were there |
| RealPath.RealBegins | src/ssh.c:6136-6187 | nothing resolves to the default path, an absolute path or one with a drive forgets it, and above the root there is the root |
| RealPath.RealBelowDefault | src/ssh.c:6170-6187 | a name without a drive goes below the default path |
| RealPath.RealDelims | src/ssh.c:6136-6161 | either delimiter separates, and one at the end adds nothing |
| RealPath.RenderRoundTrip | src/ssh.c:6136-6161 | a rendered stack splits back into that stack |
| RealPath.SegmentsSplit | src/ssh.c:6188-6191 | the tokens of two strings with a delimiter between are those of both |
| OsshCert.Cert.Parse | src/ossh.c:852-968 | succeeds exactly on the well-formed encodings of a supported type; the fields then tile the blob, the signature key starts with its type, and signedLen + 4 + signatureSz is blobSz |
| OsshCert.SkipUserKey | src/ossh.c:815-849 | the region passed over is exactly the encoding of the type's key fields |
| OsshCert.Next | src/ossh.c:852-968 | one field read is its encoding in place, and a failure means no certificate of the type reads this way |
| OsshCert.AtGrows | src/ossh.c:852-968 | what has been read is always the re-encoding of the fields so far |
| OsshCert.AtAgrees | src/ossh.c:852-968 | values that encode the blob agree with the fields read and make the next one readable |
| OsshCert.WellFormedIsUnique | src/ossh.c:852-968 | a blob is the encoding of one list of fields only, so a parsed certificate has its own fields |
| OsshCert.ReadFieldComplete | src/internal.c:5943-6119 | strings, mpints and words are read back wherever their encoding stands |
| OsshOptions.NameCmpIsLexicographic | src/ossh.c:1002-1020 | OsshNameCmp orders names by the first octet that differs, and a beginning before the whole |
| OsshOptions.NameCmpIsAntisymmetric | src/ossh.c:1002-1020 | OsshNameCmp is antisymmetric and zero on equal names only |
| OsshOptions.NameCmpIsTransitive | src/ossh.c:1002-1020 | and transitive: a total order |
| OsshOptions.PairsReadBack | src/ossh.c:1047-1125 | an encoded list of pairs is read as that list |
| OsshOptions.PairsReadTrue | src/ossh.c:1047-1125 | and only encoded lists of pairs are read |
| OsshOptions.Options.CheckCritical | src/ossh.c:1047-1104 | the loop accepts exactly the ascending lists of recognised options, each with one nonempty string filling its data |
| OsshOptions.CriticalOkExactly | src/ossh.c:1047-1104 | the critical options accepted are exactly force-command and source-address, at most one of each and in that order, with one nonempty string for data |
| OsshOptions.Options.CheckExtensions | src/ossh.c:1106-1125 | extensions pass exactly when they are a list of pairs |
| OsshOptions.Options.Check | src/ossh.c:1030-1127 | the certificate's options pass if and only if both hold, and what is extracted is what the list says |
| OsshOptions.ExtractedIsUnique | src/ossh.c:1066-1090 | no option is there twice; force-command and source-address are set exactly when present, to the one string that is their data |
| KeyEnvelope.MakeEnvelope | src/keygen.c:539-677 | the bytes written fill exactly fileSz, so the mismatch branch is never taken, and are the envelope of both halves |
| KeyEnvelope.PutPad | src/keygen.c:670-672 | the padding loop writes 1 to padSz |
| KeyEnvelope.PadFillsBlock | src/keygen.c:543-549 | the padding is the least that makes the list whole blocks |
| KeyEnvelope.GetOpenSshKey | src/ossh.c:528-702 | the cursor walks through the file and its list, with the padding loop, compute the decoding of the file |
| KeyEnvelope.EnvelopeRoundTrip | src/ossh.c:302-313 | what keygen writes for any type name and halves of the declared sizes decodes to the same public and private strings |
| KeyEnvelope.DecodedExactly | src/ossh.c:528-702 | a buffer decodes to a key if and only if it is a file of the format holding that key, of a known type with its sizes, whose padding counts up from 1 if the list is of whole blocks |
| KeyEnvelope.DecodedIsFormat | src/ossh.c:528-702 | a file that decodes is of the format, with equal checkints, the type's sizes and, in a list of whole blocks, the counted padding |
| KeyEnvelope.PaddingDecides | src/ossh.c:673-696 | a file of the format with any padding is refused exactly when its list is of whole blocks and the padding does not count up from 1 |
| KeyEnvelope.MispaddedDecodes | src/ossh.c:673-696 | a file whose one padding octet is 255, where four octets would fill the block, decodes |
| KeyEnvelope.FileReads | src/ossh.c:533-572 | any file of the format yields its private list, whatever the cipher and kdf names are |
| KeyEnvelope.ListReads | src/ossh.c:574-655 | any list of a known type with loadable halves yields its key |
| DerWalk.DerGetHeader | src/certman.c:488-520 | reads a tag and a definite length of up to four octets whose content lies within the bound |
| DerWalk.ExtKeyUsageHasOid | src/certman.c:538-613 | on arbitrary bytes every index read is inside the buffer, the loops end, and the answer is the walk's |
| DerWalk.HeaderReadExactly | src/certman.c:488-520 | a header is read exactly where a tag and the octets of a definite length of up to four octets stand, whose content lies within the bound |
| DerWalk.FoundIsThere | src/certman.c:538-613 | on arbitrary bytes, a purpose is only found where it is named as an item inside an ExtendedKeyUsage extension |
| DerWalk.TlvReads | src/certman.c:488-520 | the header of every encoded item is read back as its tag and content |
| DerWalk.WalkFindsPurpose | src/certman.c:538-613 | on every encoded extension list, wrapped or not and with or without critical flags, the answer is 1 exactly when the first ExtendedKeyUsage extension lists the OID |
| CertChain.LeafUsageExactly | src/certman.c:628-685 | a leaf passes if and only if its key usage allows signing and its extended key usage is absent, any, or of the peer's role, an SSH purpose counting when the first ExtendedKeyUsage extension of the encoded list names it |
| CertChain.Manager.VerifyOne | src/certman.c:365-395 | each verdict of the library becomes its own code, and success is the library's alone |
| CertChain.Manager.FindCerts | src/certman.c:719-752 | the loop finds exactly the length-prefixed certificates the buffer starts with, or reports it malformed |
| CertChain.Manager.CheckLeaf | src/certman.c:814-860 | the leaf passes if and only if it parses, is no CA, its usages fit the side and a profile matches; each failure has its own code |
| CertChain.SplitReads | src/certman.c:722-752 | length-prefixed certificates are found again in their buffer |
| CertChain.Manager.LoadCa | src/certman.c:282-299 | a signer is added only as a configured root or as a CA verified in this store; success means it is in the store, or was there already |
| CertChain.Manager.Promote | src/certman.c:453-484 | only a verified CA that issued the child is loaded; success is exactly for one that loads and with which, marked as a chain CA, the child verifies |
| CertChain.Manager.CheckCert | src/certman.c:754-807 | one pass keeps the store trusted, and succeeds if and only if this certificate verifies, or does with the certificate above it that issued it loaded and marked, is not revoked and, above the leaf, is a CA; a signer is added exactly when this one had none and the certificate above issued it and loads |
| CertChain.Manager.VerifyCerts | src/certman.c:690-867 | whatever the chain, the store stays trusted and gains only CAs of it; success is exactly for a chain of allowed length whose certificates, from the top down and each against the store as those above left it, all pass, and whose leaf fits the side |
| CertChain.LinkedPasses | src/certman.c:754-807 | with a library that goes by signatures, every chain in which each certificate is signed by the CA above it and the top by a signer passes, whatever intermediates the store knows |
| CertChain.GainedMaySign | src/certman.c:754-807 | every signer gained is a CA whose key usage, where limited, allows certificate signing, and verified against the signers before it |
| CertChain.PlainPasses | src/certman.c:754-764 | a chain that verifies against the signers already there passes and adds none |
| CertChain.Manager.Run | src/certman.c:690-867 | the store invariant over any sequence of loads and verifications |
| CertChain.EverySignerIsRooted | src/certman.c:319-484 | every signer in the store hangs from a configured root by signatures of CAs |
| CertChain.VerifiedIsRooted | src/certman.c:690-867 | and so does every certificate the store has verified |

## Left out

- Cryptography, key generation and loading, signatures, hashing and base64: predicates and functions the models take as given.
- Sockets, clocks, file systems and callbacks: what they return is a parameter or arbitrary. Error logging is not modelled.
- Windows, Zephyr, Nucleus and Harmony branches, and builds without the features modelled.
- Allocation failure, except where a failed step must leave its state unchanged.
- Integer widths: sizes are unbounded except where the source guards a 32- or 64-bit limit (the SCP number parser, the parked credit, encoded lengths), which is modelled.
- ScpRoundTrip.RoundTrip: one recursive request on a zeroed send context with the default callbacks, a tree of regular files and directories with carriable names, and reads that do not cross messages. Command-line parsing, renaming, a single-file request through the composition, directory timestamps (never sent) and modes applied on disk are not part of it.
- ScpSink.RefusalIsAnswered: the text an application sets goes behind the failing octet and is not modelled; a user callback answers continue or abort and nothing else.
- ScpRecvDir.Receiver.Drive: the file system itself; the identity an open or a stat finds is arbitrary.
- AgentRelay.Agent.RelayChannel: after a result worse than want-write, window-full or rekeying nothing is claimed; a highwater callback that returns one of those three codes after a delivered packet is not modelled. Mixing it with wolfSSH_AGENT_Relay is left out.
- ChannelWindow.Channel.Drive: what becomes of a bundled adjust is one of six outcomes; a socket error either discarded it or came after its flush, and a rekey the highwater callback starts is an operation of its own. ssh->error bookkeeping is left out.
- Handshake.Server.Accept: a send that answers want-write has framed its packet; what a received message leads to (the peer's state, keying, the session granted, the agent asked for, replies, a pending authentication) is given with it, arbitrary but for a key exchange that was under way and no longer is counting as ended; the data of an SCP or SFTP session behind the handshake is not modelled.
- Handshake.Client.Connect: runs interrupted by want-read, want-write or a pending authentication; handshake information missing after KEXINIT and a failing agent allocation are left out.
- RealPath.Canonicalise: a buffer of at least two characters and a canonical default path; the terminators strtok writes into its input are not modelled.
- OsshCert.Cert.Parse: fields are octet strings, not pointers into the blob; fields set before a failure are unspecified.
- OsshOptions.Options.Check: which error a refusal gives.
- KeyEnvelope.GetOpenSshKey: composite key types only, given as a table of names and sizes; whether the library loads the two halves is a predicate. The other key types' fields and the PEM wrapping are left out.
- CertChain.Manager.VerifyCerts: the library's verdicts, and whether it loads, has or can mark a signer, are functions of the signers and the certificate, and a revocation check of the certificate alone; marking a signer as a chain CA changes nothing but whether the step succeeds. FPKI profiles are one predicate.
- Buffers: memory is a sequence value; the scrubbing of abandoned allocations is modelled for _BufferTake only.
- The remote-forward reply queue, the SFTP protocol, rekeying itself and the worker loop.
