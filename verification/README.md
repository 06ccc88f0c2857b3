# A verified model of the bulletin board server

The bulletin board server keeps numbered messages in a flat file of `id/user/message` lines and copies every change
to its peers before it makes the change itself. This project models that server from the bytes of the file up to the
replicated board and proves what each layer promises to the one above it.

| layer | modules |
|---|---|
| bytes and fields | `Tokenize`, `LineCodec`, `FieldText`, `Numbers` |
| the file as a board, a map from message number to user and message | `BulletinLines`, `Descriptor`, `NumberGenerator`, `StoreRuns` |
| one peer session, the requests on the wire and what they change | `PeerProtocol`, `Wire`, `Agreement`, `ReplaceAgreement`, `PeerSession` |
| the replicated board | `TwoPhase`, `TwoPhaseInvariant`, `TwoPhaseTheorems`, `TwoPhaseReasons`, `TwoPhaseProgress`, `TwoPhaseRuns`, `PeerStat` |
| threads and lists around it | `WorkQueue`, `Pool`, `FileMonitor`, `ClientList` (with `Counting` and `Common` as helpers) |

What changes in place in the server changes in place here: the tokenizer overwrites its buffer, `BulletinFile` its
bytes, `Generator` its reservation list, `Receiver` its session, `Stat` the shared counters of the sender jobs, and
`Queue` and `List` relink heap cells. Each of these methods is proved against a specification function, and the
lemmas are about those functions. What several threads do at once is a transition system with one action for every
critical section, send, receive and sleep; its theorems are about all interleavings and any number of threads, peers
and simultaneous calls.

## How the layers meet

* `Lines`, `BoardOf` and `Find` take the bytes of the file to lines and to the board. Every file operation is proved
  to change the bytes, the lines and the board consistently.
* `PeerProtocol.Step` says what a request does to a session and a board. `PeerSession.Receiver` does just that on a
  file, starting from the characters it receives; `StoreRuns` uses it on lines; `TwoPhase` uses it on boards.
* `Wire.Parse` says what a peer makes of a line. A run of `TwoPhase` carries what its peers make of its lines, which
  they handle, beside the texts the master stores; `OnTheWire` says that the one is the parse of the other, and
  `Agreement` and `ReplaceAgreement` say when the two come to the same.
* `PeerStat.Stat` carries out the bookkeeping of the actions of `TwoPhase` on the shared record.

## What came out

* Atomicity of `sync_write` and `sync_replace`. For any number of peers and of simultaneous calls, every interleaving
  and every loss of replies: a peer for which the calls are over shows in the end just the calls that returned 0, exactly
  if it follows every one of them, whatever the other peers do (`AllRunsAtomic`, `RunIsAtomic`). The master shows in
  every reachable state just the calls that have stored their line, exactly if it follows (`MasterIsOutcome`,
  `MasterShows`). It does not follow a write under a number that it has already: the new line goes behind the old one,
  and readers get the old one (`MasterMissed`). A peer can fail to follow in three ways, and each is shown to happen:
  * The texts of the call change on the wire. A write survives exactly if the empty words of name and message (two
    separators in a row) stand where the tokenizer skips blanks (`WriteAgrees`, `WriteDiverges`). A replace survives
    exactly under the condition `ReplaceSurvives` (`ReplaceAgrees`, `ReplaceDiverges`): a peer looks for slashes only in the
    first seven characters, the length of the word `replace`, and it puts a blank behind the last word. The requests
    `REPLACE 5/abcd/efgh` and `REPLACE 5/ab/` both return 0 and leave the peers with another text than the master
    (`LossyReplace`, `CutText`).
  * An undo does not restore what a replace overwrote. It does exactly if the text that READ gives for the entry does
    not end in a slash (`AbortRestores`), which is if the last field of its line is not empty (`UndoOfCommit`); a line
    with too few fields is restored unless the session has kept the texts of another one. The line `5/bob/x//` is one
    that is lost (`LineLost`, `UndoLoses`).
  * A replace or an undo fails at the peer. Nobody looks at its result (`ReplaceMissed`, `UndoMissed`).
* A call fails only for a reason: a peer whose yes the master does not have, or its own store
  (`NoCommitWithoutReason`, `NoAbortWithoutReason`). Any number of calls on distinct numbers that all peers can carry out
  can all return 0 (`AllCallsSucceed`), and a call that has not started can do so whatever the others are doing
  (`CanSucceed`).
* The guard in front of the coordinator's wait joins three inequalities by "or", so it holds whenever there is a peer.
  A coordinator sleeps for good exactly if it reaches the wait after the last vote of a phase (`OversleepsWhen`,
  `OversleepsForever`, `OversleepsHappens`); one that is asleep by then is woken by that vote (`LastVoteWakes`).
* Two calls with no write in between hand out the same number exactly if neither the largest number of the file nor,
  behind slot 0, the number above it is reserved (`SecondCallRepeats`). What is reserved may repeat slot 0 of the list,
  and `ReservedRepeats` says when. What is handed out and released after a failed write is not always what was reserved:
  `ReleaseTakesBack` says when it is, and `ReleaseClearsOther` gives a list where another slot is cleared.
* `protocol2pc.txt:34-35` promises a QUIT to all peers after a failed precommit. `sync_write` sends it; `sync_replace`
  returns without it (`server_operations.cc:625-628`, `FailedPrecommit`, `ReplaceLeaves`). The model follows the code.
* `protocol2pc.txt:82` reserves `negative_exists` for a number that is already there. A peer that cannot open its file
  sends it too (`peer_operations.cc:222` and `251-259`, `ExistsReply`), and then gets no ABORT. The model follows the
  code; nothing was changed at that peer, so no harm is done.

## Assumptions

* A file operation is one step that succeeds or fails as a whole, and so is the master's own store together with its
  read-back. A replace that deletes the old line and then fails to append the new one is not part of this model.
* The coordinator has no spurious wakeups. The worker threads and the writers of the monitor may have them.
* The undo record, the `dont_reissue` marks and the buffers that messages are appended to start empty.
* Requests arrive in the order in which they are sent. They may be handled at any later time, or never. A reply may
  come too late.
* Lines are shorter than 1024 characters and hold no newline and no zero character. Message numbers are not empty,
  hold no slash and are not all backspaces. A line may have too few fields to show anything.
* A call of `sync_replace` is made only for a number that the master has, as `server_operations.cc:268-279` sees to.
* All calls that the theorems speak of work on different message numbers, also calls that do not overlap in time.

## Model

| member | source | states |
|---|---|---|
| Tokenize.TokenizeInPlace | tokenize.cc:73-95 | both tokenizers, told apart by their separators, with a window that may reach behind the text: the recorded offsets hold, zero-terminated, what a program sees of the fields |
| Tokenize.NextField | tokenize.cc:80-89 | the branch at a separator keeps the scan invariant, or finishes the scan with all fields recorded |
| Tokenize.CutAt | tokenize.cc:15-18 | only the separator is overwritten, and the blanks behind it are skipped |
| Tokenize.TokenizeText | tokenize.cc:8-29 | the tokens read back from the buffer as strings are those of the specification, for any window `n` |
| Tokenize.TokensFree | tokenize.cc:14 | no word holds a blank or an equals sign, and no field a slash |
| Tokenize.WordsOf | tokenize.cc:8-29 | a text with both separators, and its words |
| LineCodec.FieldCount | tokenize.cc:78-94 | one field, and one more for every slash that has a non-blank character somewhere behind it |
| LineCodec.JoinTokens | descriptor.cc:283-290 | splitting and gluing back gives the text exactly if every slash is followed by a non-blank character inside the window |
| LineCodec.TokensOfJoin | descriptor.cc:342-355 | gluing and splitting gives the fields, except that one empty last field is lost |
| LineCodec.FieldsOfFormat | descriptor.cc:129-131 | the fields of a written line, for any user and message: the number, then those of user and message |
| LineCodec.StoredLine | descriptor.cc:129-131 | a written line has the number as its key, and reads back as the entry of its user and message, if these give one |
| LineCodec.LineRoundTrip | descriptor.cc:271-314 | a written line reads back as the same user and message exactly if the user holds no slash, neither starts with a blank and every slash in the message is followed by a non-blank character |
| LineCodec.WriteBack | peer_operations.cc:334-338 | what was read from a line survives being written back exactly if the last field of the line is not empty |
| LineCodec.ShownIs | descriptor.cc:277-297 | what is shown of a line are its fields behind the number, glued together, and the line itself exactly if the tokenizer loses nothing |
| LineCodec.RestorableIfWhole | peer_operations.cc:334-338 | in terms of a reader: an entry survives being written back exactly if its text does not end in a slash |
| LineCodec.PaddingInvisible | server_operations.cc:70-73 | a blank in front of the user name does not show when the line is read |
| LineCodec.BehindParts | descriptor.cc:129-131 | the fields of a written line are those of the user, closed by the slash, and those of the message; a message that is not blank gives an entry |
| FieldText.OpenBlank | tokenize.cc:83-84 | where blanks are skipped one blank more does not change the fields |
| FieldText.ClosedBlank | tokenize.cc:80-91 | anywhere else it makes the fields one character longer |
| FieldText.ShortBuffer | tokenize.cc:79-92 | a window that reaches behind the end of a text finds one more, empty field exactly if only blanks follow the last slash |
| Numbers.AtoiPrint | server_operations.cc:179-181 | reading a printed number gives the number |
| Numbers.NoNumber | descriptor.cc:389 | a text without digits reads as 0 |
| Numbers.NumberExamples | descriptor.cc:389-391 | decimal digits, white space, a sign, and text behind the digits |
| BulletinLines.FlattenLines | tcp-utils.cc:121-143 | a newline-terminated file is the concatenation of its lines |
| BulletinLines.LinesFlatten | tcp-utils.cc:125-140 | a file built from lines splits into just these lines |
| BulletinLines.FindBoard | descriptor.cc:271-275 | the search by first field finds a line exactly if the board holds the number, and then a live line that reads as the board says, be it with an entry or with too few fields |
| BulletinLines.ErasedBytes | descriptor.cc:197-207 | in bytes, erasing line `k` replaces just its characters, found at the sum of the lengths of the lines in front |
| BulletinLines.ErasedBoard | descriptor.cc:179-216 | erasing a live line removes just its number from the board and keeps the file sound |
| BulletinLines.WrittenBoard | descriptor.cc:129-131 | appending under a fresh number is an insertion into the board |
| BulletinLines.ReplacedBoard | descriptor.cc:218-233 | deleting and appending is an update of the board |
| BulletinLines.ShownIsWritable | peer_operations.cc:336-338 | whatever is read for a number may be written under it again |
| BulletinLines.WritableBack | peer_operations.cc:334-338 | whether an entry of the file can be written back is seen in the last field of its line, and in the end of its text |
| BulletinLines.HousekeptBoard | descriptor.cc:459-485 | what stays is live and was there before, the board and the uniqueness of numbers are kept |
| BulletinLines.HousekeptIdempotent | descriptor.cc:459-485 | housekeeping twice is housekeeping once |
| BulletinLines.HousekeptParts | descriptor.cc:459-485 | housekeeping takes out garbage, keeps everything else in order, and does to a file what it does to its parts |
| BulletinLines.GarbageIs | descriptor.cc:465-474 | garbage lines are the runs of the character with code 8 |
| Descriptor.ReadLine | tcp-utils.cc:121-143 | `readline` in all its cases: end of file, a line, a last line without newline, a full buffer; with the position it leaves behind |
| Descriptor.NextLine | descriptor.cc:271-273 | on a sound file the scan meets the lines in order, each whole, until there are none |
| Descriptor.JoinTail | descriptor.cc:283-290 | the gluing loop computes `Join` of the fields from there on |
| Descriptor.BackspaceLine | descriptor.cc:198-205 | the overwriting text: as many backspaces as asked for and a newline |
| Descriptor.CountBackspaces | descriptor.cc:462-474 | the count test holds exactly for garbage lines |
| Descriptor.DeletedBytes | descriptor.cc:197-207 | the overwritten bytes stand for the same lines with that one erased, and no other byte differs |
| Descriptor.BulletinFile.Search | descriptor.cc:159-171 | finds the first line of a number, its fields and length, and the position behind it |
| Descriptor.BulletinFile.Read | descriptor.cc:235-326 | the fields behind the number, glued together, which is the line behind the number and its slash wherever the tokenizer loses nothing; the empty text for a line with too few fields; -1 for an unknown number, -2 without a file |
| Descriptor.BulletinFile.ReadTokenized | descriptor.cc:328-372 | gives the same entry as `read_descriptor`, with user and message apart, and leaves the caller's texts alone if there is none |
| Descriptor.BulletinFile.Seek | descriptor.cc:154-177 | position minus length minus one is where the line of the number starts |
| Descriptor.BulletinFile.Write | descriptor.cc:105-137 | appends one line, nothing else, or answers -2; under a fresh number the board gains just that line |
| Descriptor.BulletinFile.Delete | descriptor.cc:179-216 | keeps the file length and every byte outside that line, and removes just that number from the board |
| Descriptor.BulletinFile.Replace | descriptor.cc:218-233 | is an update of the board |
| Descriptor.BulletinFile.Housekeep | descriptor.cc:446-516 | removes exactly the garbage lines, keeps order and bytes of the rest and the board |
| NumberGenerator.Generator.constructor | descriptor.h:5-12 | starts without reservations |
| NumberGenerator.Generator.LargestNumber | descriptor.cc:385-393 | the largest first field read as a number, or 0 |
| NumberGenerator.Generator.GenerateNumber | descriptor.cc:374-429 | the rescanning loop ends, issues and reserves the numbers of the specification, and only appends to the list |
| NumberGenerator.Generator.ReleaseNumber | descriptor.cc:431-444 | clears the first slot with the number and no other; -1 and no change if there is none |
| NumberGenerator.IssuedIsFresh | server_operations.cc:179-185 | the number is larger than all numbers in the file, and nothing is shown under its printed form |
| NumberGenerator.IssuedBound | descriptor.cc:397-427 | all skipped values are reserved, the reserved value is not in slots 1 onward, and the number exceeds the file's by at most max(1, count) |
| NumberGenerator.FileMaxLive | descriptor.cc:385-393 | the largest number is that of a live line, or 0; deleted lines do not count |
| NumberGenerator.IssuedNear | descriptor.cc:374-429 | the number handed out is larger than all in the file, and by at most max(1, count) larger than that of some live line, or than 0 |
| NumberGenerator.FirstNumber | descriptor.cc:417-427 | the first number of all is 1 |
| NumberGenerator.ReservedMayRepeatSlotZero | descriptor.cc:403-408 | a list for which the reserved value is already in slot 0 |
| NumberGenerator.ReservedRepeats | descriptor.cc:403-413 | the reserved value is in the list exactly if the file's largest number is, and slot 0 holds a larger number that no other slot holds while the others hold all in between |
| NumberGenerator.SecondCallRepeats | descriptor.cc:417-427 | two calls in a row give the same number exactly if the file's largest number is not reserved and the next is not reserved behind slot 0 |
| NumberGenerator.ReleaseTakesBack | server_operations.cc:197 | releasing the number handed out clears the slot reserved with it exactly if the file's largest number was reserved and no slot in front holds the reservation |
| NumberGenerator.ReleaseClearsOther | server_operations.cc:197 | a list for which it clears a slot of another writer |
| StoreRuns.RequestBoard | peer_operations.cc:130-347 | a request does to the lines what the protocol says of the board, and keeps the file sound |
| StoreRuns.ApplySound | server_operations.cc:179-185 | each operation keeps at most one live line per number and changes the board as stated; a generated number is not in use |
| StoreRuns.RunsKeepNumbersUnique | server_operations.cc:268-283 | no sequence of writes, replaces, requests of any sessions and housekeeping ever makes two live lines with one number |
| PeerProtocol.UndoOfCommit | peer_operations.cc:130-146 | a successful commit and an abort leave the board of the file as it was exactly if the commit was a write, or the line it replaced does not end in an empty field, or has too few fields and no other texts were kept |
| PeerProtocol.RunLeadsBack | peer_operations.cc:219-240 | the undo record always leads back to just before the last successful commit, whatever failed |
| PeerProtocol.LineLost | peer_operations.cc:336-338 | a line that the store takes and shows and cannot write back |
| PeerProtocol.ExistsReply | peer_operations.cc:220-259 | `negative_exists` is the answer exactly to the commit of a write whose number is there or whose file is missing |
| PeerProtocol.SessionGoesOn | peer_operations.cc:239-270 | which requests leave the session open |
| PeerProtocol.AbortRestores | protocol2pc.txt:42 | an abort at the end of any session restores the board of just before its last successful commit exactly if that was not a replace, or of a text that does not end in a slash, or of a line with too few fields and no other texts were kept |
| PeerProtocol.StepFrame | peer_operations.cc:134-141 | a request touches at most the number it names or the one in the undo record |
| Wire.PaddedTokens | tokenize.cc:13-26 | words with a blank in front of each come back, without the empty ones |
| Wire.WriteRoundTrip | server_operations.cc:897-909 | the message of a write arrives unchanged exactly if it has no empty word |
| Wire.WriteHeard | peer_operations.cc:201-217 | it always arrives without its empty words, and is refused without any word |
| Wire.UserHeard | peer_operations.cc:153-193 | the name of a precommit arrives without its padding and its empty words, and is refused without any word |
| Wire.NobodyHeard | peer_operations.cc:170-173 | the name of a client that gave none arrives |
| Wire.ClosingHeard | server_operations.cc:1035-1048 | abort and quit arrive as abort and quit |
| Wire.RequestLines | server_operations.cc:796-915 | the lines of all requests, letter by letter |
| Wire.LowerLetters | tokenize.cc:55-60 | capital letters become small ones, and nothing else changes |
| Wire.CaseIgnored | peer_operations.cc:121-124 | the case of the command does not matter |
| Wire.RefusedExactly | peer_operations.cc:130-394 | exactly which requests are not refused |
| Wire.ReplaceHeard | peer_operations.cc:275-283 | what a peer takes apart for a replace are the words of the text, less the empty ones, with a blank behind each |
| Wire.PrecommitShape | peer_operations.cc:153-193 | whatever the name, a precommit arrives as one or is refused |
| Wire.WriteShape | peer_operations.cc:201-271 | whatever the message, the commit of a write names its number or is refused |
| Wire.ReplaceShape | peer_operations.cc:273-361 | whatever the message, the commit of a replace names its number or is refused |
| Agreement.Squeeze | tokenize.cc:13-26 | dropping empty words in a text changes its fields exactly if one of them stands where blanks are not skipped, and then makes them shorter |
| Agreement.WriteAgrees | peer_operations.cc:201-225 | a peer stores for a write the entry that the master stores exactly if the empty words of name and message stand where blanks are skipped |
| ReplaceAgreement.WindowLost | peer_operations.cc:285-304 | the split of a replace keeps the text exactly if no slash of the window has only blanks behind it there, or nothing is lost by that |
| ReplaceAgreement.ReplaceAgrees | peer_operations.cc:275-338 | a peer refuses numbers of more than five characters, or four without a message, and else stores for a replace what the master stores exactly if name and text survive |
| ReplaceAgreement.MasterText | server_operations.cc:228-256 | number and message that the master takes out of a request meet the conditions of `ReplaceAgrees`, unless the number is empty |
| ReplaceAgreement.CutText | server_operations.cc:237 | a request that the master cuts so that its text does not survive |
| Wire.WindowExact | peer_operations.cc:285-304 | number and message come out of a window exactly if the number ends inside it and no slash in it is followed by a blank or its end |
| Wire.MasterReplaceExact | server_operations.cc:228-256 | the master recovers them under the same condition with its first word as the window |
| Wire.ReplaceLosesText | peer_operations.cc:286 | a replace request the master and a peer take apart differently |
| PeerSession.Rebuild | peer_operations.cc:205-217 | putting words together gives what the master's own loop gives |
| PeerSession.Trail | peer_operations.cc:277-283 | the request text is every word with a blank behind it |
| PeerSession.SplitRequest | peer_operations.cc:285-286 | the split with the window of seven characters, read on in the buffer behind the end of a short request |
| PeerSession.Receiver.constructor | peer_operations.cc:94-104 | a session starts open, as `nobody`, without an undo record |
| PeerSession.Receiver.HandleAbort | peer_operations.cc:130-146 | undoes on the file what the protocol undoes on the board |
| PeerSession.Receiver.HandleWrite | peer_operations.cc:219-260 | session and board are those of the protocol, with a file, without one, and with one that can only be read; `positive` is answered exactly if the line was stored, `negative_exists` exactly if the number was there or the file is missing |
| PeerSession.Receiver.HandleReplace | peer_operations.cc:319-347 | session and board are those of the protocol; `positive` is answered exactly if the number was there, and `negative` otherwise |
| PeerSession.Receiver.HandleCommit | peer_operations.cc:195-384 | so they are for every commit request; a malformed one is answered `negative` and ends the session |
| PeerSession.Receiver.Handle | peer_operations.cc:106-395 | so they are for every request line, from its characters on; a precommit is answered `positive`, what is not understood `negative` |
| PeerSession.AbortAcceptable | peer_operations.cc:134-141 | after a positive answer the store can carry out the abort as long as the number stays in the file |
| PeerStat.Stat.constructor | server_operations.cc:366-378 | a new record holds the state a run starts with |
| PeerStat.Stat.ClaimPeer | server_operations.cc:755-771 | takes the first unmarked peer, the one the claim action of the protocol takes |
| PeerStat.Stat.CountPrecommit | server_operations.cc:816-832 | counts a reply as the vote action does and wakes the coordinator exactly at the last vote |
| PeerStat.Stat.CountCommit | server_operations.cc:950-971 | the same for a commit, and marks the peer that must not be disturbed |
| PeerStat.Stat.Reset | server_operations.cc:410-416 | leaves the record as the next phase starts with it |
| PeerStat.RepliesArrive | peer_operations.cc:175 | what the master compares is what the peer has sent less its newline, and no two answers are alike |
| TwoPhase.FirstUnmarked | server_operations.cc:757-769 | the first unmarked peer, all peers in front of it being marked |
| TwoPhase.WireAddressed | peer_operations.cc:153-384 | the lines of a run arrive as a precommit and as a commit of its kind and number, or are refused |
| TwoPhaseInvariant.ReadyFinds | server_operations.cc:773-776 | a job of a phase always finds an unmarked peer |
| TwoPhaseInvariant.VotesBound | server_operations.cc:827-830 | votes never exceed claims, and once all are in, no job of the phase is left |
| TwoPhaseInvariant.StartKeeps | server_operations.cc:405-425 | the next phase starts with sound counters, so no job of one phase touches those of the next |
| TwoPhaseInvariant.HandleKeeps | peer_operations.cc:106-395 | whatever a peer handles and whatever fails, its session and its board at the run's number stay as described, and other numbers stay untouched |
| TwoPhaseInvariant.InvStep | server_operations.cc:362-737 | every action of every call, job and peer keeps the invariant |
| TwoPhaseInvariant.InvInitial | server_operations.cc:366-380 | calls that have not started satisfy it |
| TwoPhaseInvariant.InvReaches | server_operations.cc:362-737 | so it holds in every reachable state |
| TwoPhaseTheorems.RunIsAtomic | server_operations.cc:362-558 | once a call is over and peer `i` is done with it, whatever its other peers do, that peer shows the new line if the call returned 0 and the old state if it returned -1, exactly if it follows |
| TwoPhaseTheorems.MasterShows | server_operations.cc:462-490 | in every reachable state the master shows the new line of a run that has stored it and the old state of one that has not, exactly if it follows |
| TwoPhaseTheorems.MasterIsOutcome | server_operations.cc:362-737 | in every reachable state the master's board is the first one updated by exactly the runs that have stored their line, exactly if it follows all of them |
| TwoPhaseTheorems.AllRunsAtomic | server_operations.cc:362-737 | once any number of interleaved calls are over for a peer, whatever the other peers do, its board is the first one updated by exactly the calls that returned 0, exactly if it follows all of them |
| TwoPhaseTheorems.SingleWriteAtomic | protocol2pc.txt:49-73 | a single write under a new number whose words survive, with no failing file, changes all replicas alike or none |
| TwoPhaseTheorems.WriteFollows | server_operations.cc:362-558 | without failures a peer follows a write exactly if it returned -1 or its words survive |
| TwoPhaseTheorems.ReplaceFollows | server_operations.cc:560-737 | without failures a peer follows a replace that returned 0 exactly if name and text survive, and one that returned -1 exactly if it never accepted it or the undo restores what it had |
| TwoPhaseTheorems.CommitNeedsAllPrecommits | server_operations.cc:405-425 | in every reachable state, a peer is only asked to commit, and has only accepted a commit, if all peers accepted the precommit |
| TwoPhaseTheorems.MasterNeedsAllPeers | server_operations.cc:462-464 | in every reachable state, the master has stored the line only if each peer has accepted it and has said so; each then shows what it made of it, unless its own replace failed unnoticed |
| TwoPhaseTheorems.ClaimAndVote | server_operations.cc:755-832 | marks form a prefix, two jobs never hold one peer, the counters are the votes cast, and the three-way test holds exactly at the last vote |
| TwoPhaseTheorems.ContactedOnce | server_operations.cc:842-1146 | each phase contacts a peer at most once; after a call that returned 0 each peer got precommit, commit and quit |
| TwoPhaseTheorems.AbortsSent | protocol2pc.txt:81 | a call that failed after its commit has sent an abort to exactly the peers whose `negative_exists` it has not read |
| TwoPhaseTheorems.FailedPrecommit | server_operations.cc:427-447 | a call that is over and ended before its commit has sent precommit and quit if it is a write, and only the precommit if it is a replace, whatever the peers do |
| TwoPhaseTheorems.OnlyOwnNumber | peer_operations.cc:130-146 | no request of a call, not even its abort, changes another call's number at a peer |
| TwoPhaseTheorems.AlwaysSleeps | server_operations.cc:395-398 | with at least one peer the coordinator always goes to sleep |
| TwoPhaseTheorems.OversleepsWhen | server_operations.cc:395-398 | it sleeps for good exactly if all votes are in when it comes to the wait, and there is a peer |
| TwoPhaseTheorems.OversleepsForever | server_operations.cc:393-400 | asleep after the last vote, it stays asleep whatever happens |
| TwoPhaseTheorems.LastVoteWakes | server_operations.cc:827-830 | asleep before it, it is woken by the last vote and by no other |
| TwoPhaseTheorems.ConnectionFails | server_operations.cc:781-794 | as long as a job has claimed a peer and not reached it, the call does not get past the wait of its phase |
| TwoPhaseReasons.NoCommitWithoutReason | server_operations.cc:405-447 | a call that ends without a commit lacks the yes of some peer to its precommit |
| TwoPhaseReasons.NoAbortWithoutReason | server_operations.cc:462-555 | a call that fails after its commit lacks the yes of some peer to it exactly if its own store did not fail |
| TwoPhaseProgress.CanSucceed | server_operations.cc:362-737 | whatever other calls are doing, a call that has not started and that all its peers can carry out can return 0 with its line stored at the master and at all peers, for any number of peers |
| TwoPhaseProgress.AllCallsSucceed | protocol2pc.txt:49-56 | any number of calls on distinct numbers that all peers can carry out can all return 0 |
| TwoPhaseProgress.NoInterference | server_operations.cc:362-737 | a step of one call never keeps another call from taking a step |
| TwoPhaseRuns.Succeeds | protocol2pc.txt:49-56 | every call that a peer can carry out can return 0 |
| TwoPhaseRuns.Fails | protocol2pc.txt:65-73 | and can return -1, the answer to the commit being lost and the peer undoing it |
| TwoPhaseRuns.WriteDiverges | server_operations.cc:897-909 | every write whose words do not survive can return 0 and leave master and peer showing different things |
| TwoPhaseRuns.ReplaceDiverges | server_operations.cc:911-923 | so can every replace whose name or text does not survive |
| TwoPhaseRuns.LossyReplace | peer_operations.cc:286 | one such call, with what master and peer show in the end |
| TwoPhaseRuns.UndoLoses | peer_operations.cc:138-141 | every replace that an undo does not restore can return -1 and leave the peer changed |
| TwoPhaseRuns.ReplaceMissed | peer_operations.cc:338-341 | a replace that fails at the peer is answered positively, and the call returns 0 |
| TwoPhaseRuns.UndoMissed | peer_operations.cc:134-137 | an undo that fails leaves the peer with a line of a call that returned -1 |
| TwoPhaseRuns.MasterMissed | server_operations.cc:464 | a write under a number that the master has returns 0, and the master goes on showing the old line |
| TwoPhaseRuns.ReplaceLeaves | server_operations.cc:625-628 | a replace that returns without a quit, the peer's session still open |
| TwoPhaseRuns.OversleepsHappens | server_operations.cc:393-398 | a coordinator overtaken by its last vote |
| WorkQueue.Queue.constructor | thrd_mgmt.cc:284-304 | starts empty with the bit down |
| WorkQueue.Queue.PushWork | thrd_mgmt.cc:320-342 | appends one cell and raises the bit |
| WorkQueue.Queue.PullWork | thrd_mgmt.cc:344-368 | takes the oldest cell, nothing from an empty queue, and raises the bit exactly if work is left |
| WorkQueue.Queue.ClearWorkQueue | thrd_mgmt.cc:306-318 | takes out all waiting jobs in order, none twice and none missing |
| Pool.PostSafe | thrd_mgmt.cc:399-405 | a post leaves no raised bit with sleepers and nobody signalled |
| Pool.AnyPool | thrd_mgmt.cc:320-342 | a pool starts with any number of workers, and a job goes behind the queue whenever nobody holds it |
| Pool.SafeStep | thrd_mgmt.cc:217-275 | every step of workers, pushers and shutdown keeps the pool safe, spurious wakeups included |
| Pool.PoolIsSafe | thrd_mgmt.cc:306-430 | in every reachable state waiting work is on its way to a worker, and the jobs pushed are the jobs pulled, drained and queued, in order |
| Pool.PulledIsRun | thrd_mgmt.cc:247-256 | in every reachable state every job has been run as often as it was pulled, but for the workers that have it in hand |
| Pool.NeverStuck | thrd_mgmt.cc:415-430 | with waiting work and a worker the pool can always go on |
| Pool.OwnStepLowers | thrd_mgmt.cc:217-275 | each step of the pool lowers the weighted measure |
| Pool.RunsEndEmpty | thrd_mgmt.cc:231-266 | without new work the pool stops after at most `Measure` steps, and then with an empty queue |
| Pool.AllJobsRun | thrd_mgmt.cc:231-266 | where a living pool cannot go on, every job has been run as often as it was pushed |
| Pool.PostAllWakes | thrd_mgmt.cc:407-413 | a post to all leaves nobody asleep |
| Pool.RunsEndGone | thrd_mgmt.cc:106-125 | after a shutdown and a post to all the pool stops after at most `Measure` steps, and then all workers have left |
| Pool.GoneAccounts | thrd_mgmt.cc:306-318 | once all have left, every job pushed has been run, was taken out of the queue or is still in it |
| FileMonitor.InvStep | descriptor.cc:82-94 | every step of readers and writers keeps the invariant |
| FileMonitor.MonitorIsSafe | descriptor.cc:90-135 | `reads` is the number of readers inside, nobody scans during an append, appends exclude each other, a sleeping writer has a reader inside, and a writer that has left has appended exactly once for each call |
| FileMonitor.LastReaderReleases | descriptor.cc:319-323 | the last reader notifies every sleeping writer; that they all get to append is `RunsEndFree` |
| FileMonitor.NeverStuck | descriptor.cc:82-135 | as long as somebody is inside or waiting, somebody can move |
| FileMonitor.AnyMonitor | descriptor.cc:82-241 | the monitor starts with any number of readers and writers, and whoever is outside can come in whenever nobody holds the mutex |
| FileMonitor.RunsEndFree | descriptor.cc:82-135 | without new arrivals the monitor stops after at most `Measure` steps, and then all readers and writers have left, with one scan or one append for each call |
| ClientList.List.Push | linkedList.cc:26-47 | appends one cell |
| ClientList.List.FindNext | linkedList.cc:133-178 | finds the cell in front of the one with the value |
| ClientList.List.PullCell | linkedList.cc:88-131 | unlinks the cell at the head, at the tail or in between and keeps all links consistent |
| ClientList.List.PullSpec | linkedList.cc:59-85 | removes exactly the given value, and changes nothing if it is absent |

## Left out

- Descriptor.ReadLine: does not model the -1 of a read that fails; the loops of the source read on for ever then.
- Descriptor.BulletinFile.Delete: requires that the file can be opened and the number is in it; for an absent number the source reads a length it never set.
- Descriptor.BulletinFile.Replace: requires the same, and a file that can be opened.
- Descriptor.BulletinFile.Write: does not model NULL arguments or lines longer than the buffers.
- Descriptor.BulletinFile.ReadTokenized: requires that the file can be opened, since the source does not look at the result of its `open` and reads for ever.
- Descriptor.BulletinFile.Seek: requires the same.
- Descriptor.BulletinFile.Housekeep: requires that the file can be opened and replaced and that no old cache file is there.
- NumberGenerator.Generator.GenerateNumber: requires a free slot in the reservation list; the overflow of `atoi` is not modelled.
- StoreRuns.RequestBoard: leaves out an abort whose number is no longer in the file, like `Delete`.
- StoreRuns.ApplySound: leaves out the same.
- StoreRuns.RunsKeepNumbersUnique: leaves out the same.
- PeerSession.SplitRequest: assumes that the buffer holds no slash behind the terminator of a request shorter than the window.
- PeerSession.Receiver.HandleAbort: requires a file that can be opened and a number that is in it; the failure of a store operation is only modelled in the protocol (`StoreFails`), not on the file.
- PeerSession.Receiver.HandleReplace: requires a file that can be opened for reading and writing; without one the source hangs, which in the protocol is a step that never comes.
- PeerSession.Receiver.HandleCommit: requires what the store needs to write the line.
- PeerSession.Receiver.Handle: requires the same.
- ReplaceAgreement.ReplaceAgrees: speaks of messages that do not start with a blank, as the master's never do (`MasterText`).
- TwoPhaseTheorems.RunIsAtomic: the master's store and read-back are one step that succeeds or fails as a whole; a store whose read-back fails is not modelled. Nothing is said of a peer while it hangs or has requests to handle.
- TwoPhaseTheorems.AllRunsAtomic: needs different message numbers for all calls, which the generator does not promise (see `SecondCallRepeats`).
- TwoPhaseInvariant.HandleKeeps: leaves out a peer's replace that fails between its delete and its append.
- TwoPhaseTheorems.ClaimAndVote: says nothing of progress (see `ConnectionFails` and `OversleepsForever`).
- TwoPhaseRuns.Succeeds: is about one peer; it shows that the cases of the theorems are there, not how often.
- ClientList.List.PullSpec: requires that the socket values in the list are distinct.
- The exclusion of readers and writers for delete, seek, tokenized read and number generation: these operations take no lock.
- Sockets, polling, signals, configuration, logging, debug delays and the banner: input and output plumbing.
- Startup, restart, the teardown of a thread team and its races, and the client record that the accept loop shares with its threads.
- Failure of memory allocation, and memory that is never freed.
- The client commands other than as callers of the operations above: their replies are text only.
