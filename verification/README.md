# raft-kv, modelled and proved in Dafny

raft-kv is a replicated key-value store: a Raft consensus engine (`raft-kv/raft`), its write-ahead
log (`raft-kv/wal`) and a server that ties them to a redis-like store (`raft-kv/server`). This
project models the engine and the data structures under it and proves what they are for.

## How it is built

**The cluster.** `NodeSpec` says what one node does with one message, on values. `Cluster` puts
nodes with a fixed voter set on a network that loses, duplicates, delays and reorders messages; one
event is a whole server action, or a crash and restart. `Refinement` breaks every event into the
atomic actions of `Actions`, which keep the invariants of `Election` (votes, in every
configuration) and `History` (logs, commits, acknowledgements). `Theorems` states the results over
whole runs: election safety, log matching, leader completeness, state machine safety, sound
acknowledgements, and that no delivered message makes a node throw out of its log. `PreVoteFlaw`,
`LogFlaw` and `FatalFlaw` build the runs that break these in the configurations the theorems leave
out, `TwoVoters` proves what two voters keep even there, and `Conditions` puts all together: every
guarantee with its exact condition. `SendWindow` says which of the sends and restarts that `NodeSpec`
and `Cluster` leave open are the code's own; all the runs built keep to it.

**The node.** `RaftCore.Raft` is the object of `raft.cpp`: its methods update its fields, and each
is tied to the same operation on its abstract value, up to `Step`. It works on `RaftLog.RaftLog`,
the one log over two tiers (`UnstableLog.Unstable`, `Storage.MemoryStorage`), whose methods are
tied to operations on a single value (`LogSpec`), and that value to the uncompacted log
(`LogWindow`). `Responses` says what a node answers to every kind of message, and `Pacing` what a
leader does for its followers, without the names of the parts of a step. `Server.Server` is one Ready cycle and the apply cursor; `Apply` proves exactly-once
apply over runs. `ReadyLoop.Act` is one action of a server: a step (`NodeAction`), then the Ready loop,
with every Ready in the write-ahead log before anything is done with it. `Deliverable` closes the
circle: whatever the cluster delivers, the object may step, and its action is an event of the cluster.

**Beside it.** `Progress` (flow control, the in-flight ring buffer, convergence of probing),
`CommitIndex` (the sorted match buffer), `Quota` (the leader's books), `WalFormat`, `Wal` and
`WalReplay` (bytes, files, recovery), `Journal` (what the Ready loop writes is such a history, whatever
a crash leaves of it has the node's log, term and vote, and what a node starts from is that node
restarted, ready for its next action), and `Glob` (the KEYS matcher).

`dafny verify dfyconfig.toml` checks the whole project.

## Where the code and its documentation part

- `step_candidate` counts MsgPreVoteResp and MsgVoteResp in either candidate state
  (raft-kv/raft/raft.cpp:803-812), although its comment and raft-kv/raft/raft.h:40-41 say that only
  the type of its own candidacy counts. The model follows the code. `Config.guarded` stands for the
  documented rule. `Election.Exposed` says which configurations are open to it: not guarded, and three
  voters or more of which some pre-vote, or two that both do. The server's own settings are. In exactly
  these some run has two leaders of one term, and from there logs that do not match, two entries
  committed at one index, later leaders without committed entries, and acknowledgements that do not
  hold (`PreVoteFlaw`, `Conditions`); in all others everything in `Theorems` holds. A throw out of the
  log takes an exposed configuration and a third voter: two voters never come to one
  (`Conditions.FatalCondition`), as long as nobody needs a snapshot.
- The answer to MsgSnap carries index 0, because the index is put into the question
  (raft-kv/raft/raft.cpp:1083, 1091). The model does the same.
- Replay skips entry records at or below the snapshot, and with them the cut they made
  (raft-kv/wal/wal.cpp:240-243), and a received snapshot leaves the old entries on file
  (raft-kv/server/raft_node.cpp:107-114). Entries that the node had given up can come back;
  `WalReplay.RecoversOwnLog` says exactly when. Restart in `Cluster` stands for a recovery in which
  they do not, which `Journal.ComeBack` proves it to be.
- The hard state that commits a received snapshot is written before the snapshot's mark, and the mark
  before the snapshot's file. After a crash in between load_state throws
  (`WalReplay.CommitWithoutSnapshot`), or, if the old log is long enough, old entries are taken for
  committed (`WalReplay.OldEntriesTakenForCommitted`); `WalReplay.CommitInRange` is exact.
- A configuration change that does not unpack leaves the apply cursor behind
  (raft-kv/server/raft_node.cpp:260-263), and a batch that ends in one makes the next throw
  (`Apply.CursorKeepsUp`). `Server.Cycle` and `ReadyLoop.Act` are about logs without such entries.
- The string matcher never looks at the pattern when the string is empty, so that a lone star does
  not match it (`Glob.AnswerIsMeaning`).
- A change of nothing but the commit index is written, but not synced, before messages leave
  (raft-kv/wal/wal.cpp:300-304, raft-kv/raft/util.cpp:49-56), so a restart may lower it. `Cluster`
  allows that.

## Model

| member | source | states |
|---|---|---|
| Theorems.ElectionSafety | raft-kv/raft/raft.cpp:418-497 | Two leaders of one term, at whatever two moments and across restarts, are the same node, in every run of a configuration that is not exposed |
| Theorems.LogMatchingHolds | raft-kv/raft/raft.cpp:1410-1435 | Two logs, at any two moments of a run, that have the same term at an index are equal entry by entry through that index, unless the configuration is exposed |
| Theorems.LeaderCompleteness | raft-kv/raft/raft.cpp:436-474 | What a node has committed by its term is in the log of every leader of a later term, whichever of the two states comes first, in every run of a configuration that is not exposed |
| Theorems.StateMachineSafety | raft-kv/raft/raft_log.cpp:30-60 | Any two nodes, at any two moments, hold the same entries up to the smaller of their commit indexes, in every run of a configuration that is not exposed |
| Theorems.CommitNeverDecreases | raft-kv/raft/raft_log.cpp:186-198 | No event but a restart lowers a commit index |
| Theorems.AckSoundness | raft-kv/raft/raft.cpp:1022-1046 | A non-reject answer with index n means, for the rest of its term, that the sender holds the log of the leader of that term through n, unless the configuration is exposed |
| Theorems.NoFatal | raft-kv/raft/raft_log.cpp:41-42 | No message in flight, delivered at any time, makes the node throw out of its log: no conflict with a committed entry, no gap, no commit index beyond the last entry, in every run of a configuration that is not exposed |
| Theorems.SnapshotAgrees | raft-kv/raft/raft.cpp:1097-1144 | No snapshot in flight contradicts anything a node has committed, in every run of a configuration that is not exposed |
| PreVoteFlaw.ElectionSafetyCondition | raft-kv/raft/raft.cpp:803-819 | Exact condition for the vote counting as written: at most one leader per term in all runs if and only if the configuration is not exposed, that is guarded, or pre-vote is off everywhere, or there is one voter, or there are two voters of which at most one pre-votes |
| PreVoteFlaw.ServerConfigurationUnsafe | raft-kv/server/raft_node.cpp:52-53 | With pre-vote on at all of two or more nodes, as the server configures them, some run has two leaders of one term |
| PreVoteFlaw.BothOnPreVotes | raft-kv/raft/raft.cpp:788-812 | A run, for any number of voters, in which two pre-voting nodes both become leader of term 2 on late pre-vote grants, and nobody else has an entry |
| PreVoteFlaw.OneOnPreVotes | raft-kv/raft/raft.cpp:788-812 | The same with only one node that pre-votes, for three or more voters |
| Conditions.LogMatchingCondition | raft-kv/raft/raft_log.cpp:77-92 | Exact condition: log matching holds in all runs if and only if the configuration is not exposed; otherwise the two leaders take one proposal each and have different entries with one index and term |
| Conditions.StateMachineCondition | raft-kv/raft/raft_log.cpp:30-60 | Exact condition: no two nodes ever commit different entries at one index if and only if the configuration is not exposed; otherwise one leader crashes, acknowledges the other's entry for its own, because terms alone are compared, and both commit |
| Conditions.CompletenessCondition | raft-kv/raft/raft.cpp:436-474 | Exact condition: every later leader has what was committed if and only if the configuration is not exposed |
| Conditions.AckCondition | raft-kv/raft/raft.cpp:1022-1046 | Exact condition: acknowledgements mean what they say if and only if the configuration is not exposed |
| Conditions.FatalCondition | raft-kv/raft/raft_log.cpp:186-194 | Exact condition, for the runs in which leaders keep to their send windows, restarts keep the commit index synced with the term and nobody needs a snapshot: no message ever makes a node throw out of its log if and only if the configuration is not exposed or has two voters; with a third voter an acknowledged log is cut short by the other leader and then committed by a heartbeat |
| Conditions.ServerConfigurationDiverges | raft-kv/server/raft_node.cpp:52-53 | With the server's own settings, for two nodes or more, log matching, agreement of commits, completeness of leaders and soundness of acknowledgements all fail, and nodes can be made to throw if and only if there are more than two |
| TwoVoters.TwoThrowNot | raft-kv/raft/raft.cpp:1022-1071 | Two voters, exposed or not, never throw out of their logs in a run of that kind (SendWindow.Disciplined), although both may lead one term and their logs need not match |
| TwoVoters.ActionKeeps | raft-kv/raft/raft.cpp:566-656 | Every atomic action keeps, for each leader and the other voter in its term: the logs differ from the lowest allowed probe up to the leader's own entries and nothing acknowledged can be lost, or they agree from there on |
| TwoVoters.TracksAccept | raft-kv/raft/raft_log.cpp:30-60 | An append that the other voter accepts never cuts what it has acknowledged to this leader, and at the lowest probe brings the two logs together |
| TwoVoters.CommitMeansDone | raft-kv/raft/raft.cpp:1361-1372 | A leader of two that commits an entry of its own has been answered by the other, which leads no more in this term and has sent no commit index in it |
| Progress.SendsInWindow | raft-kv/raft/progress.cpp:80-177 | However a follower's progress goes on from a fresh one, without snapshots: next stays at the leader's own entries until something is acknowledged, and goes below them only for a rejection |
| Election.OneWinner | raft-kv/raft/raft.cpp:803-819 | Unless the configuration is exposed one node at most wins a term, even where a node may count pre-votes: one of two voters stands in the other's way with its vote for itself |
| Election.ActionKeepsInv | raft-kv/raft/raft.cpp:258-277 | In every configuration each atomic action keeps: one vote per node and term, tallies of strict candidates made of real votes, office only by a majority; and no vote is ever taken back |
| Refinement.DeliverRefines | raft-kv/raft/raft.cpp:279-504 | Every delivery, whatever the message, is a finite chain of the atomic actions of that one node that the invariants are proved for |
| LogMatching.Matching | raft-kv/raft/raft_log.cpp:62-92 | Logs rooted in the leaders of their terms are equal through any index where their terms agree |
| LogMatching.MergeAgrees | raft-kv/raft/raft_log.cpp:30-60 | After an accepted append the follower agrees with the leader of the term through the last new entry |
| LogMatching.MergeKeeps | raft-kv/raft/unstable.cpp:91-115 | Truncation by an accepted append removes nothing on which the follower already agreed with that leader |
| Completeness.UpToDateHolds | raft-kv/raft/raft_log.h:72-75 | A log at least as up to date as a voter that holds a term's entry through index k holds it too, or k can no longer be committed in that term |
| Completeness.WinnerHolds | raft-kv/raft/raft.cpp:436-474 | The winner of an election holds everything an earlier term may still commit |
| Completeness.CommitsAgree | raft-kv/raft/raft_log.cpp:109-119 | Two committed prefixes, of whatever terms, never contradict each other; committing by count only in the current term is what this rests on |
| Safety.ActionKeepsHistory | raft-kv/raft/raft.cpp:1410-1435 | Every atomic action of a configuration that is not exposed keeps the whole invariant (logs rooted, commits by majority, acknowledgements and votes kept) with a record of the past that only grows |
| Runs.VotesAt | raft-kv/raft/raft.cpp:1374-1379 | The vote invariant holds in every state of every run in every configuration, and votes cast stay cast |
| Runs.HistoryAt | raft-kv/raft/raft.cpp:1022-1071 | The log invariant holds in every state of every run of a configuration that is not exposed |
| Quorum.Intersect | raft-kv/raft/raft.h:68-70 | Two sets of at least half the voters plus one share a voter |
| Quorum.QuorumIsMajority | raft-kv/raft/raft.h:68-70 | A quorum is any set of more than half of the voters |
| Quorum.MajorityIndex | raft-kv/raft/raft.cpp:1361-1372 | There is an index that a majority has reached and that no greater such index exceeds |
| RaftCore.Raft.constructor | raft-kv/raft/raft.cpp:23-119 | A restarted node is a follower with the term, vote and commit index of the hard state over the stored log |
| RaftCore.Raft.Reset | raft-kv/raft/raft.cpp:1374-1404 | A new term forgets the vote, the tally, the transfer, the quota and all progress, and knows only its own log to be matched |
| RaftCore.Raft.BecomeFollower | raft-kv/raft/raft.cpp:125-135 | The view becomes that of a follower of the given leader in the given term |
| RaftCore.Raft.BecomeCandidate | raft-kv/raft/raft.cpp:137-147 | The view becomes that of a candidate of the next term that voted for itself |
| RaftCore.Raft.BecomePreCandidate | raft-kv/raft/raft.cpp:149-162 | Term and vote stay; the tally starts over |
| RaftCore.Raft.BecomeLeader | raft-kv/raft/raft.cpp:164-203 | The leader appends one empty entry of its term, which does not count towards the quota, no configuration change may be proposed until its log is applied, and it replicates to itself and probes everyone else |
| RaftCore.Raft.Poll | raft-kv/raft/raft.cpp:258-277 | The first answer of a voter counts; the result is the number of grants |
| RaftCore.Raft.CampaignElection | raft-kv/raft/raft.cpp:205-256 | A sole voter leads at once; any other sends every voter but itself exactly one vote request with its last index and term |
| RaftCore.Raft.PreCampaign | raft-kv/raft/raft.cpp:205-256 | The same for a pre-election, for the next term and without changing one's own |
| RaftCore.Raft.MaybeCommit | raft-kv/raft/raft.cpp:1361-1372 | The commit index moves to the majority index if and only if that is ahead and of the leader's own term |
| RaftCore.Raft.AppendEntry | raft-kv/raft/raft.cpp:1410-1435 | A proposal within the quota is numbered, appended, counted as the leader's own match and perhaps committed, and moves no other progress; any other changes nothing |
| RaftCore.Raft.IncreaseUncommitted | raft-kv/raft/raft.cpp:1515-1528 | Admits a proposal if the tail is empty or stays within the limit, and counts exactly what is admitted |
| RaftCore.Raft.ReduceUncommitted | raft-kv/raft/raft.cpp:1530-1549 | Takes off the payload of committed entries, down to zero |
| RaftCore.Raft.ScreenProposal | raft-kv/raft/raft.cpp:539-556 | The proposal loop computes the screening that the books are proved about |
| RaftCore.Raft.Propose | raft-kv/raft/raft.cpp:519-563 | A dropped proposal leaves log, messages and progress alone; an accepted one is appended as screened and every other voter that need not wait is sent exactly one message, which its progress records |
| RaftCore.Raft.MaybeSendAppend | raft-kv/raft/raft.cpp:1238-1308 | One message at most: the longest slice of the log from next on that fits, with the right previous index and term, or, exactly if those entries are gone, the snapshot of a committed prefix; the progress records it and no other moves; an empty message is refused only by a follower that must wait, and without empty messages it declines only if paused, caught up or compacted |
| RaftCore.Raft.DrainAppends | raft-kv/raft/raft.cpp:655-656 | The loop ends; its messages carry together exactly the log slice from the old next to the new, as many as window slots were filled; a probed follower gets at most one, one awaiting a snapshot none; it stops only paused, caught up or compacted |
| RaftCore.CarriedIsSlice | raft-kv/raft/raft.cpp:1278-1295 | Appends that follow on each other and are cut from the log carry one slice of it, no entry twice or left out |
| RaftCore.Raft.BcastAppend | raft-kv/raft/raft.cpp:1336-1343 | Every other voter that need not wait is sent exactly one message that a leader may send, and its progress records it; the rest is untouched |
| RaftCore.Raft.BcastHeartbeat | raft-kv/raft/raft.cpp:1310-1324 | Every other voter gets exactly one heartbeat with the smaller of its match and the commit index |
| RaftCore.Raft.HandleAppendEntries | raft-kv/raft/raft.cpp:1022-1062 | Log, commit index and the one answer are those of the specification, for stale, accepted and rejected appends |
| RaftCore.Raft.HandleHeartbeat | raft-kv/raft/raft.cpp:1064-1071 | The commit index follows the heartbeat up, never down, and is answered once |
| RaftCore.Raft.HandleSnapshot | raft-kv/raft/raft.cpp:1073-1095 | Old snapshots are ignored, known ones only commit, others replace the log; the answer carries index 0 each time |
| RaftCore.Raft.Restore | raft-kv/raft/raft.cpp:1097-1144 | True exactly when the snapshot is ahead of the commit index and does not match the log |
| RaftCore.MergeInto | raft-kv/raft/raft_log.cpp:30-60 | maybe_append on the two tiers does to the whole log, compacted part included, what the specification does, and keeps the snapshot a prefix of it |
| RaftCore.Raft.Serve | raft-kv/raft/raft.cpp:642-656 | After an acknowledgement a commit is broadcast or a paused follower told, and then the drain sends its slice of the log in order |
| RaftCore.Raft.PendingConf | raft-kv/raft/raft.cpp:13-21 | Positive exactly if a configuration change is committed and not applied, as long as those entries fit into one read |
| RaftCore.Raft.StepLeader | raft-kv/raft/raft.cpp:506-785 | The view and the messages are those the specification allows, and progress, transfer and books move as LeaderFlow says for each kind of message; it steps down exactly if no majority was heard from |
| RaftCore.Raft.StepAppResp | raft-kv/raft/raft.cpp:609-664 | Match and commit index are those of the specification; a genuine rejection lowers the follower and sends it one message; an old acknowledgement sends nothing; news of a commit goes to everyone, a paused follower is told, then the drain sends all its window lets through, and the leadership is handed over exactly to a transferee that has the whole log |
| RaftCore.Raft.StepHeartbeatResp | raft-kv/raft/raft.cpp:666-676 | One slot of a full window is freed, and one message goes to the follower exactly if it lags and need not wait |
| RaftCore.Raft.StepReport | raft-kv/raft/raft.cpp:704-737 | A report on a snapshot or a lost connection moves exactly that follower's progress and sends nothing |
| RaftCore.Raft.StepTransferLeader | raft-kv/raft/raft.cpp:739-782 | The transferee is recorded, repeated requests and requests to oneself send nothing, and it is told at once exactly if it has the whole log, else sent what it lacks; the view never changes |
| RaftCore.Raft.CheckQuorumActive | raft-kv/raft/raft.cpp:1489-1502 | True exactly when the node and the voters heard from make a majority |
| RaftCore.Raft.CountVote | raft-kv/raft/raft.cpp:803-826 | A majority of grants or of refusals, of either response type, ends the candidacy as the specification says; a new leader sends every other voter exactly one message |
| RaftCore.Raft.StepCandidate | raft-kv/raft/raft.cpp:787-836 | A candidate yields to a leader of its term and counts votes as the specification says |
| RaftCore.Raft.StepFollower | raft-kv/raft/raft.cpp:944-1020 | A follower heeds its leader, forwards a proposal exactly if it knows a leader and may, and starts a forced election on request |
| RaftCore.Raft.StepHup | raft-kv/raft/raft.cpp:386-417 | No election while a committed configuration change is unapplied, and an election at once if there is none; reading the unapplied entries never fails |
| RaftCore.Raft.HandleVote | raft-kv/raft/raft.cpp:418-497 | One vote per term, only for logs at least as up to date; pre-votes change nothing |
| RaftCore.Raft.CompareTerms | raft-kv/raft/raft.cpp:280-383 | Messages of older terms are answered or dropped, of newer terms make a follower unless pre-vote exempts them; a request for votes is ignored exactly if the lease holds |
| RaftCore.Raft.Step | raft-kv/raft/raft.cpp:279-504 | One step of the object is one step of its abstract value, for every message that can reach it, with the lease check decided by the elapsed time, and a leader's flow control follows LeaderFlow |
| Responses.AppendAnswered | raft-kv/raft/raft.cpp:1022-1062 | Every append that is heard, in any role, makes the node a follower of the sender and gets one answer: the commit index below it, the last new index if it follows on, otherwise a rejection with the node's last index; and an accepted one commits the smaller of the leader's commit index and the last new index, no less and no more |
| Responses.AckedIsCommitted | raft-kv/raft/raft_log.cpp:51 | Whoever acknowledges index a at or above its commit index has committed exactly the greater of that and the smaller of the leader's commit index and a |
| Responses.AppendMerged | raft-kv/raft/raft_log.cpp:30-60 | The log is cut at the first new entry it does not hold, and continued with the rest of the append; if it holds all, it stays |
| Responses.HeartbeatAnswered | raft-kv/raft/raft.cpp:1064-1071 | A heartbeat is answered, and raises the commit index to the leader's, or leaves it if that is lower |
| Responses.SnapshotAnswered | raft-kv/raft/raft.cpp:1073-1144 | Old snapshots change nothing, one of what the log has commits it, any other replaces the log |
| Responses.RivalIgnored | raft-kv/raft/raft.cpp:506-608 | A leader takes nothing from another leader of its term |
| Responses.VoteAnswered | raft-kv/raft/raft.cpp:436-497 | In every role, a vote of the node's own term is granted, and recorded, if and only if it has voted for the sender already or has neither vote nor leader, and the sender's last term and index are not below its own |
| Responses.NoSecondThoughts | raft-kv/raft/raft.cpp:436-440 | A node that knows a leader of its term or has voted for another keeps its vote and rejects |
| Responses.LaterVoteAnswered | raft-kv/raft/raft.cpp:283-332 | A vote of a later term makes the node a follower in it, and is granted if and only if the sender's log is not below its own |
| Responses.PreVoteAnswered | raft-kv/raft/raft.cpp:436-497 | A pre-vote changes nothing; it is granted for a later term if the log allows, in the own term if also the vote is open, and otherwise rejected with the node's own term |
| Responses.SilenceMeansLease | raft-kv/raft/raft.cpp:283-301 | A request for a vote can go unanswered if and only if it is of a later term, not forced, and the node checks quorums and knows a leader, or is a vote of an older term |
| Responses.StaleAnswered | raft-kv/raft/raft.cpp:333-383 | From an older term an append or a heartbeat is answered with the newer term where quorums are checked or pre-votes held, a pre-vote is rejected, and the rest ignored |
| Responses.LaterAnswerHeeded | raft-kv/raft/raft.cpp:302-332 | An answer of a later term, except a granted pre-vote, makes the node a follower in it without a leader |
| Responses.UnaskedIgnored | raft-kv/raft/raft.cpp:302-332 | Answers to requests it is not making leave a follower or a leader alone |
| Responses.TimeoutAnswered | raft-kv/raft/raft.cpp:205-256 | Unless a configuration change is in the log, an election timeout makes a sole voter leader with its empty entry committed, a node that pre-votes ask every other voter without changing term or vote, and any other a candidate that asks every other voter |
| Responses.HeirStands | raft-kv/raft/raft.cpp:983-997 | Told to take over, a follower is a candidate at once, pre-vote or not, and its requests are forced; others ignore it |
| Responses.LaterHeirStands | raft-kv/raft/raft.cpp:983-997 | The same from a later term, which it enters first |
| Responses.ElectionLost | raft-kv/raft/raft.cpp:820-824 | The answer that makes the first refusals a majority leaves a follower of the same term without a leader and with an empty tally |
| Responses.ElectionGoesOn | raft-kv/raft/raft.cpp:803-826 | With neither majority only the first answer of the sender is noted |
| Responses.ElectionWon | raft-kv/raft/raft.cpp:811-819 | The answer that makes the grants a majority makes a pre-candidate a candidate of the next term that asks everyone, and a candidate a leader with one empty entry of its own |
| Responses.CommitRule | raft-kv/raft/raft.cpp:1361-1372 | Of the greatest index that more than half of the voters are known to hold: it is committed if it is ahead and its entry of the leader's term, and otherwise nothing is |
| Responses.SomethingIsReached | raft-kv/raft/raft.cpp:1361-1372 | There always is a greatest index that more than half of the voters are known to hold |
| Responses.BeatSent | raft-kv/raft/raft.cpp:1310-1324 | A leader's beat is one heartbeat to every other voter, with the smaller of what it is known to hold and the commit index |
| Responses.QuorumChecked | raft-kv/raft/raft.cpp:513-518 | Checking the quorum changes nothing, or makes a leader a follower of its own term |
| Responses.AckCounted | raft-kv/raft/raft.cpp:609-664 | News from a voter is noted and commits by that rule; rejections and old news change nothing; what is sent is the leader's own log with its own commit index |
| Responses.ProposalTaken | raft-kv/raft/raft.cpp:519-563 | Every entry of a proposal that is taken is at the end of the log in its turn, numbered, in the leader's term, and as proposed or an empty entry in place of a configuration change |
| Responses.LeaderUnmoved | raft-kv/raft/raft.cpp:666-782 | Reports, heartbeat answers and transfers leave a leader's term, log and commit index alone |
| Responses.ProposalElsewhere | raft-kv/raft/raft.cpp:944-958 | A candidate drops a proposal; a follower drops it or passes it on to its leader |
| Pacing.ProposalWeighed | raft-kv/raft/raft.cpp:1515-1528 | A proposal is taken if it fits the quota or nothing is waiting; what is taken is counted, and stays within the quota unless nothing was waiting |
| Pacing.ChangeTaken | raft-kv/raft/raft.cpp:539-556 | In the log of a proposal that is taken, the first configuration change stands as proposed if none may be pending, all others are empty entries, and ordinary entries are untouched |
| Pacing.ChangeRemembered | raft-kv/raft/raft.cpp:539-556 | pending_conf_index_ then points at it, even if the proposal is dropped for its size, and is otherwise left alone |
| Pacing.NoProposalInTransfer | raft-kv/raft/raft.cpp:531-537 | While the leadership is handed over nothing is taken |
| Pacing.ProposalSent | raft-kv/raft/raft.cpp:558-561 | A proposal that is taken goes in one message to every other voter that is not paused and does not need a snapshot unheard |
| Pacing.HeartbeatPaced | raft-kv/raft/raft.cpp:666-676 | A heartbeat answer makes the follower active and unpaused, frees one slot of a full window, and gets it one message if it lacks entries |
| Pacing.RejectionPaced | raft-kv/raft/raft.cpp:609-622 | A rejection that is not out of date lowers next, to match or below the probe, and is answered with a message from there; any other only shows the follower active |
| Pacing.StaleAckPaced | raft-kv/raft/raft.cpp:623-625 | An acknowledgement that is no news sends nothing and moves no more than next |
| Pacing.AckPaced | raft-kv/raft/raft.cpp:623-664 | News moves match, next, mode and window as stated; a new commit index is sent to all in turn, else the follower alone if it was waiting; then it gets all its window takes; and the heir is told when it has the whole log |
| Pacing.ReportPaced | raft-kv/raft/raft.cpp:704-737 | After a snapshot that arrived probing waits behind it, after one that did not behind match; an unreachable follower is probed from match; nothing is sent |
| Pacing.TransferPaced | raft-kv/raft/raft.cpp:739-782 | The heir is told at once if it has the whole log and is caught up if not; the same heir again, or a stranger, changes nothing; the leader itself ends the transfer |
| Pacing.QuorumPaced | raft-kv/raft/raft.cpp:1489-1502 | A leader stays in office if and only if it has heard from more than half of the voters, itself included |
| Pacing.ReignBegins | raft-kv/raft/raft.cpp:164-203 | A new leader probes everyone else right behind the log it stood with, and has heard from nobody |
| Pacing.WaitingMeans | raft-kv/raft/raft.cpp:13-21 | An election is put off for any configuration change that is committed and not applied |
| NodeAction.StepKeeps | raft-kv/raft/raft_log.cpp:186-198 | Apart from installing a snapshot no step lowers the commit index or changes an entry at or below it |
| NodeAction.StepKeepsVote | raft-kv/raft/raft.cpp:418-497 | No step lowers the term, or changes a vote once given in it |
| ReadyLoop.Act | raft-kv/server/raft_node.cpp:397-409 | One server action, whatever the message: the step is one of the specification; afterwards nothing is left to save or apply, the state machine holds exactly what is committed, storage the whole log, the books are in order; and the log file keeps a history whose memory is the node, all but commit indexes synced |
| ReadyLoop.PullReadyEvents | raft-kv/server/raft_node.cpp:96-133 | The Ready loop ends, takes the messages once, writes each Ready before it is dealt with, and leaves nothing to save or apply |
| ReadyLoop.StepOwes | raft-kv/raft/unstable.cpp:91-115 | After any step the volatile tier holds exactly what the log file does not, and it starts behind what was committed |
| NodeAction.HandsOut | raft-kv/raft/node.cpp:125-130 | Taking the payload of a batch off the count keeps it within what is still to be handed out |
| NodeAction.StepGrows | raft-kv/raft/raft.cpp:1022-1062 | Apart from installing a snapshot, whatever a step puts into the log is what the message brought or holds no configuration change |
| RaftCore.ProposalKeepsBooks | raft-kv/raft/raft.cpp:539-563 | A proposal, taken or dropped, keeps the count within what waits and at most one configuration change of the leader's own beyond applied |
| Deliverable.DeliveryCanBeStepped | raft-kv/raft/raft.cpp:1310-1324 | Every message in flight in any run, delivered now, meets what the raft object asks of it |
| Deliverable.DeliveryAgrees | raft-kv/raft/raft.cpp:1097-1144 | A snapshot in flight of an unexposed run is one that the log file may record |
| Deliverable.ActIsDelivery | raft-kv/server/raft_node.cpp:397-409 | A server action of the object is a delivery event of the cluster |
| Deliverable.NothingToSelf | raft-kv/raft/raft.cpp:838-871 | No message in flight in any run is addressed to its sender |
| LogWindow.WindowMerge | raft-kv/raft/raft_log.cpp:30-60 | On a compacted log an accepted append has the effect it has on the uncompacted one |
| LogWindow.WindowConflict | raft-kv/raft/raft_log.cpp:76-92 | Conflict search finds the same index on the compacted as on the uncompacted log |
| LogSpec.ConflictIsFirst | raft-kv/raft/raft_log.cpp:76-92 | The result is 0 if and only if all terms match, and otherwise the least index where they do not |
| LogSpec.AppendAt | raft-kv/raft/raft_log.cpp:62-74 | After an append the new entries stand where they say, those before the first are unchanged, and nothing follows the last |
| LogSpec.OverwriteAt | raft-kv/raft/storage.cpp:104-141 | The same for storage, where entries already compacted are left out |
| LogSpec.CompactedAt | raft-kv/raft/storage.cpp:81-102 | Compaction changes no entry or term from the new base on |
| LogSpec.CursorInRange | raft-kv/raft/ready.cpp:41-50 | The cursor a Ready moves to lies between applied and committed, and the batch is exactly the slice up to it |
| RaftLog.RaftLog.constructor | raft-kv/raft/raft_log.cpp:7-25 | A new log shows what storage holds, with both cursors at the last compaction |
| RaftLog.RaftLog.FirstIndex | raft-kv/raft/raft_log.cpp:240-252 | First index of the joined log |
| RaftLog.RaftLog.LastIndex | raft-kv/raft/raft_log.cpp:254-266 | Last index of the joined log |
| RaftLog.RaftLog.Term | raft-kv/raft/raft_log.cpp:216-238 | The joined log's term at the index, 0 outside it, and never an error |
| RaftLog.RaftLog.IsUpToDate | raft-kv/raft/raft_log.h:72-75 | Whether a log with that last index and term is at least as up to date as the joined log |
| RaftLog.RaftLog.FindConflict | raft-kv/raft/raft_log.cpp:76-92 | The loop finds the conflict of the joined log |
| RaftLog.RaftLog.Slice | raft-kv/raft/raft_log.cpp:153-184 | Error exactly below the first index; otherwise the longest prefix of the slice of the joined log that fits the limit, but at least one entry |
| RaftLog.RaftLog.Entries | raft-kv/raft/raft_log.h:97-102 | The same up to the end of the log; nothing beyond it |
| RaftLog.RaftLog.HasNextEntries | raft-kv/raft/raft_log.cpp:104-107 | True exactly when the next batch is not empty |
| RaftLog.RaftLog.NextEntries | raft-kv/raft/raft_log.cpp:94-102 | The committed entries from applied or the snapshot on, limited in size |
| RaftLog.RaftLog.CommitTo | raft-kv/raft/raft_log.cpp:186-198 | Commit index to the larger of the two, log unchanged |
| RaftLog.RaftLog.MaybeCommit | raft-kv/raft/raft_log.cpp:109-119 | Commits the index exactly if it is ahead and of the term, and says so |
| RaftLog.RaftLog.Append | raft-kv/raft/raft_log.cpp:62-74 | On two tiers what cutting and appending is on the joined log |
| RaftLog.RaftLog.MaybeAppend | raft-kv/raft/raft_log.cpp:30-60 | On two tiers what merging and committing is on the joined log; answers whether and how far |
| RaftLog.RaftLog.Restore | raft-kv/raft/raft_log.cpp:121-127 | The joined log is the snapshot, pending |
| RaftLog.JoinedAppend | raft-kv/raft/unstable.cpp:91-115 | All three cases of truncate_and_append come to one append on the joined log and keep the tiers together |
| RaftLog.SavedIsJoined | raft-kv/raft/storage.cpp:104-141 | Storage that is handed the volatile entries holds the joined log |
| RaftLog.SplitSlice | raft-kv/raft/raft_log.cpp:162-181 | A slice across the tiers is the storage part followed by the volatile part |
| UnstableLog.Unstable.MaybeTerm | raft-kv/raft/unstable.cpp:31-59 | A term for volatile entries and for the pending snapshot, for nothing else |
| UnstableLog.Unstable.StableTo | raft-kv/raft/unstable.cpp:61-77 | Forgets entries up to the index only if the term is still the one handed out |
| UnstableLog.Unstable.TruncateAndAppend | raft-kv/raft/unstable.cpp:91-115 | Entries before the first new one stay, the new ones follow, the tier starts at whichever comes first |
| Storage.MemoryStorage.Term | raft-kv/raft/storage.cpp:49-63 | The stored term, or which of the two errors and when |
| Storage.MemoryStorage.Entries | raft-kv/raft/storage.cpp:20-47 | Error exactly at or below the base; otherwise the size-limited slice |
| Storage.MemoryStorage.Append | raft-kv/raft/storage.cpp:104-141 | The new entries win, what lies before them stays, compacted ones are skipped |
| Storage.MemoryStorage.Compact | raft-kv/raft/storage.cpp:81-102 | Error exactly at or below the base; otherwise the log is cut there and keeps the term |
| Storage.MemoryStorage.CreateSnapshot | raft-kv/raft/storage.cpp:143-170 | Error exactly if not newer; otherwise the snapshot has the log's term at the index |
| Storage.MemoryStorage.ApplySnapshot | raft-kv/raft/storage.cpp:172-190 | Error exactly if not newer; otherwise storage is the snapshot and nothing else |
| Sizes.LimitSize | raft-kv/raft/util.cpp:7-20 | The longest prefix within the limit, at least one entry if there is any |
| Sizes.LimitedIsUnique | raft-kv/raft/util.cpp:7-20 | The limit determines the batch |
| Sizes.LimitedEarly | raft-kv/raft/raft_log.cpp:164-172 | If a first part alone exceeds the limit, limiting it is limiting the whole |
| Packing.SizeIsLength | raft-kv/raft/proto.cpp:97-153 | serialize_size is the number of bytes that msgpack makes of the entry |
| Packing.UintReads | raft-kv/raft/proto.cpp:108-130 | A packed number reads back, whatever follows it |
| Apply.ExactlyOnce | raft-kv/server/raft_node.cpp:302-314 | In every state of every run of log operations and Ready cycles applied <= cursor <= committed, the state machine holds entries 1 to cursor once each and as the log has them, and the next batch leaves no gap |
| Apply.StreamIsContiguous | raft-kv/server/raft_node.cpp:242-300 | Between snapshots the published entries are numbered consecutively from the cursor on, and the state machine grows by exactly them, redelivered ones left out |
| Apply.EventKeeps | raft-kv/raft/raft_log.cpp:143-151 | Every log operation and every Ready cycle keeps that |
| Apply.CursorsStayTogether | raft-kv/raft/node.cpp:164-171 | Where applied_ and the server's cursor start equal they stay equal, so nothing unapplied is compacted |
| Apply.CursorKeepsUp | raft-kv/server/raft_node.cpp:254-292 | The cursor reaches the end of a batch if and only if its last entry unpacks; if it does not, the next batch throws |
| Apply.CursorStops | raft-kv/server/raft_node.cpp:254-292 | After a batch the cursor stands at the last entry that unpacks, or where it was |
| Server.Server.constructor | raft-kv/server/raft_node.cpp:358-369 | The server resumes where the newest snapshot ends, with its data |
| Server.Server.Save | raft-kv/server/raft_node.cpp:105-118 | Storage holds the whole log; a received snapshot is always installed |
| Server.Server.EntriesToApply | raft-kv/server/raft_node.cpp:302-314 | What the batch holds beyond the cursor |
| Server.Server.PublishEntries | raft-kv/server/raft_node.cpp:242-300 | Cursor and state machine after a batch, undecodable entries passed over |
| Server.Server.MaybeTriggerSnapshot | raft-kv/server/raft_node.cpp:316-356 | Neither throw is reached; a snapshot is taken exactly when enough was applied, stands for the state machine, and compacts the catch-up distance behind it |
| Server.Server.Advance | raft-kv/raft/node.cpp:155-185 | The volatile tier is empty, the joined log is the stored one, applied is the cursor of the Ready |
| Server.Server.Cycle | raft-kv/server/raft_node.cpp:98-131 | A Ready cycle is one cycle of the specification: the joined log loses at most its front |
| Progress.InFlights.Add | raft-kv/raft/progress.cpp:23-44 | On the lazily grown ring buffer, append to a bounded queue; every access in range |
| Progress.InFlights.FreeUpTo | raft-kv/raft/progress.cpp:46-74 | Drops the items up to x from the front |
| Progress.InFlights.FreeFirstOne | raft-kv/raft/progress.cpp:76-78 | Drops the items up to the first one |
| Progress.FreeToKeeps | raft-kv/raft/progress.cpp:46-74 | In an ascending window exactly the items beyond x stay |
| Progress.WindowInOrder | raft-kv/raft/progress.cpp:80-177 | In every reachable state of a follower's progress: while replicating match < next and the window ascends strictly between them, otherwise it is empty |
| Progress.ProbeBelowMatch | raft-kv/raft/progress.cpp:166-175 | A rejection takes a probing leader to or below match if and only if it is out of date |
| Progress.HeartbeatKeeps | raft-kv/raft/raft.cpp:667-673 | A heartbeat answer frees exactly one slot of a full window, so that the follower is no longer paused |
| Progress.ReportMeans | raft-kv/raft/raft.cpp:704-727 | A snapshot reported as arrived is probed behind, max(match, pending) + 1, one that failed from match + 1; both wait, with an empty window and nothing pending; in any other mode nothing changes |
| Progress.UnreachableMeans | raft-kv/raft/raft.cpp:728-737 | A follower that was replicated to is probed from match + 1, any other stays as it is |
| Progress.AckedMeans | raft-kv/raft/raft.cpp:623-640 | News ends a probe, and a snapshot that it reaches, and frees exactly the window up to it; next never goes back but to behind match |
| Progress.RejectedMeans | raft-kv/raft/progress.cpp:154-177 | A rejection ahead of match ends replication at match + 1, one of the outstanding probe lowers it to the smaller of the index and the follower's end, at least 1, and all others change nothing |
| Progress.HeartbeatMeans | raft-kv/raft/raft.cpp:666-673 | The follower is active and unpaused, and a full window loses its first item |
| Progress.SentMeans | raft-kv/raft/raft.cpp:1282-1303 | What is sent moves next and fills the window while replicating, pauses a probe, and a snapshot stays pending |
| Progress.PausedMeans | raft-kv/raft/progress.cpp:122-139 | Paused are a probe that is out, a full window and a snapshot on its way |
| Progress.RejectionProgress | raft-kv/raft/progress.cpp:154-177 | A genuine rejection strictly lowers next, but not below the first entry in which the logs may differ |
| Progress.ProbingConverges | raft-kv/raft/progress.cpp:154-177 | At most next - 1 - c probes are turned down when the logs agree through c, even if they grow meanwhile |
| Progress.ProbeAtPrefixIsAccepted | raft-kv/raft/raft.cpp:1022-1060 | The probe right behind the common prefix is accepted unless already committed |
| Progress.Progress.BecomeProbe | raft-kv/raft/progress.cpp:85-97 | The object does what the value does |
| Progress.Progress.MaybeUpdate | raft-kv/raft/progress.cpp:141-152 | Old news changes nothing but next; the answer says which |
| Progress.Progress.MaybeDecreasesTo | raft-kv/raft/progress.cpp:154-177 | Stale rejections are told from genuine ones |
| Progress.Progress.Acked | raft-kv/raft/raft.cpp:623-640 | After an acknowledgement the window invariant holds with the new match |
| Progress.Progress.Sent | raft-kv/raft/raft.cpp:1287-1304 | After a send the window invariant holds with the new next |
| CommitIndex.MajorityMatch | raft-kv/raft/raft.cpp:1361-1372 | Collecting and sorting the match values yields the greatest index a majority has reached |
| CommitIndex.SortedIsMajority | raft-kv/raft/raft.cpp:1369-1370 | The sorted value at size minus quorum is that index |
| CommitIndex.SortSorts | raft-kv/raft/raft.cpp:1369 | Sorting ascends and keeps the number of values that reach any bound |
| Quota.BooksStayOk | raft-kv/raft/raft.cpp:1515-1549 | Through a whole reign uncommitted_size_ never exceeds the payload still to be handed out, and at most one own configuration change is unapplied |
| Quota.ScreenAllowsOne | raft-kv/raft/raft.cpp:539-556 | At most one change of a proposal gets through, none while one may be pending, the others become empty entries, and pending_conf_index_ points at it |
| Quota.ScreenLetsFirstThrough | raft-kv/raft/raft.cpp:539-556 | If none may be pending the first change gets through unchanged at its place, pending_conf_index_ points at it, and all others become empty entries |
| Quota.ScreenKeeps | raft-kv/raft/raft.cpp:539-556 | Ordinary entries are unchanged; while a change may be pending every change becomes an empty entry |
| Quota.AdmitsMeans | raft-kv/raft/raft.cpp:1515-1528 | Anything is admitted to an empty tail, and to any other what keeps the count within the limit |
| Quota.PayloadOfOne | raft-kv/raft/proto.h:68-70 | What counts of an entry is the length of its data |
| Quota.ReducedMeans | raft-kv/raft/raft.cpp:1530-1549 | What is handed out is taken off as far as it was counted |
| WalFormat.LenRoundTrip | raft-kv/wal/wal.h:28-37 | The 3-byte length reads back, cut to 0xFFFFFF |
| WalFormat.RecordLayout | raft-kv/wal/wal.h:16-37 | A record is its kind, three bytes of length and four of checksum, least byte first, and the data |
| WalFormat.WhatIsBelieved | raft-kv/wal/wal.cpp:200-212 | A whole record is read if and only if its checksum is right or zero; otherwise the file is cut before it |
| WalFormat.BlankEnds | raft-kv/wal/wal.cpp:189-191 | Reading ends at a blank header without cutting the file |
| WalFormat.ReadsBack | raft-kv/wal/wal.cpp:165-217 | A record written anywhere reads back, and reading goes on right behind it |
| WalFormat.CutIsNoticed | raft-kv/wal/wal.cpp:177-198 | A record cut off in the middle is noticed at its first byte, whatever part of it is there |
| WalFormat.TornTail | raft-kv/wal/wal.cpp:165-225 | Of a log cut off at any byte, exactly the records wholly there are read, and the file is cut to exactly those |
| WalFormat.WholeIsLargest | raft-kv/wal/wal.cpp:173-217 | No larger number of records fits into the bytes |
| WalFormat.AppendAfterRecovery | raft-kv/wal/wal.cpp:49-70 | What is written after a recovery reads back behind what was recovered |
| Wal.WalFile.Append | raft-kv/wal/wal.cpp:62-70 | The bytes of one record go to the buffer |
| Wal.Wal.Save | raft-kv/wal/wal.cpp:279-308 | Entries before hard state; on disk when entries, term or vote changed |
| Wal.Wal.SaveSnapshot | raft-kv/wal/wal.cpp:315-325 | The mark and everything before it are on disk |
| Wal.Wal.ReadAll | raft-kv/wal/wal.cpp:165-277 | The loop replays exactly the parsed records and leaves the trimmed file; without a snapshot mark it throws |
| Wal.RecordRefused | raft-kv/wal/wal.cpp:227-277 | What makes replay throw: a gap, the start mark with another term, an unknown kind |
| WalReplay.ReplayIsStorage | raft-kv/wal/wal.cpp:235-246 | For every gap-free history of saves, replay yields the log of a storage that was handed the same batches |
| WalReplay.CommitInRange | raft-kv/raft/raft.cpp:1166-1177 | Exact condition of load_state's demand, for every number of surviving records and the snapshot found then: the commit index read back lies between the snapshot and the last entry if and only if no received snapshot is outstanding, its hard state there without its mark or its mark without its file, or some entry record that stands reaches that far |
| WalReplay.RecoversOwnLog | raft-kv/wal/wal.cpp:240-243 | Exact condition, for every number of surviving records and the snapshot found then: the entries read back are the node's own behind the snapshot if and only if the last record of an entry or of a received snapshot is an entry beyond the snapshot or there is none beyond; and if the mark of a received snapshot is there without its file, if and only if exactly that snapshot's entries stand on file |
| WalReplay.StaleEntryComesBack | raft-kv/wal/wal.cpp:240-243 | A history in which entries the node had replaced come back behind one of a later term |
| WalReplay.EntryOutlivesSnapshot | raft-kv/server/raft_node.cpp:107-114 | A history in which an old entry outlives the received snapshot that replaced the whole log |
| WalReplay.CommitWithoutSnapshot | raft-kv/raft/raft.cpp:1166-1177 | A crash between the hard state and the mark of a received snapshot leaves a commit index beyond the log, which load_state refuses |
| WalReplay.OldEntriesTakenForCommitted | raft-kv/server/raft_node.cpp:104-114 | The same crash with a longer old log: nothing throws, and the node comes back with entries for committed that the snapshot does not hold |
| WalReplay.ReadsWhatStands | raft-kv/wal/wal.cpp:235-246 | The entries read back are exactly the entry records beyond the snapshot that no later one beyond it was written at or below |
| WalReplay.CrashRecovery | raft-kv/server/raft_node.cpp:204-240 | From any byte prefix that keeps the mark of the newest snapshot: no throw, the hard state of a moment of the node's life, consecutive entries, a clean file, and a commit index that load_state accepts exactly under the condition of CommitInRange |
| Journal.SaveIsLegal | raft-kv/wal/wal.cpp:279-308 | Because entries go first, every part of a save that survives is a state the node was in |
| Journal.HistoryGrows | raft-kv/wal/wal.cpp:279-325 | A history goes on with every legal run of steps, and the memory with it |
| Journal.SaveReady | raft-kv/server/raft_node.cpp:104-112 | What the log object writes for a Ready, received snapshots included, is the continuation of a history, and its memory is what the node now holds, all but the commit index synced |
| Journal.SaveOwnSnapshot | raft-kv/server/raft_node.cpp:136-157 | The same for the mark of a snapshot of the node's own |
| Journal.StepMaySave | raft-kv/raft/raft.cpp:1022-1062 | After any step that installs no snapshot, the new entries and the new hard state may be saved, and the file then holds the node's log |
| Journal.SnapshotMayInstall | raft-kv/raft/raft.cpp:1097-1144 | After a step that installs a snapshot, that snapshot may be saved |
| Journal.CrashLeavesNode | raft-kv/wal/wal.cpp:279-308 | Whatever part a crash leaves of the bytes beyond those synced, the whole records left have the node's log, term and vote and no greater commit index |
| Journal.ComeBack | raft-kv/server/raft_node.cpp:204-240 | From a whole or torn file that holds the own log of a node of the cluster, the rebuilt objects are that node restarted, an event of the cluster, and stand where the next action may start; the rewritten file keeps its history |
| Glob.StringMatch | raft-kv/server/redis_store.cpp:10-128 | Ends, stays within the pattern and its terminator, answers the declarative match relation on every non-empty string, and matches the empty string with the empty pattern only |
| Glob.MatchClass | raft-kv/server/redis_store.cpp:47-88 | Whether the class holds the character, and where the class ends, escapes, ranges and missing brackets included |
| Glob.MatchStar | raft-kv/server/redis_store.cpp:14-28 | A star is tried on every non-empty rest |
| Glob.OnlyStars | raft-kv/server/redis_store.cpp:117-123 | What is left matches nothing if and only if it is all stars |
| Glob.AnswerIsMeaning | raft-kv/server/redis_store.cpp:12-127 | The answer is the meaning of the pattern if and only if the string is not empty, or the pattern is empty or not just stars |
| Glob.PlainPatterns | raft-kv/server/redis_store.cpp:14-33 | A star takes any part, a question mark any character, an escaped or ordinary character itself |
| Glob.RangePattern | raft-kv/server/redis_store.cpp:47-72 | A range takes what lies between its ends in either order, and with a caret all else |
| Glob.PairPattern | raft-kv/server/redis_store.cpp:47-88 | A class of two characters takes either |
| Glob.OddClasses | raft-kv/server/redis_store.cpp:47-60 | A bracket can be escaped, an empty class takes nothing, an unclosed one ends with the pattern |

## Left out

- Theorems.CommitNeverDecreases: says nothing of restarts, because a commit index that was not synced is lost in one.
- Theorems.NoFatal: covers the throws of the log; the throws of role changes and of sending are excluded by the preconditions that the methods of RaftCore.Raft prove of each other.
- RaftCore.Raft.Step: is about the vote counting as written (not guarded), so together with the cluster theorems it speaks of unguarded clusters that are not exposed; the guard exists in the model of the cluster only.
- RaftCore.Raft.StepFollower: drops MsgTransferLeader and MsgReadIndex instead of passing them on to the leader.
- RaftCore.Raft.StepHup: a configuration change that lies beyond one read of 2^64 - 1 bytes of unapplied entries may be missed, as in the code; the abstract node of NodeSpec does not know what is applied, so there waiting is a choice.
- RaftCore.Raft.constructor: a restart over a log; the bootstrap entries of a first start (raft-kv/raft/node.cpp:25-55) are the initial state of module Cluster.
- Server.Server.PublishEntries: the effect of an entry on the store, and the node's own removal, are not modelled; the store is the list of entries it absorbed.
- Wal.Wal.ReadAll: one segment file, which is all that cut() ever leaves (raft-kv/wal/wal.cpp:310-313); after a throw the state of the file does not matter.
- Journal.ComeBack: the snapshot file is found as WalReplay.Opens says; a file that does not load is not modelled. That the file goes on keeping a history is said for a node that opens the newest mark: after a crash between a mark and its file the next mark may lie below it.
- Conditions.FatalCondition: runs without snapshots; whether two voters that both pre-vote can come to throw once one of them needs a snapshot is left open. Nor is the empty append modelled that a leader sends at an index beyond its own log, after an acknowledgement beyond it, which only exposed configurations have (raft-kv/raft/raft.cpp:1238-1308).
- Server.Server.Cycle: about logs whose configuration changes all unpack; Apply.CursorKeepsUp says what happens to the cursor otherwise.
- ReadyLoop.Act: the same. What the log file keeps is not said after a snapshot that contradicts what the node has committed; Deliverable.DeliveryAgrees excludes it where the configuration is not exposed.
- ReadyLoop.PullReadyEvents: the mark of an own snapshot is written at the end of its cycle, in which nothing else is written.
- Dynamic membership: voters are fixed, learners do not exist, conf_state of a snapshot is the voter set. Configuration changes are entries like others except in Quota, StepHup and publish_entries.
- A snapshot's data stands for the entries whose effects it contains.
- ReadIndex and read states: a heartbeat answer does not carry the request, so reads never complete in a cluster.
- Time: elapsed ticks and random timeouts are choices of the environment; the lease is a parameter of Step.
- Progress objects are proved in module Progress; RaftCore.Raft holds their values in a map, so sharing of one record between maps is not modelled.
- Integer width: indexes, terms and sizes are unbounded; the 32-bit sum of proposal sizes and the 32-bit ring positions do not wrap.
- msgpack and CRC: the codec is a parameter with round trips, the checksum a parameter that fits 32 bits. A corrupted record (as opposed to a torn one) is cut like any unreadable one, but nothing is proved about what corruption a checksum finds.
- Stdio buffering: a synced write is durable.
- A restart before the first Ready was saved, transport, timers, threads, redis sessions, Snapshotter files, WAL names: input and output without a deep property of their own.
- Ready::must_sync and Ready::contains_updates: not used, and true whenever no read state waits.
