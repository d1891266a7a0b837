# Mosaico: a verified model of its concurrent and textual core

Mosaico lets coding agents share channels. This project models the parts of it whose correctness is hardest to see by
reading, and proves what they promise. It is plain Dafny 4.11; `dafny verify dfyconfig.toml` covers the whole project.

- **Presence publication** (`PendingQueue`, `PresenceProtocol`, `PresenceProgress`, `PresenceOrder`, `PresenceReplaced`,
  `PresenceKept`). Submitters, awaited publications, requeues of refused jobs and one background worker share a
  latest-per-pubkey queue, a capacity-one signal and a publication lane. The queue is a mutable class refined by a plain
  list; the protocol is a labelled transition system with one step per lock section or channel operation. No wakeup is
  lost, one publication runs at a time, the queue drains once calls stop, and revisions settle in order exactly when
  they are handed over in order, and then the last job of every pubkey is what stays with the relay. Increasing
  submissions alone do not suffice: `WaitingPublicationOvertaken` is the interleaving that shows it.
- **The agent document** (`Fabric`, `Tree`, `TreeLaws`, `Document`, `Xml`, `DocumentLaws`, `DocumentShape`,
  `DocumentReader`, `DocumentTree`, `DocumentRows`, `DocumentContent`, `DocumentSections`, `Render`, `Status`,
  `StatusLaws`, `Assemble`, `AssembleLaws`). Building the channel forest keeps the newest of every field of every path
  and places every node; the renderer writes text that an independent character-level XML reader takes back to exactly
  its tags, attribute values and text, and in which a decoder of those finds exactly what the view says; the status
  reader recovers the self row exactly when no earlier value runs into a looked-up key; the message selection is the
  longest recent run and does not depend on arrival order.
- **Attachments** (`AttachmentLabels`, `AttachmentStore`, `AttachmentLaws`, `AttachmentRace`, `AttachmentTurns`,
  `AttachmentCollisions`, `AttachmentRaceExample`). Accepted labels lead nowhere but down and never shadow each other;
  directories at growing prefixes of an id belong to one id, serially and under every interleaving and crash, and calls
  of one id that take turns share one directory; the collision error comes under exactly stated conditions, crashes
  included; a copy leaves exactly its files and nothing is ever rewritten.
- **Groups** (`Snapshots`, `SnapshotLaws`, `Groups`, `ChannelRef`, `ChannelRefLaws`). Folding relay events gives each
  group what its latest records say and does not depend on order, repetition or batching; the bounded walk to a root is
  exact; channel paths resolve back to their channel.
- **The stream client** (`Daemon`, `DaemonLaws`, `DaemonSubscription`, `DaemonCalls`). However the byte stream is split,
  the same callbacks run in the same order, each at most once; over every run a call ends with exactly its own frames
  and a subscriber hears exactly its own items and one end.
- **Profiles and nudges** (`DeepMerge`, `Nudge`, `NudgeDetector`, `DetectorLaws`, `DetectorMeaning`). The nested merge
  is characterised at every path, with the exact condition for associativity; draws and offers are spaced over every
  run; a conversation is detected under exactly stated conditions on the messages, a detection depends on no order, and
  further reactions can only retract it.

`Order`, `Chars` and `CharLaws` hold what the standard library supplies, with its laws: string order, stable sorting,
ordered key sets, trimming, splitting and joining.

Where the source loops over mutable state the model is a method or a class proved equal to a specification function, and
the properties are lemmas about that function. `JSON.parse`, URL parsing and public key parsing are function parameters;
times, rolls and relay answers are inputs of the calls that use them.

Two places where the code says less than its surroundings suggest: a label such as `x/.` is accepted although nothing
can be created at it, so copying it fails (`DottedLabelFails`); and two simultaneous calls for one event id may come
back with two directories (`OneIdTwoDirectories`). The second happens exactly for ids with more than one eligible
prefix (`OneDirectoryExactly`), and never to an id whose calls take turns (`TurnsShareOneDirectory`).

## Model

| member | source | states |
|---|---|---|
| PendingQueue.PendingPublishJobs.Push | src/presence_publisher.rs:50-59 | a known pubkey keeps its place and gets the new job, a new one joins at the end; order and jobs stay in step |
| PendingQueue.PendingPublishJobs.DiscardSuperseded | src/presence_publisher.rs:61-71 | removes the pubkey's job when its revision is at most the given one, and nothing else |
| PendingQueue.PendingPublishJobs.PopFront | src/presence_publisher.rs:73-76 | returns the front pubkey's job and removes both, `None` on an empty queue |
| PendingQueue.PendingPublishJobs.Clear | src/presence_publisher.rs:78-81 | the queue is empty |
| PendingQueue.PushRefinesList | src/presence_publisher.rs:50-59 | on the list the queue stands for, a push replaces the pubkey's job in place or appends |
| PendingQueue.DiscardRefinesList | src/presence_publisher.rs:61-71 | on that list, a discard drops exactly the pubkey's jobs of at most that revision |
| PendingQueue.PopRefinesList | src/presence_publisher.rs:73-76 | on that list, a pop takes the head |
| PendingQueue.PopValid | src/presence_publisher.rs:73-76 | the front of a valid queue has a job, and order and jobs empty together |
| PendingQueue.LeavesWithin | src/presence_publisher.rs:43-81 | an undiscarded pubkey at position i leaves within i+1 pops whatever is resubmitted, carrying the last job submitted for it |
| PresenceProtocol.StepKeepsInv | src/presence_publisher.rs:176-268 | every step of submitters, awaited publications, requeues and the worker keeps the queue valid, the lane exclusive and wakeups unlost (that jobs are kept is `PresenceKept.LastJobIsKept`) |
| PresenceProtocol.WakeupsNeverLost | src/presence_publisher.rs:214-268 | in every interleaving a non-empty queue means a signal is pending, the worker is awake, or someone is about to signal |
| PresenceProtocol.OnePublicationAtATime | src/presence_publisher.rs:176-268 | in every interleaving at most one publication is under way |
| PresenceProtocol.RequeueAllKeeps | src/presence_publisher/deferred.rs:70-85 | requeueing parked jobs keeps the queue valid in whatever order they are visited |
| PresenceProgress.StepUsesBudget | src/presence_publisher.rs:247-268 | every step, relay refusals included, except a new call (a requeue too) and the end of the worker, lowers a measure |
| PresenceProgress.InternalRunsEnd | src/presence_publisher.rs:247-268 | so no run of such steps is longer than the measure |
| PresenceProgress.NeverStuck | src/presence_publisher.rs:176-268 | while the worker lives and a job is queued, some step is possible |
| PresenceProgress.QueueDrains | src/presence_publisher.rs:247-268 | once calls stop, a run that can go no further has emptied the queue, and such a run exists |
| PresenceOrder.PublicationsIncreaseExactly | src/presence_publisher.rs:61-71 | settled revisions of every pubkey strictly increase in all interleavings if and only if jobs are taken charge of in increasing order |
| PresenceOrder.DisciplinedCallersStayInOrder | src/presence_publisher.rs:171-206 | callers that hand over increasing revisions, never during a wait of the same pubkey for the lane, see them settle in strictly increasing order |
| PresenceReplaced.ReplacedNeverSettles | src/presence_publisher.rs:189-205 | in every run, whatever settles for its pubkey with a revision of at most r after a `publish_now` of revision r took the lane was handed over then or later: what was queued or parked before never settles, even if r is refused |
| PresenceKept.LastJobIsKept | src/presence_publisher.rs:209-268 | over every run with hand-overs in increasing order and a living worker, the last job handed over for a pubkey is, its deferral count aside, queued, parked, under way or settled |
| PresenceKept.LastJobIsSettled | src/presence_publisher.rs:209-268 | and once nothing is parked and no step is left but new calls, it is the last that settled for that pubkey |
| PresenceKept.EveryCallIsTaken | src/presence_publisher.rs:176-245 | where no step is left but new calls, every job handed in by any caller was taken charge of |
| PresenceOrder.WaitingPublicationOvertaken | src/presence_publisher.rs:176-206 | an interleaving with increasing submissions in which an older revision settles last |
| Tree.Arrange | src/fabric_context/tree.rs:6-48 | the forest built by moving nodes from the map, deepest first, is the one defined by paths; neither `expect` fails; what it holds is `TreeLaws.ArrangeConserves` |
| Tree.Collect | src/fabric_context/tree.rs:50-83 | a nested block is taken apart into the node table, children detached; what a node of the table holds is in `TreeLaws.ArrangeConserves` |
| Tree.Attach | src/fabric_context/tree.rs:17-36 | after the loop each node holds exactly the children that belong to it and only the tops are left |
| Tree.SortChildren | src/fabric_context/tree.rs:85-90 | children are sorted by path at every level, and the sort is stable |
| TreeLaws.ArrangeConserves | src/fabric_context/tree.rs:6-83 | a block stands in the output exactly once, exactly when some input block has its path, its about, members, presence and messages are those of the last input block at that path where they are non-empty (else empty), agent count and last activity those of the last where they are set, omitted the greatest, departures those of the first |
| TreeLaws.ArrangePlaces | src/fabric_context/tree.rs:23-43 | beneath every node stand, in strict path order, only nodes its path is the parent of, and never the root |
| TreeLaws.ArrangeTop | src/fabric_context/tree.rs:37-47 | top-level nodes are those whose parent path no input block has, in strict path order, the root apart |
| TreeLaws.ArrangeIsStable | src/fabric_context/tree.rs:6-48 | rearranging the output returns it unchanged |
| Fabric.ParentIsBeforeLast | src/fabric_context/tree.rs:22-24 | the parent path is what stands before the last '/', and only a path without one has none |
| Order.StrLtExactly | src/fabric_context/tree.rs:43-43 | the order of paths: the first difference decides, and a proper prefix comes first |
| Xml.EscapesByChar | src/agent_xml.rs:70-79 | despite their order, the replacements escape each character on its own |
| Xml.ReadElem | src/agent_xml.rs:22-79 | from any state in content, reading a written element adds exactly its events and closes everything it opened |
| Xml.DocumentReadsBack | src/fabric_context/render.rs:10-27 | reading what is written for a document tree gives exactly its tags, attribute values and text |
| DocumentLaws.DocGood | src/fabric_context/render.rs:10-27 | the document of every view is one well-formed element (sections 2.1, 2.4 and 3.1 of XML 1.0) whose contents read back |
| DocumentLaws.ChannelGood | src/fabric_context/render.rs:109-201 | nested channels with members, presence, departures and messages are well formed to any depth |
| DocumentLaws.MessageGood | src/agent_xml.rs:22-68 | every message element is well formed |
| DocumentSections.DocumentShowsView | src/fabric_context/render.rs:10-235 | for every view, a decoder of the tags, attribute values and text of the document finds in order exactly the self row, hints, hosts, channels, mentions, reactions, warnings and notices of the view |
| DocumentContent.ChannelRead | src/fabric_context/render.rs:109-201 | such a decoder finds each channel with its path, about, counts, every member, presence, departure and message, and its subchannels to any depth |
| DocumentContent.MessageAdds | src/agent_xml.rs:22-68 | such a decoder finds each message with its sender, short id, recipients, age or time, follow-up, and the trimmed body when it has at most 100 words, else its first 100 words and "..." |
| CharLaws.TrimExactly | src/util.rs:128-135 | a text is its trimmed form between two runs of whitespace, and that form has none at either end |
| CharLaws.WordsOfJoin | src/util.rs:128-135 | words joined with single spaces are split into the same words again |
| Fabric.TrimStartDrops | src/agent_xml.rs:26-32 | exactly the leading run of '@' is dropped from a name |
| DocumentShape.TagsIgnoreText | src/fabric_context/render.rs:10-27 | the tags a reader finds depend only on which lists, options and strings are empty, on the times, the member kinds and the unhosted and guide flags, never on what strings say |
| Render.RenderView | src/fabric_context/render.rs:10-27 | the text is the document's, the reader finds exactly that document in it, and the decoder finds exactly the view |
| Render.RenderSelf | src/fabric_context/render.rs:29-56 | appends the self tag and its hint |
| Render.RenderHosts | src/fabric_context/render.rs:57-86 | appends the hosts with their workspaces and agents |
| Render.RenderChannels | src/fabric_context/render.rs:88-107 | appends the channels section when some workspace has one |
| Render.RenderChannel | src/fabric_context/render.rs:109-138 | appends a channel and its descendants |
| Render.RenderMembers | src/fabric_context/render.rs:140-201 | appends members, presence and departures |
| Render.RenderMessages | src/fabric_context/render/activity.rs:3-39 | appends the omitted count and the messages |
| Render.WriteMessage | src/agent_xml.rs:22-52 | appends one message element, its body cut to 100 words; what it says is `DocumentContent.MessageAdds` |
| Render.WriteTime | src/agent_xml.rs:54-68 | appends the age within an hour, else the absolute time |
| Render.RenderImportant | src/fabric_context/render/activity.rs:41-54 | appends the mentions |
| Render.RenderReactions | src/fabric_context/render/activity.rs:56-81 | appends the reactions and the omitted count |
| Render.RenderWarnings | src/fabric_context/render.rs:214-222 | appends the warnings |
| Render.RenderNotices | src/fabric_context/render.rs:224-235 | appends the notices |
| StatusLaws.UnescapeUndoesAttr | integrations/pi/status.ts:44-51 | the five replace-all passes undo the escaping of every string |
| StatusLaws.SearchExact | integrations/pi/status.ts:39-42 | what the key's expression captures in a printed tag: its own value, unless an earlier value ends in the key and '=' |
| StatusLaws.FindExact | integrations/pi/status.ts:39-51 | what a lookup in a printed tag returns, unescaped |
| StatusLaws.StatusOf | integrations/pi/status.ts:15-28 | reading a printed self row always succeeds, with the name in full and every other field as its lookup finds it |
| StatusLaws.StatusReadsBackExactly | integrations/pi/status.ts:15-28 | the row is recovered if and only if no set field's key is overrun by an earlier value (or the overrun happens to spell it) |
| StatusLaws.StatusReadsBack | integrations/pi/status.ts:15-28 | a row none of whose values ends in a looked-up key and '=' is recovered |
| StatusLaws.HostSwallowsTitle | integrations/pi/status.ts:39-42 | a row that is not recovered |
| Assemble.RecentCluster | src/fabric_context/assemble.rs:191-207 | the walk back from the newest event ends where the specification says |
| Assemble.ClusterIsMaximal | src/fabric_context/assemble.rs:191-207 | of more than 30 events the longest suffix in time order with at most 30 rows and no gap over 20 minutes |
| Assemble.MessageRows | src/fabric_context/assemble.rs:139-189 | the rows and the omitted count, with the forced events merged in |
| Assemble.RowsAreSortedOnce | src/fabric_context/assemble.rs:158-167 | rows are in time order without duplicates, every forced id once; the events chosen before the forced ones join, plus the omitted, are the total |
| Assemble.ArrivalOrderIsIrrelevant | src/fabric_context/assemble.rs:139-189 | neither rows nor omitted count depend on the order of events |
| Assemble.ForcedOrderIsIrrelevant | src/fabric_context/assemble.rs:158-187 | nor do the rows depend on the order of forced events with distinct ids |
| AssembleLaws.RowsExactly | src/fabric_context/assemble.rs:139-207 | with the recent events in order: all of them past a cursor or when at most 30, else the longest run of the newest with at most 30 rows and no gap over 20 minutes, the others counted as omitted; forced events join where their id is not shown; rows are in order and each carries its event's fields |
| AttachmentLabels.ValidateLabels | src/attachment_contract.rs:41-55 | reports the first problem in order, and none exactly for acceptable lists |
| AttachmentLabels.ProblemFree | src/attachment_contract.rs:41-55 | acceptable means every label safe and no two, compared without case, equal or nested |
| AttachmentLabels.ValidateLabel | src/attachment_contract.rs:8-39 | an accepted label names a path that does not start with the marker, in any case; which labels are accepted is `LabelsExactly` |
| AttachmentLabels.LabelsExactly | src/attachment_contract.rs:8-39 | which labels are accepted and the first reason against each other one, over characters and '/'-separated pieces: empty, a trailing '/' or an unsafe character, a leading '/' or "." piece or any ".." piece, the marker as first piece in any case |
| AttachmentLabels.AcceptedStaysInside | src/attachment_contract.rs:8-39 | the path of an accepted label consists of its own pieces, none of them empty, ".", ".." or with a '/' |
| AttachmentLabels.OverlapsExactly | src/attachment_contract.rs:87-98 | labels overlap if and only if one path is above or equal to the other, piece by piece, case aside |
| AttachmentLabels.AcceptedPathsApart | src/attachment_contract.rs:87-98 | accepted labels and the marker are pairwise prefix-incomparable, with and without folding case |
| AttachmentLabels.Accepted.TryPush | src/attachment_contract.rs:72-85 | accepts exactly web URLs with safe labels that overlap nothing accepted before |
| AttachmentLabels.GatheredIsValid | src/attachment_contract.rs:57-85 | every list built by pushes passes validation |
| AttachmentStore.Store.WriteNew | src/attachment_receive.rs:171-183 | makes missing parents, creates the file, leaves an existing entry alone, fails behind a file |
| AttachmentStore.Store.EventDirectory | src/attachment_receive.rs:133-161 | returns the first prefix that is free or owned, marking it when new |
| AttachmentStore.Store.ExistingComplete | src/attachment_receive.rs:114-131 | the first owned prefix with every file |
| AttachmentStore.Store.CopyLocal | src/attachment_receive.rs:85-110 | validates, finds the directory and copies each source in order until one fails |
| AttachmentStore.LocatedExists | src/attachment_receive.rs:141-151 | the directory returned exists and carries the id's marker |
| AttachmentLaws.NothingIsRewritten | src/attachment_receive.rs:171-183 | over every later run no file's bytes and no directory change |
| AttachmentLaws.FreshCopyIsExact | src/attachment_receive.rs:85-110 | a copy into a fresh directory succeeds if and only if sources are readable and no label ends in a "." piece, and leaves exactly the marker and each label's bytes |
| AttachmentLaws.DottedLabelFails | src/attachment_receive.rs:171-183 | the label `x/.` is accepted, yet copying a readable source to it fails |
| AttachmentLaws.SameDirectoryForever | src/attachment_receive.rs:133-161 | whatever runs in between, an id gets the same directory again and no other id gets it |
| AttachmentLaws.ExistingIsTheLocated | src/attachment_receive.rs:114-131 | `existing_complete` finds that same directory exactly when all files are in it |
| AttachmentLaws.CopiedIsFound | src/attachment_receive.rs:85-131 | what was copied is found complete, after any further calls |
| AttachmentLaws.CollidesExactly | src/attachment_receive.rs:160-160 | the collision error comes if and only if the whole id names another id's directory and it has none |
| AttachmentLaws.OneLengthNeverCollides | src/attachment_receive.rs:160-160 | one call at a time, with ids of one length it is unreachable |
| AttachmentLaws.MixedLengthsCollide | src/attachment_receive.rs:160-160 | ids of different lengths that collide |
| AttachmentRace.StepKeeps | src/attachment_receive.rs:133-183 | every system call or crash keeps ownership and changes no written marker |
| AttachmentRace.OneOwnerPerDirectory | src/attachment_receive.rs:133-165 | over every interleaving and crash no directory is returned for two ids, and it carries its id from then on |
| AttachmentRace.MarkersAreFinal | src/attachment_receive.rs:163-183 | a written marker never changes and names an id its directory is an eligible prefix of |
| AttachmentRace.CallsEnd | src/attachment_receive.rs:141-160 | a call ends within a bounded number of its own steps, whatever others do |
| AttachmentRace.AloneAsLocated | src/attachment_receive.rs:133-161 | a call nobody interferes with ends as the one-at-a-time model says |
| AttachmentTurns.TurnsShareOneDirectory | src/attachment_receive.rs:133-161 | over every run, crashes included, in which no call of an id begins while another one of it is under way, all calls of the id that come back name one directory |
| AttachmentTurns.OverlapSplits | src/attachment_receive.rs:143-151 | from any reachable state in which one call of an id owns an unmarked directory, another is at the same prefix and a longer prefix is available, some continuation returns two directories |
| AttachmentTurns.OneDirectoryExactly | src/attachment_receive.rs:140-151 | under every schedule an id keeps one directory if and only if it has at most six characters, hence a single eligible prefix |
| AttachmentCollisions.BailsExactly | src/attachment_receive.rs:141-161 | under every schedule, for all ids and crashes at any step, a call that checks a directory fails there with the collision error if and only if it has come to its whole id and the directory of that name is held unmarked by a call under way, was left unmarked by a crashed one, or carries a longer id |
| AttachmentCollisions.FailsExactly | src/attachment_receive.rs:133-161 | with ids of one length and calls of an id in turns, a finished call failed if and only if an earlier call of its id stopped between making the directory named by the whole id and marking it |
| AttachmentRaceExample.OneIdTwoDirectories | src/attachment_receive.rs:143-151 | one such schedule, step by step, where `OneDirectoryExactly` and `TurnsShareOneDirectory` say when calls agree |
| Snapshots.DecodeSnapshots | src/group_snapshot.rs:100-155 | the three maps filled in one pass, read out in id order |
| Snapshots.MapHoldsLatest | src/group_snapshot.rs:157-168 | each key holds the event with the greatest time, lowest id on ties (section "Kinds" of NIP-01) |
| Snapshots.SurvivorsDecodeTheSame | src/group_snapshot.rs:100-168 | decoding any selection that keeps the latest events gives the same snapshots |
| Snapshots.OrderDoesNotMatter | src/group_snapshot.rs:100-168 | order and repetition of events do not matter |
| Snapshots.BatchesDecodeTheSame | src/group_snapshot.rs:100-168 | each batch may be reduced to its survivors first |
| Snapshots.FilterCommutes | src/group_snapshot.rs:117-134 | asking for some groups is decoding all and keeping those |
| SnapshotLaws.DecodedExactly | src/group_snapshot.rs:51-228 | one snapshot, in id order, for each wanted d tag some 39000, 39001 or 39002 event mentions; metadata are the first name and about of the unbeaten 39000 event, admins the parsable subjects of the 39001 event in order with roles, members those of the 39002 event without; a missing kind gives none |
| Groups.RootChannelOf | src/group_projection.rs:58-79 | answers as its situation demands: a root, unknown, the first repeated channel, or too deep |
| Groups.AnswerIsUnique | src/group_projection.rs:58-79 | the four situations exclude each other, so every answer is if and only if |
| Groups.CyclesHaveNoRoot | src/group_projection.rs:65-67 | no start that leads into a cycle, of any length, gets a root or is unknown |
| Groups.FewChannelsAreNeverTooDeep | src/group_projection.rs:76-78 | with at most 15 known channels the depth error is impossible |
| Groups.ParentSharesRoot | src/group_projection.rs:58-79 | a channel and its parent have the same root |
| Groups.MembersAreListed | src/group_projection.rs:107-122 | everyone is listed, as admin whenever the admins have them |
| Groups.NobodyIsListedTwice | src/group_projection.rs:107-122 | no pubkey is listed twice |
| Groups.MembersAreInOrder | src/group_projection.rs:107-122 | admins come first, and within each role pubkeys increase |
| ChannelRef.FullChannelRef | src/channel_ref.rs:11-29 | the path of the root and the names down to the channel, empty where there is none |
| ChannelRefLaws.PathExactly | src/channel_ref.rs:14-28 | there is a path if and only if at most 31 links through named channels end at a root |
| ChannelRefLaws.PathsResolve | src/channel_ref.rs:11-29 | walking the path's names down from its root returns the channel |
| ChannelRefLaws.PathsAreInjective | src/channel_ref.rs:11-29 | no two channels share a path |
| ChannelRefLaws.NameFindsChild | src/group_projection.rs:44-51 | a channel is found by its name under its parent |
| ChannelRefLaws.SplitInvertsPath | src/channel_ref.rs:31-53 | splitting a child's path gives the parent's own path and the child's name |
| Chars.SegmentsRejoin | src/channel_ref.rs:36-36 | the pieces of a path, joined with '/', are the path |
| Daemon.DaemonConnection.Call | integrations/pi/daemon.ts:53-76 | refuses while a request is open, else opens one under the next id |
| Daemon.DaemonConnection.Subscribe | integrations/pi/daemon.ts:82-88 | refuses while a request is open, else subscribes under the next id |
| Daemon.DaemonConnection.Read | integrations/pi/daemon.ts:111-137 | handles the complete lines in order, stopping after one that does not parse |
| Daemon.DaemonConnection.Handle | integrations/pi/daemon.ts:139-163 | one frame against the open subscription or call |
| Daemon.DaemonConnection.Fail | integrations/pi/daemon.ts:165-175 | rejects whatever is open and forgets it |
| DaemonLaws.SplittingIsInvisible | integrations/pi/daemon.ts:111-137 | for every stream, splitting changes neither callbacks nor open requests |
| DaemonLaws.SplittingIsExact | integrations/pi/daemon.ts:111-137 | the unread text too is the same for every splitting if and only if no bad line is followed by a complete line |
| DaemonLaws.CallbacksComeOnce | integrations/pi/daemon.ts:53-175 | over every run each call settles at most once and nothing follows an end |
| DaemonLaws.CallGetsItsFrames | integrations/pi/daemon.ts:149-162 | a call ends with the first of its own frames that closes it; a streamed one with exactly its items in order |
| DaemonLaws.StreamSettlesTheCall | integrations/pi/daemon.ts:111-163 | the same from the bytes of any splitting of a stream of good lines |
| DaemonSubscription.SubscriberHears | integrations/pi/daemon.ts:111-175 | over every run after a subscription the subscriber hears exactly the items of its own frames, in order, up to the first frame that ends it or the failure of the connection, then that end, and nothing more |
| DaemonSubscription.SubscriptionGetsItsFrames | integrations/pi/daemon.ts:82-175 | the same from the opening of a connection: whatever happened before, an accepted subscription starts with nothing heard |
| DaemonSubscription.HandshakeAnswered | integrations/pi/daemon.ts:111-175 | over every run the handshake is answered once, by the first signal: accepted for a frame of protocol 72, refused for another frame or a failure |
| DaemonCalls.CallSettles | integrations/pi/daemon.ts:53-175 | over every run after a call, it settles once with the first of its own frames that closes it, a stream with exactly the items of its own frames before, in order, or with the failure of the connection; until then not at all |
| DaemonCalls.CallIsAnswered | integrations/pi/daemon.ts:53-175 | the same from the opening of a connection: whatever happened before, an accepted call starts unsettled and is settled by its own frames only |
| DeepMerge.DeepMerge | src/harness/codex_profile.rs:143-157 | the loop over the overlay's keys computes the recursive merge |
| DeepMerge.MergedAt | src/harness/codex_profile.rs:143-157 | what is at every path of a merge |
| DeepMerge.LeavesOfAMerge | src/harness/codex_profile.rs:143-157 | overlay leaves win; base leaves survive exactly where the overlay has nothing and no leaf on the way |
| DeepMerge.MergeIdempotent | src/harness/codex_profile.rs:143-157 | merging a value with itself changes nothing |
| DeepMerge.EmptyIsNeutral | src/harness/codex_profile.rs:24-49 | the empty table is neutral on tables on both sides |
| DeepMerge.AssociativeExactly | src/harness/codex_profile.rs:143-157 | grouping does not matter if and only if no path clashes |
| DeepMerge.AssociativeWhenShapesAgree | src/harness/codex_profile.rs:143-157 | in particular when no path is a table in the first and a leaf in the second, or the reverse |
| DeepMerge.GroupingCanMatter | src/harness/codex_profile.rs:143-157 | three profiles whose grouping matters |
| Nudge.ChannelNudgeState.Consider | src/channel_nudge.rs:83-119 | the outcome and new session: not busy, still offered, cooling down, lost or won |
| Nudge.ChannelNudgeState.CurrentOffer | src/channel_nudge.rs:121-131 | drops an expired offer and returns what is left |
| Nudge.ChannelNudgeState.ClearOffer | src/channel_nudge.rs:133-137 | forgets the offer, keeps the draw |
| Nudge.RunsAreSpaced | src/channel_nudge.rs:82-138 | over every run in time order draws of a session are at least 10 s apart, uncleared offers at least 121 s, and asking returns exactly the last uncleared unexpired offer |
| Nudge.ConsiderExactly | src/channel_nudge.rs:82-119 | after every run in time order, which of the five outcomes a caller gets: from its last offer, its last draw, the roll and the number of busy members, a winner being offered this evidence until two minutes later |
| Nudge.WinnersCount | src/channel_nudge.rs:264-271 | of the 64-bit rolls exactly floor((2^64-1)/n^2)+1 win |
| Nudge.SummedChance | src/channel_nudge.rs:264-271 | n agents together win with a chance of at most 1/n + n/2^64 |
| NudgeDetector.DetectRootConversation | src/channel_nudge.rs:140-230 | the loops compute the specified detection |
| DetectorLaws.OrderIsIrrelevant | src/channel_nudge.rs:140-230 | permuting messages, reactions or participants changes nothing |
| DetectorLaws.EvidenceIsBounded | src/channel_nudge.rs:171-229 | 2 <= cohort <= engaged <= audience, busy exactly the cohort's busy members, alternations below the message count |
| DetectorLaws.ReactionsOnlyRetract | src/channel_nudge.rs:184-198 | more reactions never create a detection and retract one exactly when they end the narrow share of fewer than six messages |
| DetectorMeaning.DetectedExactly | src/channel_nudge.rs:140-230 | a conversation is detected if and only if the channel is a root and the substantive messages of live authors, in time order, have two authors with two messages each, enough messages (four where few of the audience take part, else six), three changes of author, and a span of 20 seconds or eight messages; and what is reported of it |

## Left out

- Lane fairness: whoever waits may get the publication lane next, which includes the first-come order of the real lock; `WaitingPublicationOvertaken` keeps to that order.
- Dropping a `publish_now` future while it waits or publishes, and the publish callback itself: it ends with an answer that says whether the job was refused. Its retries, and the `supersedes` lookup only they use, are inside it.
- Jobs with several effects: one may reach the relay in part before it is refused and be published again after a requeue. The log records a job's final settlement only, not its effects one by one.
- The timer and the group stream that trigger requeues (`src/presence_publisher/deferred.rs`): a requeue may begin whenever something is parked.
- Attribute-value normalisation (section 3.3.3 of XML 1.0) and which control characters XML allows: the reader keeps every character as it is. It is otherwise stricter than XML: spaces only inside tags, double quotes only, no literal '>' in text.
- A document without a self row: no claim is made about what the status reader finds in it.
- The reader's display functions and `renderSessionStatus` in `integrations/pi/status.ts`.
- Selection of hosts, members, presence and topology in `src/fabric_context/assemble.rs` and its submodules; only message selection is modelled.
- Attachment downloads, hashing, disk errors and partial writes: a marker is missing, empty or complete. Event ids and labels are ASCII; ids contain no path separators; folding is ASCII.
- `AttachmentStore.Store.CopyLocal`: models one process and files of one event directory as a map of paths; symbolic links and directories removed from outside are not in it.
- Turning a snapshot into a projected group (`src/group_projection.rs:176-211`) and group availability, which has one value.
- The policy checks on channel names (`src/channel_name.rs`): the path laws state the naming conditions they need.
- `Daemon.DaemonConnection.Handle`: callbacks do not call back into the connection, and a line that is the JSON value `null` is not modelled.
- Socket writes, connection set-up and `close` in `integrations/pi/daemon.ts`; an abort is an event of the run.
- TOML parsing, file staging and name validation in `src/harness/codex_profile.rs`.
- `is_substantive_message` and the nudge text in `src/channel_nudge.rs`: whether a message is substantive is part of the message.
- Integer widths: counts and times are unbounded except in the nudge session state, where 64-bit saturation is written out.
