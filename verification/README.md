# Verified models of a set of small Linux programs

The repository consists of small concurrent and systems programs: a shared-memory
dictionary, a shell with pipelines, a process tree, a signal-driven ring buffer, two
sequence-number services, three ways of moving data between processes, and a dictionary
search with a socket relay. This project models them and proves what they keep over every
run, for any number of processes and any schedule.

Every concurrent program is modelled twice. A transition system (`Init`, `Enabled`, `Step`,
`Run` over a list of actions) has program counters and kernel objects as its state, one
atomic operation as its step, and a schedule as its run; a process scheduled while it is
blocked stays where it is. The results are lemmas about all its runs. Beside it stands a
class with the programs' own variables, whose methods are the bodies of the C loops,
changing semaphores, buffers and records in place; each method is proved equal to the
step of the transition system, and its `RunSchedule` to a run.

| files | program |
|---|---|
| Rendezvous, RendezvousResults, RendezvousReturns, SharedRecord | SP_HW12: clients and server of a shared-memory dictionary |
| ArgVector, Pipeline, RunCommand, Tokeniser | SP_HW5/Part2: tokeniser, redirection and recursive pipeline of a shell |
| ProcessForest, ProcessTree, ProcessTreeResults, ProcessTreeLayout, ProcessList | SP_HW4: process tree from a linked list |
| RingSignals, RingResults, RingPending, RingLosses, RingMemory | SP_HW10: ring buffer, signals, shared counters |
| Ranges, SeqQueue, SeqQueueResults, SeqQueueOrder, SeqQueueBlocking, QueueService | SP_HW8/46_2: sequence numbers over one message queue |
| FifoService, FifoResults, FifoOrder, FifoProgress, FifoServer | SP_HW8/44_6: sequence numbers over FIFOs |
| SemTransfer, SemTransferResults, SharedBuffer | SP_HW9/54_1: semaphore-alternated shared buffer |
| FileTransfer, FileTransferResults, FileTransferOrder, FileTransferProgress, FileTransferEnds, FileServer | SP_HW9/52_3: chunked file transfer over message queues |
| TwoPipe, TwoPipeResults, UpperCaser | SP_HW6/44_1: upper-casing through two pipes |
| CStrings, Dictionary, Relay | SP_HW12/lookup5, SP_HW11/part1: binary search and its socket relay |

## What turned out

Several expected properties hold only under a condition; each is proved as an equivalence.

- The dictionary client reads its answer after it has given the mutex back. A run of two
  clients makes one return the other's result; the coded order is an atomic dictionary
  exactly when there is at most one client or every stored text is "XXXX". With the two
  operations exchanged it always is.
- While a client waits, the client's and the server's program counters do not fix semaphore
  1: while the server waits it is 2 if it has written nothing since the client's alert, and 0
  once it has.
- The shell's line 123 replaces the listening child by a program that gets everything behind
  the first "|" as its arguments, so a command line comes out as intended exactly when it has
  at most two stages or its first is empty. With the recursion that the comment at line 111
  intends every legal one does.
- A pipeline that ends in "|" does not even start the stage before it (`StartedMeans`).
- In the process tree a process is inline exactly when it is a first child, provided every
  leaf but the last printed has a name; there is one end of line per leaf exactly when every leaf has a name.
- In the ring buffer no handler finds its message overwritten, in any run, exactly when there is
  a slot for every message or no consumer. A message can go missing in two other ways: no signal
  is merged exactly when there is at most one message or no consumer, and the counters are exact
  between handlers exactly when there is at most one consumer or nothing to send. Altogether,
  whenever everything is over every message has been counted for every consumer exactly when
  there is nothing to count or one message for one consumer, whatever the size of the ring.
- The process tree's recursion ends exactly when the process it starts from is not its own
  ancestor; cycles elsewhere among the records do no harm.
- The message queue service can block for good exactly when there are more clients than
  messages fit or some client's pid is 1. A client with that pid takes requests for its reply,
  and the server takes the replies to it for requests. The numbers are tiled all the same.
- The FIFO server gives up on a well-behaved client exactly when it tries the client's FIFO
  between that client's request and its open, and such a client then waits for good.
- After one semaphore transfer both named semaphores are 0 and stay so; a second transfer blocks.
- The file client's byte count is the length of the file exactly when the file has no NUL byte.
  Some run holds the file server up for good exactly when some file has a NUL byte with at
  least four bytes behind it; with reads as long as can be, exactly when some file has one at a
  multiple i of 2047 bytes and reaches behind the multiple i + 4.
- The two-pipe program works, when pipe reads return whole writes, exactly for input without
  NUL bytes of which no read fills a buffer; whatever pipe reads return, exactly for input
  without NUL bytes of which no read returns two bytes.
- The relay is transparent exactly when no record that a search comes out at has the text
  "XXXX"; on a sorted table without a word twice, exactly when no record has it.

## Model

| member | source | states |
|---|---|---|
| RendezvousResults.MutualExclusion | SP_HW12/lookup6.c:35-51 | in every reachable state semaphore 0 plus the number of lock holders is 1 |
| RendezvousResults.SignalCounter | SP_HW12/shm_server.c:61-79 | semaphore 1 is 1 while the server works, 2 while it waits with a holder alerted and not answered since, and otherwise 0; nonzero only for an awaiting holder, which has its answer when it is back at 0 |
| RendezvousResults.CountersDoNotFixSignal | SP_HW12/lookup6.c:41-47 | two runs with equal program counters of holder and server and different semaphore 1 |
| RendezvousResults.ServerWorksForHolder | SP_HW12/shm_server.c:66-75 | the server is at work only while a holder is between alert and await, and then on that holder's word |
| RendezvousResults.AnswerIsOwn | SP_HW12/lookup6.c:45-51 | past await and until release the record holds the answer to the holder's own word |
| RendezvousResults.AnswerIsStable | SP_HW12/lookup6.c:45-51 | past await and before its release, word and text of the record stay as they are whatever the others do, until that client steps again |
| RendezvousResults.NeverStuck | SP_HW12/lookup6.c:36-51 | with a client inside a call some client or server operation is enabled |
| RendezvousResults.RankDecreases | SP_HW12/shm_server.c:61-79 | each operation of the holder or the server lowers a rank that other clients cannot raise |
| RendezvousResults.GrantedRequestFinishes | SP_HW12/lookup6.c:36-51 | whatever the others do, a holder has released once it and the server have taken Rank operations |
| RendezvousResults.EightOperationsSuffice | SP_HW12/lookup6.c:39-51 | in the coded order eight operations of holder and server suffice from any reachable state |
| RendezvousReturns.GrantedCallReturns | SP_HW12/lookup6.c:36-58 | whatever the others do, a granted call has returned once the client, and the server as long as it works for it, have taken CallRank operations |
| RendezvousReturns.TenOperationsReturn | SP_HW12/lookup6.c:39-58 | in the coded order ten operations suffice from any state behind the grab, and two of the client's own behind the release |
| RendezvousReturns.CallAlone | SP_HW12/lookup6.c:35-58 | a call with nobody else about returns with the text of its word, or with NOTFOUND if there is none or it is "XXXX", and leaves the record free |
| RendezvousResults.StepRefinesAtomic | SP_HW12/lookup6.c:36-58 | every operation is either invisible to an atomic dictionary or its one lookup of the caller's own word, inside the call |
| RendezvousResults.OneLookupPerCall | SP_HW12/lookup6.c:45-58 | a returned call has exactly one atomic lookup, with the right answer, and it is the caller's latest |
| RendezvousResults.LaterCallsLoggedLater | SP_HW12/lookup6.c:36-47 | the atomic order respects real time: a call not yet past its await is logged behind everything already logged |
| RendezvousResults.ReadThenReleaseIsAtomic | SP_HW12/lookup6.c:45-58 | with the copy before the release every returned call has the outcome of its atomic lookup |
| RendezvousResults.ReleaseThenReadOutcome | SP_HW12/lookup6.c:49-58 | as coded, the outcome comes from the answers current at compare and at copy; atomic exactly when those agree with the caller's own, always when none came in between |
| RendezvousResults.StaleRead | SP_HW12/lookup6.c:49-58 | for any two clients a run in which the first returns NOTFOUND for a word that is in the dictionary |
| RendezvousResults.CodedOrderBoundary | SP_HW12/lookup6.c:49-58 | the coded order gives atomic outcomes in every run of these clients if and only if there is at most one of them or every stored text is "XXXX" |
| Rendezvous.StepKeepsInv | SP_HW12/lookup6.c:35-58 | every operation of every process keeps the invariant over mutex, record, history and atomic log |
| SharedRecord.Machine.constructor | SP_HW12/shm_server.c:20-20 | the semaphores start at 1 and 0 |
| SharedRecord.Machine.Semop | SP_HW12/lookup6.c:36-37 | what semop does for a negative, zero and positive operation, and that a blocked one changes nothing |
| SharedRecord.Machine.RunClient | SP_HW12/lookup6.c:35-58 | the client's body in place is the step of the transition system |
| SharedRecord.Machine.RunServer | SP_HW12/shm_server.c:61-80 | the server's loop in place is the step of the transition system |
| SharedRecord.Machine.RunSchedule | SP_HW12/shm_server.c:60-80 | any schedule of the programs is a run of the transition system |
| ArgVector.JoinOfStages | SP_HW5/Part2/pipe_command.c:33-68 | the stages are free of "\|" and joined by it give the argv back |
| ArgVector.StagesOfJoin | SP_HW5/Part2/pipe_command.c:33-68 | any list of stages free of "\|" is recovered from its join |
| ArgVector.StartedMeans | SP_HW5/Part2/pipe_present.c:23-30 | all stages start if and only if none is empty; otherwise those before the first empty one, and one fewer if that is the last |
| ArgVector.CutsLeaveLongestPrefix | SP_HW5/Part2/run_command.c:51-54 | the two cuts leave the longest prefix free of both markers; a ">" survives the first cut if and only if it comes before the first "<" |
| Pipeline.PipePresent | SP_HW5/Part2/pipe_present.c:13-31 | -1 if and only if the first "\|" is first or last or the vector is empty, 0 if and only if there is none, otherwise its position |
| Pipeline.SplitVector | SP_HW5/Part2/pipe_command.c:37-68 | the two copies are the words before and behind the "\|" |
| Pipeline.Connect | SP_HW5/Part2/pipe_command.c:73-122 | pipe, fork, dup2 and close leave one process with the write end on 1 and one with the read end on 0 and nothing else changed |
| Pipeline.PipeAndExec | SP_HW5/Part2/pipe_command.c:15-129 | the recursion over processes and descriptor tables runs what `Launch` says, both as intended and as written |
| Pipeline.LaunchIsWiring | SP_HW5/Part2/pipe_command.c:73-124 | as intended the recursion wires exactly the stages up to the first refused one, and ends once in the -1 code if and only if some stage is empty |
| Pipeline.StagesFormALine | SP_HW5/Part2/pipe_command.c:86-124 | stage i reads pipe i-1 and writes pipe i, the ends keep the original descriptors, and no process has an extra one |
| Pipeline.EachEndHeldOnce | SP_HW5/Part2/pipe_command.c:86-122 | every end of every pipe is held by exactly one process on exactly one descriptor |
| Pipeline.LaunchAsWritten | SP_HW5/Part2/pipe_command.c:123-123 | as written the first stage starts and everything behind the first "\|" becomes one program |
| Pipeline.CodedBoundary | SP_HW5/Part2/pipe_command.c:111-124 | any vector turns into the same processes as written and as intended if and only if it has at most two stages or its first is empty; otherwise the second program gets all the rest |
| RunCommand.Redirect | SP_HW5/Part2/redirect_in.c:25-46 | found, not found and exit(1) each characterised; the vector is cut in place at the first marker and the descriptor replaced, nothing else changed |
| RunCommand.RedirectIn | SP_HW5/Part2/redirect_in.c:18-47 | the words before the first "<" remain and 0 is the named file |
| RunCommand.RedirectOut | SP_HW5/Part2/redirect_out.c:17-45 | the words before the first ">" remain and 1 is the named file |
| RunCommand.RunChild | SP_HW5/Part2/run_command.c:49-57 | when the child exits early, and otherwise what runs on which descriptors and how often a vector is refused |
| RunCommand.CommandLineIsWired | SP_HW5/Part2/run_command.c:49-57 | a whole command line runs as one line of its stages between the "<" file and the ">" file, the latter if and only if ">" comes first |
| Tokeniser.Strtok.Next | SP_HW5/Part2/parse.c:30-56 | strtok's cursor: the next token, and the tokens behind it are still to come |
| Tokeniser.Parse | SP_HW5/Part2/parse.c:13-86 | the vector is the line's tokens; NULL if and only if there are none or no line |
| Tokeniser.SpansAreMaximalRuns | SP_HW5/Part2/parse.c:55-68 | the tokens are maximal runs of non-delimiters, in order and apart |
| Tokeniser.MaximalRunsAreSpans | SP_HW5/Part2/parse.c:55-68 | every maximal run is a token |
| Tokeniser.TokensAreSpans | SP_HW5/Part2/parse.c:45-66 | token k is the text of span k |
| Tokeniser.TokensOfWeave | SP_HW5/Part2/parse.c:13-86 | words without blank, tab and newline, joined by any non-empty strings of these, parse back to the words |
| ProcessForest.TerminationBoundary | SP_HW4/12_2.c:43-61 | with unique pids the calls nest to a bounded depth if and only if p is not its own proper ancestor |
| ProcessForest.RoomShrinks | SP_HW4/12_2.c:61-61 | a child is not its own ancestor either and has fewer descendants, which is what ends the recursion |
| ProcessTreeResults.WalkIsDescendants | SP_HW4/12_2.c:43-64 | exactly the proper descendants of p are visited, each at depth d plus its distance from p less one |
| ProcessTreeResults.WalkVisitsDescendants | SP_HW4/12_2.c:43-64 | a process is printed if and only if p is among its proper ancestors |
| ProcessTreeResults.WalkIsOrdered | SP_HW4/12_2.c:43-64 | nobody is visited twice and siblings come in insertion order |
| ProcessTree.ShowDrawsWalk | SP_HW4/12_2.c:43-70 | from any value of the two flags the program prints the preorder walk, a line ending exactly behind a named leaf |
| ProcessTreeResults.FirstChildFollowsParent | SP_HW4/12_2.c:59-61 | in the walk a process is a first child if and only if the one before it is no leaf |
| ProcessTreeResults.InlineRule | SP_HW4/12_2.c:47-59 | a process is inline if and only if it is a first child or comes behind a nameless leaf |
| ProcessTreeResults.InlineBoundary | SP_HW4/12_2.c:41-68 | inline means first child throughout if and only if every leaf but the last printed has a name |
| ProcessTreeResults.LineBoundary | SP_HW4/12_2.c:65-68 | as many ends of line as named leaves; as many as leaves if and only if all have names |
| ProcessTreeLayout.LinesEndBehindLeaves | SP_HW4/12_2.c:60-68 | on the screen a line ends right behind every leaf with a name and nowhere else |
| ProcessTreeLayout.EveryPlace | SP_HW4/12_2.c:43-64 | whoever is not directly below p hangs under the last process one level up in front of it, and that is its parent |
| ProcessList.PsTree.Insert | SP_HW4/12_2.c:20-38 | the linked list grows by the record at its end, all nodes staying in place |
| ProcessList.PsTree.DfsShow | SP_HW4/12_2.c:43-70 | the rescanning recursion on the heap terminates and leaves output and flags as the function says |
| ProcessList.PsTree.FreeSet | SP_HW4/12_2.c:72-80 | every node is freed once and none is used after it is freed |
| RingResults.SlotContents | SP_HW10/SP_HW10.c:119-121 | a written slot holds the last message that belongs to it, an unwritten one what the memory held at first |
| RingResults.HitCriterion | SP_HW10/SP_HW10.c:35-41 | a handler for v sees a hit if and only if message v+b has not been written, in any interleaving |
| RingResults.SignalsAreConserved | SP_HW10/SP_HW10.c:127-132 | sent = begun + pending + merged and begun = hits + misses + running; m*n are sent in all |
| RingResults.CountersBounded | SP_HW10/SP_HW10.c:37-40 | with lost updates each counter is between 0 and the true number, and 0 only if that is; together at most m*n |
| RingResults.LossRateMeans | SP_HW10/SP_HW10.c:139-141 | the rate is in [0,1], and 0 only if every consumer found every message |
| RingResults.LossRateIsShare | SP_HW10/SP_HW10.c:139-141 | the rate is the share of the m*n messages that cnt has not counted |
| RingResults.MissBoundary | SP_HW10/SP_HW10.c:35-41 | in no run a handler finds its message overwritten if and only if m <= b or there is no consumer |
| RingLosses.MergeBoundary | SP_HW10/SP_HW10.c:127-132 | in no run a signal is merged into a pending one if and only if m <= 1 or there is no consumer |
| RingPending.WaitsForFirst | SP_HW10/SP_HW10.c:123-132 | from nothing pending until the next handler begins, the first message signalled waits and every later one is merged |
| RingPending.PendingStays | SP_HW10/SP_HW10.c:129-129 | the value of a pending signal does not change before it is taken |
| RingPending.NextHandler | SP_HW10/SP_HW10.c:34-35 | the handler that begins next runs for that first message |
| RingPending.FirstIsPending | SP_HW10/SP_HW10.c:123-132 | a consumer none of whose handlers has begun has message 0 waiting, if any |
| RingLosses.RunStaysShort | SP_HW10/SP_HW10.c:37-37 | a counter that has fallen behind the hits never catches up |
| RingLosses.ComesToRest | SP_HW10/SP_HW10.c:114-137 | from every reached state the program can finish sending and handling |
| RingLosses.MissingBoundary | SP_HW10/SP_HW10.c:34-141 | in every run that is over cnt is m*n if and only if m*n = 0 or m = n = 1 |
| RingResults.LostUpdate | SP_HW10/SP_HW10.c:37-37 | a run in which two consumers hit and the counter says one |
| RingResults.CounterBoundary | SP_HW10/SP_HW10.c:34-43 | the counters are exact between handlers in every run if and only if n <= 1 or m = 0 |
| RingSignals.RunKeepsInv | SP_HW10/SP_HW10.c:114-137 | the invariant over slots, signals, handlers and registers survives every run |
| RingMemory.Shared.RunProducer | SP_HW10/SP_HW10.c:115-132 | the producer's loop in place is the step of the transition system |
| RingMemory.Shared.RunHandler | SP_HW10/SP_HW10.c:34-43 | the handler in place, with load and store apart, is the step of the transition system |
| RingMemory.Shared.RunSchedule | SP_HW10/SP_HW10.c:114-137 | any schedule is a run of the transition system |
| Ranges.GrantsCover | SP_HW8/46_2/server.c:31-33 | a number is in some granted range if and only if it lies in [0, current number) |
| Ranges.OrderBoundary | SP_HW8/44_6/fifo_seqnum_server.c:62-69 | the ranges lie in order if and only if no length but the last is negative |
| SeqQueueResults.ReplyBoundary | SP_HW8/46_2/client.c:23-37 | every printed number is the caller's own grant in every run if and only if no client has pid 1, or nothing fits into the queue |
| SeqQueueResults.ServerTakesRequests | SP_HW8/46_2/server.c:26-29 | in every run what the server receives is a request of the waiting client it names, if and only if no client has pid 1 or nothing fits |
| SeqQueueResults.RangesTile | SP_HW8/46_2/server.c:31-33 | without negative lengths the ranges are disjoint, in order and cover [0, seqNum), whoever takes whose message |
| SeqQueueResults.CallsInFlight | SP_HW8/46_2/server.c:25-39 | messages queued plus the request in hand are never more than the waiting clients, and in every run as many if and only if no client has pid 1 or nothing fits |
| SeqQueueOrder.FirstInFirstOut | SP_HW8/46_2/server.c:27-36 | in any run the messages of each type come out of the queue in the order in which they went in, none lost or doubled |
| SeqQueueOrder.TakesMeans | SP_HW8/46_2/client.c:32-37 | who takes a message prints its number, or grants and answers its call |
| SeqQueueOrder.GrantedAsAsked | SP_HW8/46_2/server.c:25-39 | the grants, followed by the requests still queued, are exactly the calls made, in the order in which they were made |
| SeqQueueOrder.CallAsksItsLength | SP_HW8/46_2/client.c:25-25 | a call keeps the length it was made with |
| SeqQueueBlocking.ServerBlockedBoundary | SP_HW8/46_2/server.c:36-38 | some run brings the server's reply before a full queue if and only if there are more clients than capacity and capacity is not 0 |
| SeqQueueBlocking.StuckForever | SP_HW8/46_2/server.c:25-39 | a stop is for good if and only if the queue is full or every client waits already |
| SeqQueueBlocking.LoseAll | SP_HW8/46_2/server.c:27-31 | with a client of pid 1 a run after which every client waits and no message is left |
| SeqQueueBlocking.BlockingRun | SP_HW8/46_2/client.c:28-35 | a run after which server and clients block for good, with more clients than capacity or one of pid 1 |
| SeqQueueBlocking.BlockingBoundary | SP_HW8/46_2/server.c:25-39 | the service can stop, and can stop for good, if and only if there are more clients than messages fit or one has pid 1 |
| QueueService.Service.Msgsnd | SP_HW8/46_2/client.c:28-30 | msgsnd appends if there is room and otherwise changes nothing |
| QueueService.Service.Msgrcv | SP_HW8/46_2/client.c:33-35 | msgrcv takes the first message of its type, the others keeping their order |
| QueueService.Service.RunClient | SP_HW8/46_2/client.c:23-37 | the client's body in place is the step of the transition system |
| QueueService.Service.RunServer | SP_HW8/46_2/server.c:25-39 | the server's loop in place is the step of the transition system |
| QueueService.Service.RunSchedule | SP_HW8/46_2/server.c:25-39 | any schedule is a run of the transition system |
| FifoResults.RangesTile | SP_HW8/44_6/fifo_seqnum_server.c:62-69 | without negative lengths the ranges are disjoint, in order and cover [0, seqNum), however many requests were given up on |
| FifoResults.GrantsGoToReaders | SP_HW8/44_6/fifo_seqnum_client.c:47-68 | a printed number starts the one range granted to that client, of its length; a bad client gets none |
| FifoOrder.FirstComeFirstServed | SP_HW8/44_6/fifo_seqnum_server.c:43-70 | if p has sent its request and q has not, q is ever after decided only if p is, and granted only behind p |
| FifoOrder.FirstComeLowerRange | SP_HW8/44_6/fifo_seqnum_server.c:62-69 | and without negative lengths p's range ends where q's begins or before |
| FifoOrder.ClientsAreAsStarted | SP_HW8/44_6/fifo_seqnum_client.c:47-48 | a client is and asks what it was started as |
| FifoResults.OnlyGrantsConsume | SP_HW8/44_6/fifo_seqnum_server.c:54-69 | in every reached state exactly the clients with a granted fate have a grant, and the number is the sum of the grants: a client given up on or undecided has consumed nothing |
| FifoResults.TryDecides | SP_HW8/44_6/fifo_seqnum_server.c:50-69 | a request is granted the next range if and only if its FIFO has a reader; otherwise nothing is consumed |
| FifoResults.DroppedNeverPrints | SP_HW8/44_6/fifo_seqnum_client.c:58-68 | a client given up on never prints |
| FifoResults.QuietMeansDecided | SP_HW8/44_6/fifo_seqnum_bad_client.c:35-57 | when nothing moves every request has been decided and no client holds the server up |
| FifoProgress.RankDecreases | SP_HW8/44_6/fifo_seqnum_server.c:43-70 | every operation of a client or the server lowers a rank to which a new client adds seven |
| FifoProgress.EveryRunEnds | SP_HW8/44_6/fifo_seqnum_server.c:43-70 | a run has at most seven operations for each client that came |
| FifoProgress.ComesToRest | SP_HW8/44_6/fifo_seqnum_server.c:43-70 | from every state a run without new clients leads to where nothing moves |
| FifoResults.DropBoundary | SP_HW8/44_6/fifo_seqnum_server.c:54-58 | a run gives up on a good client if and only if the server tries it between its request and its open |
| FifoResults.GoodClientCanBeDropped | SP_HW8/44_6/fifo_seqnum_client.c:54-60 | that can happen to a single client |
| FifoServer.Server.RunClient | SP_HW8/44_6/fifo_seqnum_client.c:47-68 | good and bad client in place are the step of the transition system |
| FifoServer.Server.RunServer | SP_HW8/44_6/fifo_seqnum_server.c:43-70 | the server's loop with its early continue is the step of the transition system |
| FifoServer.Server.RunSchedule | SP_HW8/44_6/fifo_seqnum_server.c:43-70 | any schedule is a run of the transition system |
| SemTransferResults.Alternation | SP_HW9/54_1/writer.c:54-67 | at most one side is between its wait and its post; the semaphores add up to 1 if and only if neither is and the reader has not ended |
| SemTransferResults.OutputIsPrefix | SP_HW9/54_1/reader.c:51-65 | the output is always a prefix of the input; at the end all of it, with the number of bytes and of reads that were not empty |
| SemTransferResults.TestSeesOwnCount | SP_HW9/54_1/writer.c:62-66 | the writer's late look at cnt finds its own read's size |
| SemTransferResults.RankDecreases | SP_HW9/54_1/reader.c:51-65 | every operation that is not blocked lowers a rank |
| SemTransferResults.EveryRunEnds | SP_HW9/54_1/writer.c:54-67 | at most 11 operations a byte and 7 for the end, and a run stops only where both are done |
| SemTransferResults.SecondTransferBlocks | SP_HW9/54_1/writer.c:45-51 | after a complete transfer a second one with the same names blocks for good |
| SharedBuffer.Shm.ReadInput | SP_HW9/54_1/writer.c:58-58 | read(2) into the shared buffer: the bytes taken in front, the rest as before |
| SharedBuffer.Shm.RunWriter | SP_HW9/54_1/writer.c:54-67 | the writer's loop in place is the step of the transition system |
| SharedBuffer.Shm.RunReader | SP_HW9/54_1/reader.c:51-65 | the reader's loop in place is the step of the transition system |
| SharedBuffer.Shm.RunSchedule | SP_HW9/54_1/writer.c:54-67 | any schedule is a run of the transition system |
| FileTransferResults.PaddedChunk | SP_HW9/52_3/client.c:73-76 | strlen counts a chunk fully if and only if it is NUL-free; it looks like the marker if and only if it starts with NUL |
| FileTransferResults.ClientResult | SP_HW9/52_3/client.c:68-81 | the count is the file's length if and only if the file is NUL-free, and then the messages were its chunks in order and one marker |
| FileTransferOrder.NextMessages | SP_HW9/52_3/server.c:72-78 | a client's queue holds, in order, the chunks it has not taken yet and the marker, and the chunks are its file in its order |
| FileTransferOrder.CountMeans | SP_HW9/52_3/client.c:68-81 | for any file the count is the bytes in front of the first NUL of each chunk, up to the first chunk that starts with one |
| FileTransferOrder.FirstComeFirstServed | SP_HW9/52_3/server.c:46-50 | if p has asked and q has not, q's request is ever after worked on only when p's is finished |
| FileTransferResults.BufferIsCleared | SP_HW9/52_3/server.c:46-98 | the message buffer is all zero before every request and every read, over any requests and short reads |
| FileTransferProgress.QuietMeansDone | SP_HW9/52_3/server.c:46-98 | nothing moves only when the server is held up by a stopped client whose file has a NUL byte with at least four bytes behind it, or every client whose file opens has finished and the others wait |
| FileTransferProgress.HeldForGood | SP_HW9/52_3/server.c:73-90 | a server that waits for room in a stopped client's queue waits for good |
| FileTransferProgress.HeldBoundary | SP_HW9/52_3/client.c:73-75 | some run over given clients and files holds the server up for good if and only if some file that opens has a NUL byte with at least four bytes behind it |
| FileTransferProgress.WholeReadHeldBoundary | SP_HW9/52_3/server.c:72-78 | with reads that return all they can, some run holds the server up if and only if a file that opens has a NUL byte at 2047*i and is longer than 2047*(i+4) |
| FileTransferEnds.RankDecreases | SP_HW9/52_3/server.c:46-98 | every operation of a client or the server lowers a rank to which a new client adds four a byte of its file and seven |
| FileTransferEnds.EveryRunEnds | SP_HW9/52_3/server.c:46-98 | a run has at most four operations for each byte of the files asked for and seven for each client |
| FileTransferEnds.ComesToRest | SP_HW9/52_3/server.c:46-98 | from every reached state a run without new clients leads to where nothing moves |
| FileTransfer.StepKeepsInv | SP_HW9/52_3/server.c:72-93 | every operation keeps the invariant over chunks sent, queued and counted |
| FileServer.Service.RunClient | SP_HW9/52_3/client.c:63-80 | the client's loop in place is the step of the transition system |
| FileServer.Service.SendData | SP_HW9/52_3/server.c:73-73 | mq_send of the buffer appends if the queue has room and otherwise changes nothing |
| FileServer.Service.RunServer | SP_HW9/52_3/server.c:46-98 | the server's loops over one buffer in place are the step of the transition system |
| FileServer.Service.RunSchedule | SP_HW9/52_3/server.c:46-98 | any schedule is a run of the transition system |
| TwoPipeResults.OutputIsPrefix | SP_HW6/44_1.c:40-59 | for NUL-free input, output followed by all that buffers and pipes hold is the upper case of what was read; so output is a prefix |
| TwoPipeResults.OutputBytes | SP_HW6/44_1.c:93-96 | every byte put out is as far behind 'A' as the input byte is behind 'a' if that is a small letter, and else the input byte itself |
| TwoPipeResults.OverrunNeedsFullBuffer | SP_HW6/44_1.c:92-96 | the child looks behind its buffer only after a read that filled it |
| TwoPipeResults.RankDecreases | SP_HW6/44_1.c:81-107 | every operation lowers a rank, so every run ends |
| TwoPipeResults.FullReadGoesWrong | SP_HW6/44_1.c:93-96 | a run on NUL-free input in which a full buffer makes the child look behind it |
| TwoPipeResults.WholeReadBoundary | SP_HW6/44_1.c:40-59 | when pipe reads return whole writes, every run puts out everything if and only if the input is NUL-free and no read fills a buffer |
| TwoPipeResults.AnyReadBoundary | SP_HW6/44_1.c:40-59 | whatever pipe reads return, every run puts out everything if and only if the input is NUL-free and no read of it can return two bytes |
| UpperCaser.Processes.RunParent | SP_HW6/44_1.c:40-59 | the parent's loop is the step of the transition system |
| UpperCaser.Processes.RunChild | SP_HW6/44_1.c:81-107 | the child's loop, upper-casing in place, is the step of the transition system |
| UpperCaser.Processes.RunSchedule | SP_HW6/44_1.c:40-107 | any schedule is a run of the transition system |
| CStrings.CompareEqual | SP_HW12/lookup5.c:14-16 | comparing equal means the same string |
| CStrings.CompareOpposite | SP_HW12/lookup5.c:14-16 | exchanging the sides changes the sign |
| CStrings.CompareTransitive | SP_HW12/lookup5.c:14-16 | the order is transitive |
| CStrings.CompareIsLexicographic | SP_HW12/lookup5.c:14-16 | a is less than b if and only if they agree up to a place where a ends or has the smaller byte |
| CStrings.StringOf | SP_HW12/lookup5.c:14-16 | what follows the NUL makes no difference |
| CStrings.Strcmp | SP_HW12/lookup5.c:14-16 | the loop has the sign of that order, and the difference of the first bytes in which the buffers differ, or 0 at a common NUL |
| CStrings.Strcpy | SP_HW12/lookup5.c:47-51 | the target holds the string, its NUL, and behind it what it held |
| Dictionary.ScanFinds | SP_HW12/lookup5.c:46-48 | the reference: the first record with the word, or none has it |
| Dictionary.SearchRefinesScan | SP_HW12/lookup5.c:46-55 | on a sorted table binary search finds a matching record if and only if the scan does; the same one if no word is twice |
| Dictionary.FindRecord | SP_HW12/lookup5.c:48-48 | the bsearch loop with dict_cmp on fixed buffers is the search on strings |
| Dictionary.Lookup5.Lookup | SP_HW12/lookup5.c:18-56 | code, record and static table after a call; later calls do not look at their resource |
| Dictionary.LookupMeans | SP_HW12/lookup5.c:46-55 | FOUND if and only if a scan finds the word, with the text of a matching record; on NOTFOUND the record is untouched |
| Relay.Child.Serve | SP_HW11/part1/usock_server.c:69-93 | one request is answered as `Answered` says, whatever the record held before |
| Relay.Child.Dialogue | SP_HW11/part1/usock_server.c:69-95 | on one connection each request gets its own answer |
| Relay.Lookup7 | SP_HW11/part1/lookup7.c:42-58 | the client with the server's child at the other end: code and record after send, lookup and receive |
| Relay.RelayBoundary | SP_HW11/part1/lookup7.c:53-58 | the remote result is the local one if and only if the text found is not "XXXX"; found texts always agree |
| Relay.RelayTransparent | SP_HW11/part1/usock_server.c:69-95 | for any table the relay is transparent for every request if and only if no record that the search for its own word comes out at has the text "XXXX" |
| Relay.RelayTransparentSorted | SP_HW11/part1/usock_server.c:69-95 | on a sorted table without a word twice, if and only if no stored text is "XXXX" |

## Left out

- System-call failures, `perror` and `exit` paths, permissions, usage messages and prompts.
- Signals that end a process, and process exit with its `SEM_UNDO` adjustment in SP_HW12: the runs are those of live processes.
- The dictionary inside SP_HW12's server: Rendezvous takes it as a map from words to texts; the search itself is in Dictionary.
- C allocation: sizes of `malloc`, uninitialised memory. The copied vectors end where pipe_command.c:49 and 68 mean them to; as written the NULL is stored one slot further.
- Widths of integers: counters and sequence numbers do not overflow.
- Memory ordering and torn copies: one load or store of a shared field, one `strcmp` or `strcpy` of a record's string, and the server's search are each one atomic operation.
- Background commands, `wait` and the prompt loop of the shell.
- Indentation columns in `dfs_show` and the reading of /proc; records are compared by pid, parent and name only.
- The message text and the sleep in the ring buffer's producer.
- Reuse of a pid in the FIFO service and the file server: a pid makes one request.
- Capacities of FIFOs and pipes: a write to one is not blocked.
- The lower halves of the conflicted files in SP_HW9/52_3, and a failing `mq_send` there.
- The padding of a reply in SP_HW8/46_2, which a server that takes its own reply reads as a length, is taken to be 0.
- Relay.Child.Dialogue: a `recv` takes a whole record; partial receives, connection set-up and several connections are not part of this model.
- SP_HW11 parts 2 and 3 relay in the same way over other sockets.
- SP_HW1, SP_HW2, SP_HW3, SP_HW5/Part1 and Part3, SP_HW6/44_2.c, SP_HW7, SP_HW8/44_7 and SP_HW9/49_1: single system-call demonstrations or earlier forms of what is modelled.
