# EPBS: a verified model of the batch scheduler

EPBS is a small batch system. A master keeps a 32-slot ring of jobs, a table of hosts and a
counter per job; a monitor thread accepts submits, cancels and queries, a dispatcher books hosts
first in, first out and sends each a submit, a result thread takes the returns, and a worker on
each host turns one submit into one return. This project models the master, the workers and the
messages between them, the byte formats they exchange, and the connection layer under them.

`dafny verify dfyconfig.toml` checks everything.

## What is proved

**The scheduler as a concurrent system** (`JobQueue`, `Machine`, `Invariant`, `Steps`,
`DispatchSteps`, `ResultSteps`, `Exactness`). The state holds the tables, the position of each thread
and a ledger of every submit message ever sent. A step is one critical section, or one unlocked access
to a shared table: the dispatcher reads a host, writes `nodesstat`, writes `pcstat` and sends in four
separate steps, and the result thread frees, loads the counter, stores it one lower, tests and marks in five more.
The steps are the program's own, including the parts that look unintended:

- the monitor tests for a full ring but pushes all the same (libjobq.c:351-356, 370-385);
- fullness does not consider slots whose job still has returns outstanding;
- the free-host count is not reset between passes (libjobq.c:767); the flag `resets` of the state gives the
  dispatcher with the reset put back, and everything is proved of both;
- a job's counter is written after its submits were sent (libjobq.c:797, 802).

`Hosting` and `Queueing` hold what needs no such care: in every run, with no condition on any step, outstanding
submits hold one busy host each, a booking takes only free hosts, and a cancel selects just the busy hosts of its
job; and as long as no push finds the ring full, the queue is first in, first out, and every job of it is popped.

`Invariant.Ok` is the condition each step needs for the rest. Only three kinds of step have one: a push needs a
ring that is not full, a slot with nothing outstanding and a request for at least one host; the end of a counting
pass needs the counted hosts to be free, unless the count is reset in each pass; and a return of the job whose hosts
are being booked may be taken, but its decrement may not begin, before the counter is written.
`Exactness.StepExact` proves that, from a state of the invariant, a step leads to a state of the invariant **if and
only if** its condition holds, for every event. `MainResults` states what follows from the start, for guarded runs
and for all; `Safety`, `Runs` and `Progress` prove the parts.

`Window` drops the last condition and says exactly what early returns do, for every interleaving of loads and
stores: the job is stranded, never to finish, if and only if a decrement for it began inside the window
(`CounterExact`), and a launch gets some host twice if and only if a booking takes back a host its own return
has freed (`MainResults.RunHostsDistinct`).

`Requests` and `Laps` do the same for the push: a job pushed into a slot with room is finished in a fair run if and
only if it asks for at least one host and for no more than there are (`ServedExactly`), and from every lap
without losses some run marks the new job finished while it is still queued (`LapFinishes`). `Hazards` shows
what else happens without the conditions: a job that is never finished in any continuation before its slot is
dispatched again, and a ring that looks empty. `Witnesses` gives for each of these a run from the start, guarded
up to the state the hazard begins in. `Cancels` says exactly what a cancel that arrives stops and that it stays
stopped, `Naming` which hosts a cancel is sent to.

`Fairness` is about endless loss-free runs divided into rounds, in each of which every thread that could take a
step takes one. With no condition but that no push finds the ring full, every queued job is popped, whatever is
pushed and cancelled meanwhile (`RoundsPop`), and without new pushes the system comes to rest (`RoundsSettle`). If
the steps meet their conditions too, every job that fits is finished then (`FairRunsFinish`); where the dispatcher
resets its count, the only condition left in such a run is that no decrement begins inside the dispatch of its job.

`Refinement` and `MasterTables` tie this to the loops: class `Master` keeps the arrays and indices of the
program and its methods are proved against functions of the tables; each loop left alone is a run of small steps.

**Formats** (`Codec`, `Messages`, `Query`, `PipeFraming`, `HostsFile`): what a job looks like at the end
of its way from client to worker, when it arrives unchanged, which messages survive the pipe, and when the
hosts file is read back as written. Each is an if-and-only-if over all inputs.

**Connections** (`Polling`, `Transfer`, `Connections`): descriptor map, accept and destroy lists, readiness,
and the monitor's one-request-one-reply protocol with its reply buffers: at most once over every run,
and done in each turn for what is found readable or writable.

## Where the code and its evident intent differ

- The dispatcher copies a command of up to 255 characters into 32 bytes (libjobq.c:715, 754): a job arrives as
  submitted only if its command has at most 31 (`Codec.DeliveryExact`). What a longer one overwrites is not
  modelled: such a job counts as not delivered.
- Commands and user names are used as format strings (libjobq.c:373-374, 754): `%%` and `%d` never survive.
  Other directives are not modelled and count as not delivered.
- The hosts-file loop needs more than 13 bytes left: a last entry with an empty name is lost when the
  file holds no byte outside its entries and their tags (`HostsFile.ParserInvertsPrinter`).
- The parser takes up to five hosts, but the scheduler's tables, of five entries and indexed from 1, have room for
  four (libhost.c:183-207, libjobq.c:35): the model's masters have at most four.
- `jobnodes[job_id]--` (libjobq.c:645) is not locked: a decrement that loads before the dispatcher's write and stores
  after it undoes the write (`Hazards.LostWriteStrands`).
- A payload longer than 1976 bytes is forwarded in part, and its reader is given the front of it with whatever its
  own buffer held behind (`PipeFraming.ForwardingLimit`).
- `do_destroy_sockets` erases and closes but never clears its list, and nothing in the repository calls it.
- A cancel names a job, but the worker cancels whatever it is running (libjobq.c:193): a cancel that arrives late
  stops another job (`Witnesses.CancelStopsAnother`, `Cancels.CancelDelivery`).

## Model

| member | source | states |
|---|---|---|
| `MainResults.RunStoresRequests` | libjobq.c:361-378 | In every run, with no condition on any step, the jobs stored are those the clients asked for, command, user and host count, in order, followed by the one the monitor has read and not stored yet. |
| `MainResults.RunConserves` | libjobq.c:643-652 | In every guarded run a job's counter equals its busy hosts, and its submits in flight or lost; between dispatches all counters and the free hosts add up to the number of hosts. |
| `MainResults.RunCompletes` | libjobq.c:643-652 | In every guarded run a launch is marked finished at most once, and the slot of a job that fits says FINISHED exactly when as many returns as the client asked for hosts have been processed, cancelled ones included. |
| `MainResults.RunDispatches` | libjobq.c:765-806 | In every guarded run a finished dispatch sent exactly as many submits as the client asked for hosts, with the command the client gave, and an oversize job sent none. |
| `MainResults.RunHostsDistinct` | libjobq.c:790-801 | In every run, with no condition on any step, the submits of a finished dispatch went to different hosts if and only if no booking of the launch took back a host that a return of the same launch had freed. |
| `MainResults.RunWithoutEarlyTakes` | libjobq.c:787-802 | They always do as long as returns of the launch in hand are not taken before its dispatch is over, in every run. |
| `MainResults.RunIsFifo` | libjobq.c:738-760 | In every run in which no push finds the ring full jobs are popped in the order the clients asked for them, at most 31 behind; the slots between hold what was asked for, and the index tests tell empty and full. |
| `MainResults.RunQueuesAndFinds` | libjobq.c:738-801 | In every guarded run INQUEUE means lying between tail and head, and a booking always finds a host. |
| `MainResults.RunCreditsRightly` | libjobq.c:641-646 | In every guarded run the slot named by an outstanding submit still holds the job the client asked for with the launch that sent it, running. |
| `MainResults.RunSelectsAndTakes` | libjobq.c:333-339 | In every run, with no condition on any step, a cancel selects a busy host exactly when it has a submit of the job outstanding or about to be sent, and a booking takes only a free host. |
| `Machine.NextWellFormed` | libjobq.c:228-813 | Every step of the program, guarded or not, keeps indices, slot ids and thread positions in range, and head and tail are the numbers of pushes and pops modulo 32. |
| `Hosting.HostedStep` | libjobq.c:643-644 | Every step of the program, with no condition, keeps the agreement of hosts and messages: outstanding submits hold one busy host each, every busy host is so held or about to be, and a booking is at a free host. |
| `Queueing.QueuedStep` | libjobq.c:370-385 | Every step but a push on a full ring keeps the queue: popped is a prefix of submitted, the window is below 32, queued slots keep what was submitted. |
| `Invariant.InitInv` | epbssrv.c:65-82 | The configured tables satisfy the whole invariant. |
| `Invariant.RingArithmetic` | libjobq.c:352 | The two index tests mean empty and 31 jobs waiting. |
| `Exactness.StepExact` | libjobq.c:637-652 | From a state of the invariant any step leads to one again if and only if its condition holds. |
| `Exactness.BaseExact` | libjobq.c:787-802 | The same for the wider invariant that lets early decrements in: what then needs a condition is the write of the counter. |
| `Exactness.DebtArises` | libjobq.c:645 | A debt arises only when the decrement for the job whose hosts are being booked begins. |
| `Exactness.DispatchExact` | libjobq.c:738-802 | The same for each access of the dispatcher. |
| `Exactness.PushExact` | libjobq.c:370-385 | A push keeps the wider invariant if and only if the ring is not full, nothing is outstanding for the slot and the job asks for a host. |
| `ResultSteps.TakeReturnKeeps` | libjobq.c:643-644 | Taking a return and freeing its host keeps the wider invariant at any moment, also inside the dispatch of the same job. |
| `DispatchSteps.PublishExact` | libjobq.c:802 | Writing the counter keeps the wider invariant if and only if no decrement for the job has begun. |
| `Window.WindowRun` | libjobq.c:787-802 | Inside the window the debt grows by exactly the decrements of the job begun there, under every interleaving of loads and stores. |
| `Window.CounterExact` | libjobq.c:797-802 | The invariant goes on past the write if and only if no decrement of the job began inside the window; otherwise the counter is off by exactly their number, above what is outstanding or, if the last store comes after the write, below zero, and the job never finishes. |
| `Window.DoubledStep` | libjobq.c:790-801 | A launch gets a host twice only by the step that takes back a host its own return has freed. |
| `Window.DoubledRun` | libjobq.c:790-801 | Along every run a launch gets a host twice if and only if such a step happens. |
| `Window.RebookedWhenAlone` | libjobq.c:790-801 | At the start of a turn, left alone, a host freed early is booked again if and only if fewer free hosts lie below it than are still needed. |
| `ResultSteps.LoadKeeps` | libjobq.c:645 | Loading the counter keeps counters and messages in agreement. |
| `ResultSteps.StoreKeeps` | libjobq.c:645 | So does storing it one lower, inside a dispatch as a debt. |
| `ResultSteps.FinishingKeeps` | libjobq.c:646-650 | The finish mark goes to the launch whose last return was processed. |
| `Exactness.RunWellFormed` | libjobq.c:710-813 | Every state of every run, guarded or not, is well formed. |
| `Exactness.RunSafe` | libjobq.c:710-813 | Every guarded run of any length and interleaving keeps the invariant. |
| `Exactness.MasterRunSafe` | epbssrv.c:226-253 | The same from the master's initial state. |
| `Safety.Conservation` | libjobq.c:787-802 | Outside its dispatch a job's counter is the number of hosts booked for it and of its submits in flight or lost, plus one while a freed host is not yet counted. |
| `Safety.ConservationInWindow` | libjobq.c:794-802 | Inside the dispatch the booked hosts are the submits sent and the one about to be sent, less the returns taken, and the counter is minus those counted. |
| `Safety.HostsConserved` | libjobq.c:643-645 | Between dispatches the sum of the counters and the free hosts is the number of hosts. |
| `Safety.FinishOnce` | libjobq.c:646-650 | When the mark is about to be written all returns of the launch have been taken, the slot is still its own, running, and it was never marked before. |
| `Safety.CreditedToItsLaunch` | libjobq.c:641-646 | All open submits that name a slot belong to the launch that the slot holds. |
| `Safety.BookingNeverStarves` | libjobq.c:790-801 | While hosts are still needed the scan finds one, and only a free host is booked, whatever returns interleave. |
| `Safety.CancelPrecise` | libjobq.c:333-339 | At any moment of any run a busy host is selected by a cancel of a job exactly when it has a submit of that job outstanding or about to be sent. |
| `Safety.RingIsQueue` | libjobq.c:738-760 | The ring is a window of at most 31 on an unbounded queue, with its contents in order. |
| `Safety.StatusIsPosition` | libjobq.c:376-384 | A slot is INQUEUE if and only if it lies in the cyclic interval from tail to head. |
| `Runs.StatusEdges` | libjobq.c:646-650 | Slots move only UNKNOW, INQUEUE, RUNNING, FINISHED and back to INQUEUE, and from RUNNING to INQUEUE only when oversize. |
| `Runs.RoomStable` | libjobq.c:900-908 | Room for a push is taken away by no step but a push. |
| `Runs.SplitSubmitSafe` | libjobq.c:900-942 | Testing in one critical section and pushing in another is safe across any steps of the other threads in between. |
| `Runs.FreshPassDecides` | libjobq.c:768-783 | A pass that starts from zero never counts more hosts than are free at its end, under every interleaving, so it needs no condition. |
| `Runs.ResetDecides` | libjobq.c:767 | With the reset put back no pass ever does, so the dispatcher needs no condition at all. |
| `Runs.FlightsAdvance` | libjobq.c:92-193 | A message keeps its host, job and command, and each step moves it as the program does: taken when submitted, cancelled or done when executing, returned once, credited once; nothing else touches it. |
| `Runs.AskedIsSubmitted` | libjobq.c:361-378 | Along every run the jobs stored grow by exactly the requests read, in order and unaltered. |
| `Runs.OneReturnPerSubmit` | libjobq.c:125-137 | In every run, guarded or not, a submit is answered at most once and its return taken at most once, cancelled or not. |
| `Progress.WaitingFrees` | libjobq.c:766-784 | While the dispatcher waits each return frees exactly one host and nothing takes one. |
| `Progress.WaitBound` | libjobq.c:766-784 | In every run, after a wait the free hosts are those at its start and one per return taken. |
| `Progress.WaitEnds` | libjobq.c:768-783 | A pass that begins with enough hosts free ends the wait, whatever interleaves. |
| `Progress.WaitExits` | libjobq.c:766-784 | Once need minus the free hosts returns have been taken, the next full pass ends the wait, whatever else happens. |
| `Progress.WorkLowers` | libjobq.c:738-802 | Every step of work lowers a lexicographic measure of queue, dispatch stage, messages and scan; retry passes are the subject of `Fairness.RoundLowers`. |
| `Fairness.RoundLowers` | libjobq.c:727-812 | In every round in which each thread that could take a step takes one, and no push finds the ring full, a lexicographic measure falls, retry passes, overcounts, early decrements, laps, pushes and cancels included. |
| `Fairness.RoundsPop` | libjobq.c:727-760 | In every endless loss-free run of such rounds, of the program as it is, every queued job is popped, as it was submitted. |
| `Fairness.RoundsSettle` | libjobq.c:727-812 | Every such run without further pushes comes to rest. |
| `Fairness.RoundExists` | libjobq.c:727-812 | Such a round exists from every state without losses outside a sweep, one even that leads to rest at once. |
| `Fairness.FairRunsFinish` | libjobq.c:637-652 | In every such run without further pushes whose steps meet their conditions all jobs that fit are finished and every host is free; with the reset put back the only condition left is on early decrements. |
| `Progress.Drains` | libjobq.c:727-812 | From every state of such a run without losses, outside a sweep, the threads can by themselves bring the system to rest, with every condition met on the way. |
| `Progress.AtRest` | libjobq.c:643-652 | At rest exactly the jobs that fit are finished, every host is free and every counter zero. |
| `Hazards.StrandedForever` | libjobq.c:645-646 | A job whose counter cannot reach zero by its outstanding returns is never marked finished until its slot is dispatched again, in any run. |
| `Hazards.StrandedNeverFinishes` | libjobq.c:645-646 | The same for all continuations at once. |
| `Hazards.DebtStrands` | libjobq.c:802 | Writing the counter strands its job, for all continuations, if and only if decrements for it began before. |
| `Hazards.OvercountStrands` | libjobq.c:766-783 | Booking after a pass leaves counter and messages equal if and only if enough hosts are really free; otherwise the job never finishes in any continuation. |
| `Hazards.EarlyReturnStrands` | libjobq.c:797-802 | A return taken and counted just before the counter is written: its job never finishes in any continuation. |
| `Hazards.LostWriteStrands` | libjobq.c:645 | A decrement that loads just before the write and stores just after it leaves the counter at -1: its job never finishes in any continuation. |
| `Hazards.FullPushEmpties` | libjobq.c:351-385 | A push makes the ring look empty, with 32 jobs waiting, if and only if it was full. |
| `Laps.LapMisdirects` | libjobq.c:370-385 | Without losses, a return still to come belongs to the job that had the reused slot before if and only if the slot's counter or the result thread shows a lap. |
| `Laps.LapFinishes` | libjobq.c:370-385 | From every lap without losses some run marks the new job finished while it is still queued. |
| `Hazards.LapFinishesQueuedJob` | libjobq.c:370-385 | Reusing a slot whose last return is on its way marks the new job finished while it is queued. |
| `Hazards.EmptyRequestStrands` | libjobq.c:788-802 | A request for no hosts, pushed on an idle system, is dispatched to nobody and stranded. |
| `Requests.EmptyRequestNeverFinishes` | libjobq.c:361-385 | From every state with room, in every run and with no condition on any step, a request for no hosts is not finished before its slot is used again. |
| `Requests.DoomedStep` | libjobq.c:765-802 | No step but a push on the same slot helps such a request. |
| `Requests.ServedExactly` | libjobq.c:765-806 | A job pushed into a slot with room is finished in an endless loss-free run of rounds without further pushes if and only if it asks for at least one host and no more than there are, where a request for some needs the steps' conditions. |
| `Witnesses.OvercountReached` | libjobq.c:766-783 | A guarded run from the start on two hosts reaches the overcount. |
| `Witnesses.EarlyReturnReached` | libjobq.c:797-802 | A guarded run from the start reaches a return waiting while its counter is still unwritten. |
| `Witnesses.FullPushReached` | libjobq.c:351-356 | A guarded run from the start reaches a push on the full ring. |
| `Witnesses.LapReached` | libjobq.c:370-385 | A guarded run from the start reaches a push on a slot whose return is still on its way. |
| `Witnesses.EmptyRequestReached` | libjobq.c:361-385 | A guarded run from the start reaches the push of a request for no hosts. |
| `Witnesses.RebookReached` | libjobq.c:790-801 | A guarded run from the start reaches the second booking of one host for one launch. |
| `Witnesses.CancelStopsAnother` | libjobq.c:186-193 | A guarded run from the start in which a cancel for job 0 stops job 1. |
| `Cancels.HitsItsJob` | libjobq.c:186-193 | A cancel that hits stops a submit of the job it names if and only if that job is the last its host was given. |
| `Cancels.HitStops` | libjobq.c:186-193 | A cancel that hits stops the submit executing on its host and touches no other. |
| `Cancels.StoppedStays` | libjobq.c:118-137 | In every run a stopped submit never executes again, and is stopped until its worker is done with it and no longer. |
| `Cancels.StoppedByHit` | libjobq.c:186-193 | In every run a submit is found stopped only if a cancel has hit it. |
| `Cancels.OneHitPerCancel` | libjobq.c:178-193 | In every run a cancel stops at most one submit. |
| `Cancels.CancelDelivery` | libjobq.c:186-193 | In every run, a cancel sent while its host held a submit leaves that submit stopped if and only if it is still executing at delivery; otherwise that one has returned, and the one left stopped was sent after the cancel. |
| `Cancels.VacantDelivery` | libjobq.c:333-339 | In every run, a cancel sent to a host that held no submit, free or about to be sent one, can only stop a submit sent after it. |
| `Cancels.CancelStopsItsJob` | libjobq.c:333-339 | In every run, wherever it was sent, what a cancel leaves stopped is a submit of its job if and only if the host has not been given another by then. |
| `Naming.RunSendsToLastGiven` | libjobq.c:333-339 | In every run a cancel is sent to a host, free or busy, if and only if the job it names is that of the last submit sent to the host or of the one about to be sent. |
| `BookingOrder.UninterruptedBooking` | libjobq.c:790-802 | Left alone, the search that restarts at host 1 books the first free hosts in increasing order, one submit each, then writes the counter. |
| `BookingOrder.FreeListSorted` | libjobq.c:791-793 | The order of the scan is increasing. |
| `BookingOrder.FreeListIsFree` | libjobq.c:768-771 | The list of the scan holds exactly the free hosts, once each. |
| `BookingOrder.PassIsRun` | libjobq.c:768-771 | An uninterrupted counting pass adds the number of free hosts to the count. |
| `Refinement.LaunchIsRun` | libjobq.c:788-802 | An uninterrupted booking has the effect of `Master.Launch` on the tables and sends one submit to each booked host. |
| `Refinement.ReturnIsRun` | libjobq.c:643-652 | Uninterrupted handling of a return has the effect of `Master.Return`. |
| `Refinement.CancelIsRun` | libjobq.c:330-341 | The locked sweep sends exactly the cancels `Master.Cancel` lists. |
| `MasterTables.Master.constructor` | epbssrv.c:74-80 | The two start-up loops produce the initial tables of the machine. |
| `MasterTables.Master.Push` | libjobq.c:370-385 | The stored slot, its id and the advanced head are those of the machine's push. |
| `MasterTables.Master.Pop` | libjobq.c:738-760 | Nothing on an empty ring; otherwise the slot at tail, marked running, and the advanced tail. |
| `MasterTables.Master.CountPass` | libjobq.c:768-771 | The loop adds the number of free hosts to the running count. |
| `MasterTables.Master.Book` | libjobq.c:790-801 | The nested loop books the first free hosts, or all of them, and gives each to the job. |
| `MasterTables.Master.Launch` | libjobq.c:788-802 | Booking and the write of the counter. |
| `MasterTables.Master.Return` | libjobq.c:643-652 | A finished result frees the host, lowers the counter and marks the job at zero; any other result changes nothing. |
| `MasterTables.Master.Cancel` | libjobq.c:333-340 | The hosts a cancel is sent to, in order. |
| `MasterTables.Master.Query` | libjobq.c:407-413 | The status of the first slot with the id, or UNKNOW. |
| `MasterTables.Master.QueryAll` | libjobq.c:427-430 | The status of every slot, by index. |
| `MasterTables.LaunchTakesLowest` | libjobq.c:790-801 | A launch takes the lowest-numbered free hosts, as many as asked for or all there are, and touches no other. |
| `MasterTables.SelectedExactly` | libjobq.c:333-340 | A cancel goes to each host whose last job is the one named and to no other, in increasing order. |
| `Codec.GetPut` | libjobq.c:841-845 | A 32-bit word written is read back, negative ones included. |
| `Codec.WordOfWith` | libjobq.c:415-419 | Writing one word of a message changes that word only. |
| `Codec.StringExact` | libjobq.c:101-102 | The string read at a place is the text up to the first NUL there, and there is none exactly when no NUL follows. |
| `Codec.DecimalReadBack` | libjobq.c:754 | What `%d` prints of a number, negative ones included, stands for that number. |
| `Codec.FormatEscaped` | libjobq.c:373-374 | A text with every percent sign doubled comes through a format string as it was. |
| `Codec.FormatArgument` | libjobq.c:754 | The argument appears where `%d` stands, between texts that come through as they were. |
| `Codec.FormatChanges` | libjobq.c:373-374 | Neither one nor two copies through a format string leave a text with a percent sign as it was; directives other than `%%` and `%d` are lost by definition. |
| `Codec.SubmitReadBack` | libjobq.c:361-366 | The monitor reads back sender, host count, command and user name as the client wrote them, whatever follows in its buffer. |
| `Codec.LaunchReadBack` | libjobq.c:97-102 | The worker reads back the job id and the command as the master wrote them. |
| `Codec.DeliveryExact` | libjobq.c:753-755 | From client to worker a job arrives as submitted if and only if neither string has a percent sign, the command at most 31 characters and the user name at most 31, where an overflow or an unknown directive counts as not arriving. |
| `Codec.ShortReadBack` | libjobq.c:638-642 | Cancels and returns name their sender and job to the reader. |
| `Messages.EncodeSubmit` | epbscli.c:732-753 | The client's in-place writes produce the submit message. |
| `Messages.EncodeLaunch` | libjobq.c:826-846 | The master's in-place writes produce the launch message; the sixth word is arbitrary. |
| `Messages.EncodeReturn` | libjobq.c:128-134 | The worker's writes produce the return message. |
| `Messages.EncodeCancel` | libjobq.c:870-879 | The master's writes produce the cancel message; the result word is arbitrary. |
| `Messages.DecodeSubmit` | libjobq.c:361-366 | The monitor's reads, with the user name behind the announced length of the command. |
| `Messages.DecodeLaunch` | libjobq.c:97-102 | The worker's reads, with the command cut in place at its announced length. |
| `Messages.ReadString` | libjobq.c:101-102 | The scan for the end of a string finds the text before the next NUL. |
| `Query.AnswerOne` | libjobq.c:404-419 | The single reply is the head and the word of the searched status, which `OneReadBack` reads. |
| `Query.AnswerAll` | libjobq.c:424-443 | The bulk reply is the head and the word of every slot's status, which `AllReadBack` reads. |
| `Query.OneReadBack` | epbscli.c:276-285 | The client accepts the reply to its own id and reads 1, 2, 3 or 4 if and only if the status found is INQUEUE, RUNNING, FINISHED or UNKNOW. |
| `Query.AllReadBack` | epbscli.c:287-293 | The client's word for each slot is 1, 2, 3 or 4 if and only if that slot is INQUEUE, RUNNING, FINISHED or UNKNOW. |
| `Query.HeadReadBack` | libjobq.c:415-419 | The head of a reply gives kind, answering machine, client, id and status word in its five words. |
| `Query.ReturnTells` | libjobq.c:128-134 | The result thread reads kind 6, host, job and result 3 from a worker's return, the word for FINISHED. |
| `Query.CancelTells` | libjobq.c:870-879 | Whoever reads a cancel finds kind 5, the master and the job. |
| `Query.ScanIsIndex` | libjobq.c:407-413 | In every run, guarded or not, the linear search equals direct indexing. |
| `Query.QueryAgrees` | libjobq.c:402-443 | In a state of the invariant the single reply and the word of the bulk reply agree for every id below 32 and read 1, 2, 3 or 4 exactly as the slot is INQUEUE, RUNNING, FINISHED or UNKNOW; larger ids read 4. |
| `Query.SubmitReplyReadBack` | epbscli.c:831-835 | The submitter reads kind 4, the master, itself and the id of the slot its job went to; the fourth word is arbitrary. |
| `Query.AnswerSubmit` | libjobq.c:370-391 | The monitor stores the job and its reply names the slot it went to. |
| `HostsFile.ParserInvertsPrinter` | libhost.c:189-207 | Scanning a printed list returns its names in order if and only if the last name, or some text outside the entries, is not empty. |
| `HostsFile.ScanBound` | libhost.c:192-205 | Every entry costs at least 13 of the budget, so the loop ends. |
| `HostsFile.StrStr` | libhost.c:193-196 | The search finds the first occurrence or none. |
| `HostsFile.ScanInto` | libhost.c:189-207 | The loop fills both arrays with the scanned names from index 1 and counts them, exactly when every entry fits. |
| `HostsFile.ReadHosts` | libhost.c:189-207 | The same with the tags and constants of the program. |
| `PipeFraming.FramingExact` | libmsg.c:345-376 | Receivers recover every payload in order with nothing left if and only if their (machine, length) sequence is the senders' (destination, length) sequence, whatever their buffers held. |
| `PipeFraming.ReceiveFrame` | libmsg.c:351-375 | A frame at the front of the pipe is received exactly by its addressee with its length, and exactly that frame is consumed. |
| `PipeFraming.WaitsOnEmpty` | libmsg.c:351 | A receiver waits if and only if the pipe is empty. |
| `PipeFraming.ForwardingLimit` | epbssrv.c:136-142 | A message is recovered if and only if it fits the forwarding buffer or the reader's own buffer happens to hold the missing end; of a longer one exactly the front is delivered. |
| `PipeFraming.Pipe.Send` | libmsg.c:324-331 | Header and payload writes, and the forwarded bytes appended to the pipe. |
| `PipeFraming.Pipe.Recv` | libmsg.c:345-376 | A receive waits exactly on an empty pipe; otherwise it consumes what the pipe has, up to header and payload, and delivers it over what the buffer held, or exits on a mismatch. |
| `Polling.ReadyFrom` | etransfer/eTransfer.cpp:294-340 | Every result comes from a watched entry, keeps its pointer and carries one bit the entry asked for, or the error bit. |
| `Polling.ReadyDistinct` | etransfer/eTransfer.cpp:294-340 | No socket is reported twice if none is watched twice with more than one event. |
| `Polling.ReadyHappened` | etransfer/eTransfer.cpp:294-340 | What is reported has happened: a read result is readable, or a connection is waiting if it is the listener's, a write result writable, neither in error; an error result is. |
| `Polling.ReadyComplete` | etransfer/eTransfer.cpp:294-340 | Of a watched socket an error is reported, and without one every event asked for that has happened: readable, writable, or a connection waiting for the listener. |
| `Polling.SelectedIsFirst` | etransfer/eTransfer.cpp:250-292 | What select returns is the result of the first look that finds something. |
| `Polling.SelectedIsOneLook` | etransfer/eTransfer.cpp:250-292 | What select returns is the result of one single look, and empty only if all looks are. |
| `Transfer.UTcpSocket.Bind` | etransfer/utcp_socket.cpp:32-43 | The descriptor is stored; the address only if the descriptor could be made non-blocking, and otherwise the error is returned. |
| `Transfer.UTcpSocket.Close` | etransfer/utcp_socket.cpp:117-128 | An open descriptor is given back once; a second close changes nothing. |
| `Transfer.UTcpSocket.Recv` | etransfer/utcp_socket.cpp:77-97 | The result, the status and the reason kept after data, end, would-block and failure. |
| `Transfer.ETransfer.constructor` | etransfer/eTransfer.cpp:21-27 | The empty transfer object satisfies the descriptor-map invariant. |
| `Transfer.ETransfer.ListenReady` | etransfer/eTransfer.cpp:152-168 | A new connection enters the map under its descriptor and the accept list at its end. |
| `Transfer.ETransfer.Accept` | etransfer/eTransfer.cpp:118-151 | Connections are handed out in order of arrival, each once, connected and still in the map. |
| `Transfer.ETransfer.DestroySocket` | etransfer/eTransfer.cpp:28-40 | The socket is marked closed and listed, and the map invariant stays. |
| `Transfer.ETransfer.DoDestroySockets` | etransfer/eTransfer.cpp:42-66 | Exactly the descriptors of listed sockets leave the map and go back to the system, and no other socket changes. |
| `Transfer.ETransfer.DestroyAgain` | etransfer/eTransfer.cpp:42-66 | Running it again with the uncleared list changes nothing and never evicts a newer socket that got a closed descriptor. |
| `Transfer.ETransfer.HasAvailable` | etransfer/eTransfer.cpp:294-340 | The loop computes the ready list. |
| `Transfer.ETransfer.Select` | etransfer/eTransfer.cpp:250-292 | At most three looks, with the interest flags set to the last entry of each socket after a first empty look. |
| `Connections.ConnectionProtocol` | libjobq.c:253-480 | Over every run of the monitor loop a connection has at most one request executed and at most one reply, made from its own request; a live reply buffer has exactly one owner and is freed once, right after its send. |
| `Connections.RoundServes` | libjobq.c:253-323 | By the first look at which something has happened, a turn executes the request of each connection that can be read, once, and leaves it writing with a live buffer that holds the answer; sends each reply that can be sent, once, and closes its connection; closes one whose receive fails; and leaves every other as it was. |
| `Connections.RoundAccepts` | libjobq.c:268-283 | If a connection is waiting at that look the turn takes in the one that has waited longest, and it alone, for reading; otherwise none. |
| `Connections.RoundRests` | libjobq.c:255-264 | A turn in which nothing has happened changes nothing. |
| `Connections.QuietIsEmpty` | libjobq.c:253-263 | What is watched is the listener and each connection by its entry: a look finds nothing if and only if nobody wants to connect, no socket is in error and none has what its entry waits for. |
| `Connections.BatchServes` | libjobq.c:285-323 | Over any current ready list each request read is executed, each reply sent, a failed connection closed and an entry in error passed over. |
| `Connections.BatchKeeps` | libjobq.c:268-478 | Within one batch no entry is visited after it was erased or replaced. |
| `Connections.SelectedCurrent` | libjobq.c:255-263 | What select reports for the rebuilt poll list is current, with no socket twice. |
| `Connections.ExecuteKeeps` | libjobq.c:314-323 | Executing a request keeps the ownership and counting invariant. |
| `Connections.AnswerKeeps` | libjobq.c:285-292 | Sending the reply, freeing its buffer and erasing the entry keep the ownership invariant. |
| `Connections.Monitor.RunBatch` | libjobq.c:268-478 | The loop over the ready list computes the batch and keeps the invariant. |

## Left out

- Exactness.StepExact: the condition `Ok` is what the steps need; no code enforces it except the full-ring test of the deprecated `job_queue_push` (libjobq.c:902-907), so a caller must.
- Fairness.RoundsSettle: messages must not be lost and nothing new be pushed; with pushes going on `Fairness.RoundsPop` still has every job popped, but the result thread may then serve other returns for ever. A full ring is the only state whose push is excluded from both.
- Window.RebookedWhenAlone: for the dispatcher left alone at the start of a turn; for other interleavings the condition is the step of `Window.DoubledRun`.
- Codec.Format: knows `%%` and `%d`; every other directive, and `%d` without an argument, counts as not delivered.
- Codec.Store: a text longer than its field counts as not delivered; what the program overwrites is not modelled.
- HostsFile.ParserInvertsPrinter: what the buffer holds behind the bytes read is assumed free of `<host>`, and the text is taken up to its first NUL; names of 64 bytes or more are `None` in `ScanInto`.
- HostsFile.ReadHosts: opening and reading the file, and the search for the local address (libhost.c:208-238), are not modelled.
- PipeFraming.FramingExact: each socket read and pipe read delivers all the bytes there are up to its size.
- Transfer.ETransfer.ListenReady: a failure to set the descriptor non-blocking is ignored, as the caller ignores it.
- Transfer.ETransfer.Select: the system's answers are parameters; the status changes of `proc_tcp_socket` and the poll sets of `walk_through` are not modelled.
- Connections.ConnectionProtocol: each receive delivers one whole message and each send takes the whole reply; the answer of the scheduler is a function of request and time; an entry that only reports an error is passed over, as the code never reaches its branch for it (libjobq.c:305).
- Transport: returns are sent by UDP to a thread that listens on TCP, and the monitor never calls `walk_through`; the model has a ledger of messages that may be lost but not duplicated or forged.
- Number of hosts: below MAX_NUM_HOSTS, since the tables are indexed from 1.
- The second unlock of an already unlocked mutex on the full-ring path, sleeps, time stamps, `fork` and `execl`, and every `exit` on a system error.
- A cancel that reaches a worker between two jobs has no effect in the model.
- The whole-structure reply to query -2 (libjobq.c:448-471): a raw copy of C structures.
- The client's connection loops and printing, `host_monitor.c`, `libuser.c`, the deprecated and disabled functions: reporting or duplicates.
