# Electronic queue: a verified model

The repository runs the queue of a visa centre: people book a slot, check in, are called to a desk and served. This
project models its back end, `apps/api/src/queue`, and proves what its transactions keep.

Four parts are modelled.

- **Dispatch.** Tickets, employees and assignments, changed together by check-in, cancellation, the manager's status
  change, the employee's actions and breaks, seating, changes of direction, the sweeps, the call timeout and the
  purge (`queue.service.ts`, `queue.rules.ts`, `queue-dispatch.ts`, `ticket-presentation.ts`, `retention.service.ts`).
- **Booking.** Which desk is free for an appointment, with tickets, holds and blocked time in the way
  (`booking.service.ts`).
- **Holds and quotas.** Redis keys with deadlines, a key for each session that names its hold, a once-only refresh and a sorted set
  that indexes the holds; and a counter for each client (`rate-limit.service.ts`).
- **The phone field**, printed and read by the client and read again by the server (`phone.ts`, `person-input.ts`).

## How it is built

`Domain`, `QueueRules`, `Calendar` hold the rows, the transition table and the time arithmetic. `Tables` states the
invariant of the three tables, `Safe`, and shows it for the elementary changes transactions are made of. `Dispatch`,
`Sweeps`, `Office`, `Booking`, `Appointments` and `Holds` give every transaction as a function on values, in its
shortest form, with the proof that it keeps what it must. `Runs` puts them together as the steps of one system with a
clock. What holds along whole runs follows: of tables and assignments in `Histories`, of desks in `DeskHistories`, of
appointments in `SlotHistories`, of holds in `HoldHistories`, of unanswered calls in `CallHistories`, and what a hold
is worth in `HoldPromise`. A transaction is one step; a refused one changes nothing in the database. `holdSlot` is two
steps, so that anything may happen between choosing a desk and taking the hold.

`DispatchLaws`, `SeatLaws`, `BookingLaws`, `HoldLaws` and `OfficeLaws` say of each transaction when it succeeds, which
error it gives otherwise and which row has which values afterwards. They are written over the rows and keys and name
neither the functions the transactions are composed of nor the transition table. `StatusLaws` reads off them the life of
a ticket, and `Requests` shows that no request is ever without an answer.

`Storage`, `RateLimiting`, `Schedule`, `QueueServices` and `Retention` are the program's classes: fields that methods
update, the same branches in the same order, loops where it loops. Each method is proved to have exactly the effect of
its function, so what is proved about runs is about these methods. Branches of the program that the invariant rules
out are `assert false` in the methods, with a word on what they would have done.

Answers a query leaves to the database (which of several tied rows, in which order) are parameters; the functions and
steps ask only that they are possible answers. Instants are integers in milliseconds; a Redis method takes one instant.

## What came out

- The invariant `Safe` is kept by every step. It implies both unique indexes on active assignments; that employees on a
  break have none, so `recoverBreakAssignments` never finds anything and the branches that only deactivate an
  assignment are dead; that a reserved employee's ticket is assigned or called and a busy one's is being served; and
  that no desk seats two employees.
- Whoever is given a new ticket, by the dispatch, at check-in or by a call of its own, is reserved for it afterwards, and
  nobody else gets an assignment (`NewWorkReserved`); for what, in which order and when is in `TakesWhen`,
  `TakesInOrder` and `ChecksInSo`.
- Open appointments at one desk are disjoint in every state of a run exactly as long as none is placed over an open
  ticket of the other country, which the check's filter passes over (`RunDisjoint`, `BookedOverIsForeign`). While no
  desk with an open ticket is given another country there is no such ticket, and the unique index on desk and start
  never fires (`RunSlots`, `IndexNeverFires`). `CountryChangeOverlaps` gives a booked desk the other country and books
  over the ticket at another start, which the index lets in.
- No desk has two active assignments in any state of a run exactly as long as no manager calls a ticket while the
  manager's desk is busy: of all transactions only the call by hand does not look (`RunOneAtDesk`). Every assignment is
  worked at its employee's desk exactly as long as no desk is deleted under an employee who has an assignment
  (`RunDesksAgree`), and until then such calls are refused. `TwoAtOneDesk` goes from a deletion to two assignments.
- The sorted set names exactly the live holds, with their deadlines, exactly as long as no session takes its own slot
  again at an instant that is no whole number of seconds before the deadline: the score is then rebuilt from TTL's
  seconds (`RunExact`, `SecondsLoseTheScore`). Even then it is less than a second off, but a hold can be off the list
  in its last second, and its time is then booked (`LastSecondBooked`, `HoldMissedWhenScoreComes`).
- A hold does what it is for. A clear time, held or not, stays clear in every state of a run exactly as long as no
  booking or move lands in it and its desk is not given longer slots in which it meets an open ticket (`RunClear`).
  While the time is held, its last second aside, nothing lands in it, so that only the longer slots are left
  (`HeldTimeStaysClear`), and its holder loses the desk only to another's hold, to blocked time or to a change of the
  desk. `BookedBeforeTaken` books a chosen time before it is held; `HeldTimeGrows` gives a held desk the longer slots.
- Live holds at one desk keep apart exactly as long as no free key is taken across another session's live hold, which
  the second step of `holdSlot` does not look for, and no desk gets longer slots under holds too close for them
  (`RunApart`). `HoldsMayOverlap` is the race of two sessions; the booking check refuses the first of them.
- At most five calls pass the hourly limit of three in any hour, and five is reached: a window ends and the next begins.
- A call by hand is not counted: the timeout puts a ticket that nobody is calling yet back at most once, and once more
  for each call by hand (`RequeuesBounded`).
- No phone has two open appointments at one time exactly as long as none is moved to a time at which its phone has
  another: `rescheduleTicket` does not look (`RunPhones`, `MovedOntoPhone`).

The code and `docs/architecture.md` disagree twice. Line 21 says that after `COMPLETE` the next ticket is handed out in
the same transaction; `assignmentAction` loads the employee without the desk, so nothing is handed out until the sweep
(`ActNeverDispatches`). Line 30 says there is no automatic no-show; `markMissedAppointments` is one. The model follows
the code.

## Model

| member | source | states |
|---|---|---|
| Tables.SetTicketKeeps | apps/api/src/queue/queue.service.ts:848-851 | Restating a ticket nobody serves keeps the invariant, moves no ticket or assignment backwards and leaves bookings alone |
| Tables.SetEmployeeKeeps | apps/api/src/queue/queue.service.ts:1108-1110 | Rewriting an employee's row keeps all of it if an employee at work keeps its desk and is not sent away |
| Tables.MoveKeeps | apps/api/src/queue/queue.service.ts:1557-1576 | Saving a ticket, its assignment and its employee together keeps all of it, for a new assignment and for one that moves on or closes |
| Tables.PurgeKeeps | apps/api/src/queue/retention.service.ts:50-80 | Deleting closed tickets with their assignments keeps all of it |
| Dispatch.CheckInKeeps | apps/api/src/queue/queue.service.ts:824-862 | Check-in, with the assignment it may make at once, is a step that keeps the invariant |
| Dispatch.CancelKeeps | apps/api/src/queue/queue.service.ts:979-1002 | Cancelling does, closing the assignment of a called ticket and freeing its employee |
| Dispatch.MarkNoShowKeeps | apps/api/src/queue/queue.service.ts:864-885 | Marking a missed booking does |
| Dispatch.ManagerChangeKeeps | apps/api/src/queue/queue.service.ts:1274-1418 | The manager's status change does, with the dispatch that may follow a completion |
| Dispatch.ActKeeps | apps/api/src/queue/queue.service.ts:1521-1593 | The five actions on an assignment do |
| Dispatch.ActAdvances | apps/api/src/queue/queue.rules.ts:6-31 | Every action that succeeds brings its assignment to a strictly later stage |
| Dispatch.ChangeEmployeeStatusKeeps | apps/api/src/queue/queue.service.ts:1075-1126 | Becoming available, pausing and going offline keep the invariant, with the ticket given back or taken |
| Dispatch.SetDeskKeeps | apps/api/src/queue/queue.service.ts:2111-2191 | Seating an employee does, although others may lose the desk on the way |
| Dispatch.SetCountryKeeps | apps/api/src/queue/queue.service.ts:2014-2078 | Changing an employee's direction does |
| Dispatch.AssignNextKeeps | apps/api/src/queue/queue.service.ts:2467-2532 | Handing out the next ticket does |
| Dispatch.FreeDeskMeansIdle | apps/api/src/queue/queue.service.ts:2556-2566 | An employee at a desk without active assignments has none itself, so check-in need not look |
| Dispatch.ExpireCallKeeps | apps/api/src/queue/queue.service.ts:2284-2303 | The call timeout keeps the invariant |
| DispatchLaws.TakesWhen | apps/api/src/queue/queue.service.ts:2467-2516 | A ticket is taken exactly when the employee sits at a desk, neither of them has an assignment, and some waiting ticket of the site, the direction and a service suits |
| DispatchLaws.TakesInOrder | apps/api/src/queue/queue.service.ts:2485-2516 | The ticket taken is not behind any that suits: the own desk's pool first, then slotted before slotless, higher priority, earlier slot, earlier arrival |
| DispatchLaws.TakesNext | apps/api/src/queue/queue.service.ts:2516-2532 | Handing out writes ASSIGNED, RESERVED and one new assignment at the employee's desk without times, and nothing else |
| DispatchLaws.MatchesFor | apps/api/src/queue/queue.service.ts:2544-2555 | Check-in finds the first in the list at the ticket's desk, else the first at its site, else nobody, by positions in the list |
| DispatchLaws.MatchesOne | apps/api/src/queue/queue.service.ts:2544-2555 | There is no other answer of that kind |
| DispatchLaws.ChecksInWhen | apps/api/src/queue/queue.service.ts:832-847 | Check-in succeeds if and only if the ticket is booked and the time is from 15 minutes before the slot until its end; the error otherwise |
| DispatchLaws.ChecksInSo | apps/api/src/queue/queue.service.ts:848-862 | The arrived ticket is handed to exactly the employee it matches if that has a desk and the desk is free, else it waits checked in with priority 1 |
| DispatchLaws.ManagerMayExactly | apps/api/src/queue/queue.service.ts:1274-1335 | The manager's change succeeds if and only if the site allows it, work under way is the manager's own, and it is a repetition, a call of a waiting ticket by an idle manager or a completion |
| DispatchLaws.ManagerErrors | apps/api/src/queue/queue.service.ts:1274-1335 | Which error it gives otherwise |
| DispatchLaws.ManagerChanges | apps/api/src/queue/queue.service.ts:1336-1407 | A call writes CALLED, RESERVED and one new assignment with the time of the call; a completion closes the assignment, frees the manager and asks for more at a desk |
| DispatchLaws.ActsWhen | apps/api/src/queue/queue.rules.ts:6-31 | An action succeeds if and only if the assignment is the caller's own and active and the pair of action and status is listed, START from ASSIGNED for a slot included |
| DispatchLaws.ActsSo | apps/api/src/queue/queue.service.ts:1539-1592 | For each of the five actions the rows of ticket, assignment and employee afterwards, in field values, and nothing else changed |
| DispatchLaws.CancelsSo | apps/api/src/queue/queue.service.ts:979-1002 | When a ticket may be cancelled; then it is CANCELLED, whoever has it is available and the assignment ends without a time |
| DispatchLaws.MarksNoShowSo | apps/api/src/queue/queue.service.ts:864-885 | When a booking may be marked as missed; then it is NO_SHOW and nothing else changes |
| DispatchLaws.ExpiresSo | apps/api/src/queue/queue.service.ts:2284-2303 | The first unanswered call puts the ticket back with priority 0, the second makes it a no-show; the employee is available |
| DispatchLaws.CallExpiredExactly | apps/api/src/queue/queue.service.ts:2273-2283 | A call has expired 90 seconds after it was made |
| DispatchLaws.PurgesSo | apps/api/src/queue/retention.service.ts:50-80 | The purge removes exactly the tickets named with their assignments |
| DispatchLaws.ReleasesWhen | apps/api/src/queue/queue.service.ts:2319-2378 | An employee can give its ticket back exactly while it is serving nobody |
| DispatchLaws.ReleasesSo | apps/api/src/queue/queue.service.ts:2435-2465 | What it had goes back with priority 0, the assignment ends now, the status becomes the one asked for |
| DispatchLaws.TurnsWhen | apps/api/src/queue/queue.service.ts:1075-1107 | When an employee may change its status, and the error otherwise |
| DispatchLaws.TurnsSo | apps/api/src/queue/queue.service.ts:1108-1126 | Becoming available keeps the ticket and asks for more; leaving gives the ticket back |
| DispatchLaws.UnseatsSo | apps/api/src/queue/queue.service.ts:2380-2399 | Whoever loses a desk gives its ticket back and is paused if it had one |
| DispatchLaws.VacatesSo | apps/api/src/queue/queue.service.ts:2136-2143 | Everybody else at the desk does, unless one of them is serving somebody |
| SeatLaws.SeatsWhen | apps/api/src/queue/queue.service.ts:2111-2191 | Seating succeeds if and only if the desk is on and of the employee's direction and nobody concerned is serving; the error otherwise, and every employee's row, ticket and assignment afterwards; the employee's ticket is given back even at the desk it already has, which is not loaded |
| SeatLaws.LeavesDesk | apps/api/src/queue/queue.service.ts:2160-2164 | Leaving a desk for none, in the same way |
| SeatLaws.RedirectsSo | apps/api/src/queue/queue.service.ts:2014-2078 | When a direction may change and what is given up for it: the desk of another direction, and the ticket with it |
| Office.DeleteDeskKeeps | apps/api/src/queue/queue.service.ts:2193-2237 | Deleting a desk keeps the invariant, which does not ask that assignments agree with seats |
| Office.UpdateDeskFitting | apps/api/src/queue/queue.service.ts:1876-1905 | Every open ticket stays one for its desk's country if and only if the desk's country stays or no open ticket is for it |
| Office.EnsureEmployeeKeeps | apps/api/src/queue/queue.service.ts:1004-1033 | A first visit, or a missing site filled in, keeps the invariant |
| OfficeLaws.EnsuresSo | apps/api/src/queue/queue.service.ts:1004-1033 | What a first visit writes and what a later one fills in |
| OfficeLaws.CreatesDeskSo | apps/api/src/queue/queue.service.ts:1839-1874 | A new desk is switched on at an existing site |
| OfficeLaws.UpdatesDeskSo | apps/api/src/queue/queue.service.ts:1876-1905 | An update changes exactly what it names, and never the site |
| OfficeLaws.DeletesDeskSo | apps/api/src/queue/queue.service.ts:2193-2237 | A desk goes, or is only switched off if it was worked at, unless somebody reserved or busy works there or the database refuses; its employees lose the seat and nothing else |
| Runs.QueueKeeps | apps/api/src/queue/queue.service.ts:824-2575 | Every step of the dispatch protocol keeps the invariant, goes only forwards, touches no booking and no agreement of assignments with seats |
| Runs.InitialGood | apps/api/src/domain/entities.ts:99-160 | Before anybody comes everything holds that the statements about reachable states start from |
| Runs.RunSafe | apps/api/src/queue/queue.service.ts:328-2575 | In every state of every run the tables satisfy the invariant and the holds are in step; no run goes backwards |
| Requests.EveryRequestIsAStep | apps/api/src/queue/queue.service.ts:328-2575 | In every reachable state whatever people may ask for is a legal step with some answer of the database, so that no statement about runs holds for want of runs |
| Histories.ReachableTables | apps/api/src/domain/entities.ts:137-144 | In every reachable state active assignments and tickets in progress are one to one, no employee has two, statuses agree, engaged employees have one, completed tickets have been served |
| Histories.Lifecycle | apps/api/src/queue/ticket-presentation.ts:202-234 | Between any two states of a run: booked only from booked, in service only to completed, closed stays closed |
| Histories.BornBooked | apps/api/src/queue/queue.service.ts:425-442 | A ticket that appears is booked and was never called |
| Histories.LeavesClosed | apps/api/src/queue/retention.service.ts:50-80 | Only closed tickets leave the table and only the purge removes them |
| Histories.ActOnce | apps/api/src/queue/queue.service.ts:1527-1592 | On one assignment each action succeeds at most once in a run, later successes being of later stages |
| Histories.NewWorkReserved | apps/api/src/queue/queue.service.ts:2516-2523 | Whenever a transaction of the dispatch protocol makes a new assignment, its employee is RESERVED afterwards, for a ticket ASSIGNED, or CALLED with the time of the call |
| StatusLaws.EveryStatusHasItsOrigin | apps/api/src/queue/ticket-presentation.ts:202-234 | For each status the transactions that lead to it and the statuses they lead from; a ticket's status changes in no other way |
| StatusLaws.EveryRequestIsAchieved | apps/api/src/queue/queue.service.ts:626-2575 | A transaction that is not refused does what it is for: the ticket has the status asked for, the employee the status, desk or direction, a purged ticket is gone |
| StatusLaws.SweepTraced | apps/api/src/queue/queue.service.ts:626-679 | A sweep, also with an answer that is out of date, makes exactly the tickets named no-shows that are overdue |
| CallHistories.RequeuesBounded | apps/api/src/queue/queue.service.ts:2295-2303 | In every run the call timeout puts a ticket back at most as often as its chances, two at most, and once for each call by hand |
| CallHistories.RequeuedOnce | apps/api/src/queue/queue.service.ts:2295-2303 | A ticket that is not being called and that nobody calls by hand is put back at most once |
| CallHistories.HandAddsChance | apps/api/src/queue/queue.service.ts:1349-1373 | A call by hand adds exactly one chance to a ticket called fewer than two times and none to another |
| CallHistories.CalledByHandComesBack | apps/api/src/queue/queue.service.ts:1349-1373 | A call by hand leaves the count alone, so the timeout puts the ticket back and can do so again |
| DeskHistories.QueueAtDesk | apps/api/src/queue/queue.service.ts:1325-1373 | Of all transactions only the manager's call can put two active assignments at a desk, and does so if and only if the manager's desk has one |
| DeskHistories.RunOneAtDesk | apps/api/src/queue/queue.service.ts:1325-1373 | No desk has two active assignments throughout a run, deletions included, if and only if no manager calls a ticket while the manager's desk is busy |
| DeskHistories.RunDesksAgree | apps/api/src/queue/queue.service.ts:2204-2220 | Every assignment is worked at its employee's desk throughout a run if and only if no desk is deleted under an employee with an assignment |
| DeskHistories.AgreeRefusesCall | apps/api/src/queue/queue.service.ts:1325-1338 | While assignments are worked at their employees' desks, a call at a busy desk is refused because the manager is busy |
| DeskHistories.ReachableDesks | apps/api/src/queue/queue.service.ts:2480-2483 | In every run that deletes no desk under an employee with an assignment no desk seats two, assignments are at their employees' desks and no desk has two |
| DeskHistories.DropDeskExact | apps/api/src/queue/queue.service.ts:2204-2220 | A deletion separates an assignment from its employee's desk if and only if somebody at the desk has an assignment |
| SlotHistories.RunDisjoint | apps/api/src/queue/booking.service.ts:606-654 | Open appointments at a desk never overlap throughout a run if and only if none is placed over an open ticket the check's filter on site and country passes over |
| SlotHistories.BookedOverIsForeign | apps/api/src/queue/booking.service.ts:625-626 | A ticket passed over is always one of the other country, at a desk that is no longer of the ticket's country |
| SlotHistories.RunFitting | apps/api/src/queue/queue.service.ts:1888-1892 | Open tickets are for their desks' countries throughout a run if and only if no desk with an open ticket changes country |
| SlotHistories.RunSlots | apps/api/src/queue/booking.service.ts:221-302 | As long as no desk with an open ticket changes country, open appointments are disjoint in every state of the run |
| SlotHistories.RunPhones | apps/api/src/queue/queue.service.ts:304-326 | No phone has two open appointments at one time throughout a run if and only if none is moved to a time at which its phone has another |
| SlotHistories.ReachablePlaced | apps/api/src/queue/queue.service.ts:425-442 | In every reachable state every ticket has a slot of its country's length, in working hours, at a desk of its site |
| SlotHistories.ReachableList | apps/api/src/queue/booking.service.ts:91-219 | In every reachable state the public list and the booking check agree on every future grid time of a weekday |
| SlotHistories.ReachablePosition | apps/api/src/queue/queue.service.ts:2577-2606 | In every reachable state the position shown is the place in every dispatch order, up to ties |
| SlotHistories.ReachableOrder | apps/api/src/queue/queue.service.ts:2485-2516 | In every reachable state a ticket that came back is never taken while a checked-in one is in the same pass |
| HoldHistories.RunExact | apps/api/src/queue/rate-limit.service.ts:95-107 | The sorted set agrees with the live keys through a run if and only if no session takes its own slot again between two whole seconds |
| HoldHistories.ReachableHolds | apps/api/src/queue/rate-limit.service.ts:107-152 | In every reachable state a live hold is its session's only one, getSessionHold finds it until it dies, and it is younger than 360 seconds |
| HoldHistories.HoldSlotApart | apps/api/src/queue/queue.service.ts:219-228 | Taking a free key keeps live holds apart if and only if no live hold of another session at the desk overlaps it |
| HoldHistories.RunApart | apps/api/src/queue/queue.service.ts:197-228 | Live holds at a desk keep apart throughout a run if and only if no key is taken across another's live hold and no desk gets longer slots under holds too close for them |
| HoldHistories.FreshChoiceNotCrossed | apps/api/src/queue/queue.service.ts:205-218 | A key taken in the very state in which it was chosen crosses no hold that is listed |
| HoldPromise.ChosenIsClear | apps/api/src/queue/queue.service.ts:196-218 | At a desk found free no open ticket is in the time to be held if and only if the check has passed none over |
| HoldPromise.NextClear | apps/api/src/queue/queue.service.ts:384-411 | A step leaves a clear time clear if and only if it places nothing in it and does not give its desk longer slots in which it meets an open ticket |
| HoldPromise.NextLeavesClear | apps/api/src/queue/booking.service.ts:641-653 | A step that the hold outlives leaves its time clear if and only if it does not give its desk such slots |
| HoldPromise.SeenKeepsOut | apps/api/src/queue/booking.service.ts:641-653 | No step that the hold outlives places an appointment in its time, whatever the desks' countries |
| HoldPromise.RunClear | apps/api/src/queue/queue.service.ts:197-228 | A clear time, held or not, stays clear throughout a run if and only if nothing lands in it and its desk is never given such slots |
| HoldPromise.HeldTimeStaysClear | apps/api/src/queue/queue.service.ts:171-242 | While it is held, its last second counting only while the scores are exact, a clear time stays clear throughout a run if and only if its desk is never given such slots |
| HoldPromise.ChosenThenHeld | apps/api/src/queue/queue.service.ts:197-228 | A chosen time is clear until it is taken if and only if no ticket was passed over, nothing lands in it and its desk is given no such slots; and then while held if and only if the last |
| HoldPromise.HolderGetsDesk | apps/api/src/queue/queue.service.ts:373-411 | While its time is clear the held desk is free for its holder if and only if it is still a candidate and no other hold and no blocked time is in the way |
| Counterexamples.TwoAtOneDesk | apps/api/src/queue/queue.service.ts:2204-2220 | From a sound state, deleting a desk, switching it on and seating somebody else ends with two active assignments at it |
| Counterexamples.CountryChangeOverlaps | apps/api/src/queue/booking.service.ts:625-626 | After a booked desk changes country the checks and the index admit an appointment at another start that overlaps its booking |
| Counterexamples.HoldsMayOverlap | apps/api/src/queue/queue.service.ts:197-228 | Two sessions that chose before either took its hold end with overlapping live holds, and the booking check refuses the first |
| Counterexamples.SecondsLoseTheScore | apps/api/src/queue/rate-limit.service.ts:95-107 | Two calls of a session for one slot a millisecond apart leave a score that is not the deadline, whatever TTL answers |
| Counterexamples.LastSecondBooked | apps/api/src/queue/rate-limit.service.ts:218-226 | After them a walk-in is booked on the hold half a second before it dies |
| Counterexamples.HeldTimeGrows | apps/api/src/queue/queue.service.ts:1888-1892 | A held time that is clear runs into the next booking when its desk is given the other country's slots |
| Counterexamples.BookedBeforeTaken | apps/api/src/queue/queue.service.ts:197-228 | A time is chosen, booked by somebody else and then held, so that the hold is not clear |
| Counterexamples.MovedOntoPhone | apps/api/src/queue/queue.service.ts:936-956 | A ticket is moved to a time at which its phone has another open ticket |
| Sweeps.SweepEffect | apps/api/src/queue/queue.service.ts:626-679 | Whatever the order, the sweep makes its tickets no-shows, closes their assignments, frees the owners and touches nothing else |
| Sweeps.SweepCount | apps/api/src/queue/queue.service.ts:626-637 | Each sweep retires exactly min(100, overdue) tickets, all overdue |
| Sweeps.SweepsDrain | apps/api/src/queue/queue.rules.ts:79-95 | n sweeps at one instant leave max(0, overdue - 100 n) overdue |
| DispatchLaws.OverdueExactly | apps/api/src/queue/queue.rules.ts:79-95 | A ticket is overdue an hour after its slot began unless it is called, being served or closed |
| DispatchLaws.SweepSpares | apps/api/src/queue/queue.service.ts:626-679 | The sweep never touches a ticket that is CALLED or IN_SERVICE or less than an hour late, nor its assignments |
| Sweeps.WorkConserved | apps/api/src/queue/queue.service.ts:2246-2269 | After the employee loop no available employee with a free desk is left beside a ticket it could take |
| Sweeps.DispatchStarvesNobody | apps/api/src/queue/queue.service.ts:2467-2532 | One employee's dispatch never leaves another newly beside a ticket it could take |
| Sweeps.GoodPickExists | apps/api/src/queue/queue-dispatch.ts:88-100 | The dispatch query always has an answer |
| Sweeps.CheckedInFirst | apps/api/src/queue/queue.service.ts:2485-2516 | A ticket that came back is never taken while a checked-in one with a slot is in the same pass |
| Sweeps.OneOwner | apps/api/src/queue/queue-dispatch.ts:53-68 | A ticket in progress is visible to exactly its owner |
| DispatchLaws.OthersVisible | apps/api/src/queue/queue-dispatch.ts:53-68 | A ticket that is not in progress is visible to everybody |
| Sweeps.ActNeverDispatches | apps/api/src/queue/queue.service.ts:1537-1590 | An action makes no assignment and moves no waiting ticket; after one that closes, the employee is available and idle |
| Sweeps.PurgeSparesActive | apps/api/src/queue/retention.service.ts:60-66 | The purge never deletes an active assignment |
| Sweeps.ExpireEffect | apps/api/src/queue/queue.service.ts:2273-2317 | Whatever the order, the timeout closes exactly its calls, decides by the count, frees the employees and touches nothing else |
| Sweeps.NoneExpired | apps/api/src/queue/queue.service.ts:2274-2283 | Afterwards no call is left unanswered for 90 seconds |
| QueuePosition.PositionIsRank | apps/api/src/queue/queue.service.ts:2577-2606 | While all peers have slots the position shown, less one, is the ticket's place in every dispatch order, up to peers with its priority and slot |
| QueuePosition.PositionCounts | apps/api/src/queue/queue.service.ts:2577-2606 | The position is one more than the number of live tickets of the site and country with a higher priority, or the same and an earlier slot; nothing for others |
| Booking.PlaceDisjoint | apps/api/src/queue/booking.service.ts:606-654 | A new appointment on a desk found free keeps appointments disjoint if and only if the check has passed over no open ticket in its way |
| Booking.MoveSlotDisjoint | apps/api/src/queue/queue.service.ts:936-955 | So does a moved one, which is never in its own way |
| Booking.DisjointIsUnique | apps/api/src/domain/entities.ts:103-106 | Disjoint appointments satisfy the unique index on desk and start |
| Booking.IndexCatchesOverlooked | apps/api/src/domain/entities.ts:103-106 | On a desk found free the index can only refuse because of a ticket the check has passed over |
| Booking.IndexNeverFires | apps/api/src/queue/queue.service.ts:463-475 | While open tickets are for their desks' countries the index refuses nothing that the check lets through |
| Booking.SameSlotsDisjoint | apps/api/src/queue/booking.service.ts:606-654 | A step that changes no booking keeps appointments disjoint, as closed tickets stay closed |
| Booking.ReserveIffFree | apps/api/src/queue/booking.service.ts:268-301 | There is a desk to answer if and only if isSlotFree holds |
| Booking.DayScanComplete | apps/api/src/queue/booking.service.ts:79-89 | Whatever overlaps a slot in working hours starts on the same Moscow day |
| Booking.ListAgreesWithCheck | apps/api/src/queue/booking.service.ts:91-219 | While tickets lie in working hours the public list shows a future grid time of a weekday as available if and only if booking it passes the check |
| BookingLaws.FreeExactly | apps/api/src/queue/booking.service.ts:606-690 | A desk is free if and only if it is on, of the site and country, and no open ticket, no listed hold and no blocked time of its employee meets the request, written over the rows |
| BookingLaws.MovesWhere | apps/api/src/queue/booking.service.ts:630 | Where no hold and no blocked time is in the way a ticket finds the desk free for its move if and only if no other open ticket is: its own old time never is |
| BookingLaws.MovesFreely | apps/api/src/queue/queue.service.ts:936-955 | A ticket without neighbours in its way may always be moved at its own desk, also into its own time |
| BookingLaws.RefusesWhen | apps/api/src/queue/booking.service.ts:167-219 | The order of the refusals: the time first, then the want of a desk |
| BookingLaws.ReservesInOrder | apps/api/src/queue/booking.service.ts:268-301 | The preferred desk if it is free, else none that is free comes before the answer |
| BookingLaws.BooksSo | apps/api/src/queue/queue.service.ts:384-442 | The checks in order with their errors, and the one row that a booking adds |
| BookingLaws.CreatesSo | apps/api/src/queue/queue.service.ts:347-411 | A booking needs the session's own live hold for its time, and then uses it up whatever comes of it |
| BookingLaws.WalksInSo | apps/api/src/queue/queue.service.ts:482-553 | A walk-in needs none, but a time later today in Moscow |
| BookingLaws.ReschedulesSo | apps/api/src/queue/queue.service.ts:914-977 | A move changes slot and desk of an open ticket and nothing else; the errors in order |
| Appointments.BookKeeps | apps/api/src/queue/queue.service.ts:384-442 | A booking keeps the invariant, every ticket in its working hours and every open one at a desk of its country |
| Appointments.BookDisjoint | apps/api/src/queue/queue.service.ts:394-442 | A booking that goes through keeps appointments disjoint if and only if the check has passed over none |
| Appointments.RescheduleKeeps | apps/api/src/queue/queue.service.ts:914-977 | Moving one keeps the same |
| Appointments.RescheduleDisjoint | apps/api/src/queue/queue.service.ts:936-955 | A move that goes through keeps appointments disjoint if and only if the check has passed over none |
| Appointments.BookedClearOfHolds | apps/api/src/queue/rate-limit.service.ts:203-216 | A new appointment overlaps no live hold, each measured with the length of its own desk's country, but one that is off the list in its last second |
| Appointments.MovedClearOfHolds | apps/api/src/queue/booking.service.ts:641-653 | Nor does a moved one |
| Appointments.HoldMissedWhenScoreComes | apps/api/src/queue/rate-limit.service.ts:218-226 | A hold that alone stands in the way leaves its desk free if and only if its score has come or is gone |
| Appointments.ConsumesOwnHoldOnly | apps/api/src/queue/queue.service.ts:373-392 | createTicket removes the session's own hold for its time from the holds, and no other |
| Holds.HoldSlotKeeps | apps/api/src/queue/rate-limit.service.ts:82-122 | Taking a slot keeps holds, session keys, flags and sorted set in step |
| Holds.RefreshHoldKeeps | apps/api/src/queue/rate-limit.service.ts:128-152 | So does refreshing, whose flag lives as long as the key |
| Holds.ConsumeHoldKeeps | apps/api/src/queue/rate-limit.service.ts:154-172 | So does consuming, after which the hold is gone |
| Holds.PruneKeeps | apps/api/src/queue/rate-limit.service.ts:218-221 | So does listing, which drops only what is over |
| Holds.Later | apps/api/src/queue/rate-limit.service.ts:91-94 | So does the passing of time |
| Holds.OneHoldEach | apps/api/src/queue/rate-limit.service.ts:174-185 | A session has at most one live hold and getSessionHold finds it |
| Holds.HoldSlotLeavesOthers | apps/api/src/queue/rate-limit.service.ts:108-111 | Giving up the earlier hold never removes or changes another session's |
| Holds.HoldSlotExact | apps/api/src/queue/rate-limit.service.ts:95-107 | Taking a slot keeps scores equal to deadlines if and only if it is not the session's own between two whole seconds |
| Holds.ListedNearly | apps/api/src/queue/rate-limit.service.ts:218-226 | The list always names every hold with more than a second to live and nothing dead for a second |
| Holds.ListedExactly | apps/api/src/queue/rate-limit.service.ts:218-226 | While scores equal deadlines the list is the set of live holds |
| HoldLaws.HoldsTaken | apps/api/src/queue/rate-limit.service.ts:86-107 | A key alive for another session is refused; for the same session only its score is rebuilt from TTL |
| HoldLaws.HoldsFree | apps/api/src/queue/rate-limit.service.ts:108-122 | A free key is the session's for 180 seconds with its pointer and score, the key it had before is gone, everything else stays |
| HoldLaws.RefreshesWhen | apps/api/src/queue/rate-limit.service.ts:128-139 | A refresh succeeds if and only if the session's live pointer names a live hold of its own with this id and its flag is dead |
| HoldLaws.RefreshProlongs | apps/api/src/queue/rate-limit.service.ts:140-152 | Then key, pointer, flag and score all end 180 seconds from now, owner and id and birth stay, and so does every other key |
| HoldLaws.ConsumesSo | apps/api/src/queue/rate-limit.service.ts:154-172 | Consuming succeeds exactly on the live key with this session and id and removes key, pointer, flag and score |
| HoldLaws.PeeksExactly | apps/api/src/queue/rate-limit.service.ts:174-197 | Which hold a session is told it has |
| HoldLaws.ListsExactly | apps/api/src/queue/rate-limit.service.ts:218-226 | Which members the list has: those whose score has not come, while the set itself lives |
| HoldLaws.PrunesExactly | apps/api/src/queue/rate-limit.service.ts:218-221 | Listing removes the others and nothing else |
| Quota.ThreePerWindow | apps/api/src/queue/rate-limit.service.ts:50-63 | While one counter lives no more than three calls pass |
| Quota.HourlyBound | apps/api/src/queue/rate-limit.service.ts:37-64 | At most five calls pass in any half-open hour of any run of calls |
| Quota.HourlyBoundTight | apps/api/src/queue/rate-limit.service.ts:50-53 | Five do pass in one |
| Quota.AdmitsExactly | apps/api/src/queue/rate-limit.service.ts:37-64 | During the cooldown a call is refused and not counted; otherwise it is counted, and the first three of an hour pass |
| HoldCodec.HoldKeyRoundTrip | apps/api/src/queue/rate-limit.service.ts:242-252 | parseHoldKey undoes holdKey if and only if the desk id is not empty and has no colon |
| HoldCodec.PrefixIsOwner | apps/api/src/queue/rate-limit.service.ts:97-184 | The prefix test on a hold's value finds exactly the session that owns it |
| Phone.PhoneRoundTrip | apps/client-web/src/phone.ts:3-27 | Reading the printed phone gives the digits back if and only if there are none or they start with 7 |
| Phone.FormatIdempotent | apps/client-web/src/phone.ts:11-27 | Formatting formatted text changes nothing, whatever was typed |
| Phone.PrintsWhole | apps/client-web/src/phone.ts:11-27 | Eleven digits print as +7 (999) 123-45-67 |
| Phone.ReadsAs | apps/client-web/src/phone.ts:3-9 | What each number of digits is read as: 8 for 7, ten digits with a 7 before them, eleven at most |
| Phone.ErasesDigit | apps/client-web/src/phone.ts:11-27 | Erasing a separator erases the digit before it |
| Phone.ServerAgreesWithClient | apps/api/src/queue/person-input.ts:33-44 | The server accepts a text if and only if the client accepts its digits and cuts none off, and reads the same number |
| Phone.AcceptedUnchanged | apps/api/src/queue/person-input.ts:33-38 | The digits of a number the client accepts pass through the server unchanged |
| Phone.ServerReadsAs | apps/api/src/queue/person-input.ts:33-38 | The server reads the same way but cuts nothing |
| Phone.NormalizePhoneDigits | apps/client-web/src/phone.ts:3-9 | The client's reader computes the function the round trip is about |
| Phone.FormatPhoneInput | apps/client-web/src/phone.ts:11-27 | The client's printer does, backspace over a separator included |
| Phone.ServerNormalizePhoneDigits | apps/api/src/queue/person-input.ts:33-38 | The server's reader does |
| Calendar.WorkdayInsideDay | apps/api/src/queue/booking.service.ts:180-195 | An appointment that passes the working-hours check lies inside its Moscow day |
| Calendar.GridInWorkday | apps/api/src/queue/booking.service.ts:59-73 | Every grid time of a weekday passes that check |
| BookingLaws.GridExactly | apps/api/src/queue/booking.service.ts:59-73 | The grid has 27 times of twenty minutes or 18 of thirty, from eight o'clock |
| BookingLaws.InWorkdayExactly | apps/api/src/queue/booking.service.ts:180-195 | The check asks for a weekday, a start from 8:00 and an end by 17:00 in Moscow |
| BookingLaws.WeekendExactly | apps/api/src/queue/booking.service.ts:692-700 | Days 2 and 3 after a Thursday, modulo seven, are the weekend |
| Schedule.BookingService.GetAvailableDates | apps/api/src/queue/booking.service.ts:46-57 | The dates are the first weekdays from today on, as many as asked for up to fifteen, in order and without a gap |
| Schedule.BookingService.GenerateSlotTimes | apps/api/src/queue/booking.service.ts:59-73 | The times are exactly the grid of the working day, in order |
| Schedule.BookingService.BusyDeskIds | apps/api/src/queue/booking.service.ts:606-654 | The desks answered are exactly those a ticket or a hold is in the way at |
| Schedule.BookingService.BlockedDeskIds | apps/api/src/queue/booking.service.ts:656-690 | The desks answered are exactly those whose employee has blocked the time |
| Schedule.BookingService.IsSlotFree | apps/api/src/queue/booking.service.ts:304-364 | True if and only if some desk of the site and country has nothing in the way |
| Schedule.BookingService.AssertSlotAvailable | apps/api/src/queue/booking.service.ts:167-219 | Throws exactly the first error of weekend, hours, past and occupied, or nothing |
| Schedule.BookingService.ReserveDesk | apps/api/src/queue/booking.service.ts:221-302 | Answers the preferred desk if it is free, else a first free one by label, and refuses only if none is free |
| Schedule.BookingService.ListAvailableSlots | apps/api/src/queue/booking.service.ts:91-165 | On weekdays with a desk every future grid time is shown once, in order, with whether a desk is free in the day's tickets |
| RateLimiting.RateLimitService.HoldSlot | apps/api/src/queue/rate-limit.service.ts:82-122 | The commands leave the keys, pointers and sorted set the store function gives |
| RateLimiting.RateLimitService.RefreshHold | apps/api/src/queue/rate-limit.service.ts:128-152 | The same for a refresh, which succeeds once while the flag lives |
| RateLimiting.RateLimitService.ConsumeHold | apps/api/src/queue/rate-limit.service.ts:154-172 | The same for the consumption of a hold |
| RateLimiting.RateLimitService.PeekHold | apps/api/src/queue/rate-limit.service.ts:187-197 | Finds the live hold of this session and id |
| RateLimiting.RateLimitService.GetSessionHold | apps/api/src/queue/rate-limit.service.ts:174-185 | Finds the session's live hold with its id |
| RateLimiting.RateLimitService.HeldDeskIds | apps/api/src/queue/rate-limit.service.ts:203-216 | The desks answered are exactly those with a listed hold that overlaps |
| RateLimiting.RateLimitService.ListHolds | apps/api/src/queue/rate-limit.service.ts:218-226 | Answers the members whose score has not come and drops the rest |
| RateLimiting.RateLimitService.AssertCanCreateTicket | apps/api/src/queue/rate-limit.service.ts:37-64 | Counts one client's call as the quota function does and leaves other clients' counters alone |
| QueueServices.QueueService.AssignNext | apps/api/src/queue/queue.service.ts:2467-2532 | Takes a first ticket in dispatch order, the own desk's before all, exactly when the employee is idle, has a country and its desk is free; nothing if the desk is not loaded |
| QueueServices.QueueService.AssignSpecificTicket | apps/api/src/queue/queue.service.ts:2534-2575 | Gives the ticket to the first available employee at its desk, else of its site, unless the desk is taken |
| QueueServices.QueueService.FirstMatch | apps/api/src/queue/queue.service.ts:2544-2555 | The two searches of the list find the employee that MatchesFor describes |
| QueueServices.QueueService.CheckInByHash | apps/api/src/queue/queue.service.ts:824-862 | Has the effect of the check-in step, or throws and has none |
| QueueServices.QueueService.MarkNoShow | apps/api/src/queue/queue.service.ts:864-885 | Has the effect of the no-show step, or throws and has none |
| QueueServices.QueueService.CancelTicketByHash | apps/api/src/queue/queue.service.ts:979-1002 | Has the effect of the cancellation step, or throws and has none |
| QueueServices.QueueService.MarkMissedAppointments | apps/api/src/queue/queue.service.ts:626-679 | The loop has the effect of the sweep, ticket by ticket, also for an answer that is out of date when the transaction opens |
| QueueServices.QueueService.ApplyStatus | apps/api/src/queue/queue.service.ts:1336-1407 | Once the guards have passed, only a call and a completion are left; the branches for other statuses are dead |
| QueueServices.QueueService.SetTicketStatus | apps/api/src/queue/queue.service.ts:1274-1418 | Has the effect of the manager's step with the dispatch that follows, or throws the error the step gives |
| QueueServices.QueueService.AssignmentAction | apps/api/src/queue/queue.service.ts:1521-1593 | Has the effect of the action step; the assignNext at its end does nothing |
| QueueServices.QueueService.ReleaseAssignmentForBreak | apps/api/src/queue/queue.service.ts:2435-2465 | Puts the ticket back or refuses while it is served; the branch that only deactivates is dead |
| QueueServices.QueueService.ReleaseEmployee | apps/api/src/queue/queue.service.ts:2319-2378 | Has the effect of giving the ticket back before a desk or direction is left |
| QueueServices.QueueService.SetEmployeeStatus | apps/api/src/queue/queue.service.ts:1075-1126 | Has the effect of the employee's step with the dispatch that follows, or throws its error |
| QueueServices.QueueService.AssignEmployeeDesk | apps/api/src/queue/queue.service.ts:2111-2191 | Has the effect of the seating step; when the employee cannot leave its ticket, those it displaced have their seats again |
| QueueServices.QueueService.UpdateEmployeeCountry | apps/api/src/queue/queue.service.ts:2014-2078 | Has the effect of the change of direction, or throws and has none |
| QueueServices.QueueService.RecoverBreakAssignments | apps/api/src/queue/queue.service.ts:2401-2433 | Finds nothing and changes nothing in any state that satisfies the invariant |
| QueueServices.QueueService.DispatchAvailable | apps/api/src/queue/queue.service.ts:2246-2271 | With at most a hundred available employees nobody is left beside a ticket it could take when the loop ends; then the calls expire |
| QueueServices.QueueService.ExpireCalls | apps/api/src/queue/queue.service.ts:2273-2317 | The loop has the effect of the timeout, call by call |
| QueueServices.QueueService.GetQueueMeta | apps/api/src/queue/queue.service.ts:2577-2606 | Answers the position that PositionIsRank is about and four minutes a place |
| QueueServices.QueueService.ChooseDesk | apps/api/src/queue/queue.service.ts:171-218 | Answers the session's hold for the time if it has one, else a free desk, else the check's error |
| QueueServices.QueueService.TakeHold | apps/api/src/queue/queue.service.ts:219-228 | Takes the hold with whatever desk was chosen before, or refuses because another session has the key |
| QueueServices.QueueService.RefreshHold | apps/api/src/queue/queue.service.ts:244-253 | A refreshed hold is still there to be read, so the second error is never thrown |
| QueueServices.QueueService.CreateTicket | apps/api/src/queue/queue.service.ts:328-478 | Consumes the hold even if the booking is then refused, books the held desk if it is free, and turns a refusal of the index into a conflict |
| QueueServices.QueueService.CreateWalkInTicket | apps/api/src/queue/queue.service.ts:482-616 | Books a time later today without a hold; a refusal of the index comes through as the database's error |
| QueueServices.QueueService.RescheduleTicket | apps/api/src/queue/queue.service.ts:914-977 | Moves an open ticket to a time at which some desk is free for its length, the ticket itself not counting, unless the index refuses |
| QueueServices.QueueService.DeleteDesk | apps/api/src/queue/queue.service.ts:2193-2237 | Has the effect of the deletion step; a desk that tickets refer to makes the database refuse and everything is undone |
| Retention.RetentionService.PurgeExpired | apps/api/src/queue/retention.service.ts:50-80 | Has the effect of the purge and leaves the active assignments as they are |

## Left out

- Redis between the commands of one method, evictions and restarts: a method takes one instant and the store is never lost.
- Redis TTL: its answer is a parameter, any whole number of seconds less than a second off the time left.
- SQL isolation, row locks, SKIP LOCKED and the advisory lock: a transaction is one step, so a sweep never skips a locked ticket.
- `updatedAt` of tickets and employees: the purge deletes any closed tickets, at most 500, and the order of available employees is a parameter.
- Labels of desks: their place in the database's order is a number that need not be unique.
- Time zones of sites other than Europe/Moscow, and Moscow's own changes of offset: the offset is three hours.
- Names, travel dates and consent: whether the person's data are valid is an input of the booking steps.
- The `ensureEmployee` call inside other transactions: it commits by itself, so it is a step of its own, and the transactions find the row missing if it did not happen.
- Administration of sites, services and roles: sites and services are given, an employee's services never change; that adds easy members.
- recordTicketCancelled: the cooldown it sets is the parameter the quota reads.
- Controllers, sessions, Keycloak, SSE, audit and event rows, metrics, ticket numbers, tokens and labels: input and output around the protocol.
- compareManagerTickets, the public board and progress texts: they only order and word what is modelled.
- React apps other than the phone field: user interface.
- CancelTicketByHash: the ticket is found by its identifier; tokens and lookup codes are not modelled.
- Dispatch.ExpireCallKeeps: NOW() of the database and the service's clock are the same clock.
