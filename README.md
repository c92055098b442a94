# Library loans, reservations and membership

A model of the business-rule layer of a small library system. Three tables
hold the books (who borrowed each one and since when), the members (their
loan ceiling and how many loans they have) and the reservations (who waits
for which lent book, since when). Four services run each request as one
transaction:

- the book service acquires and disposes of books;
- the member service enrols and withdraws members;
- the loan service lends, renews and returns books;
- the reservation service reserves lent books, serves reservations in
  first-in-line order, and cancels them.

Every service call reads the rows it needs, checks a fixed list of guards
in a fixed order, then writes. Updates and deletes report how many rows
they touched. After the guards have read a row, a write that touches none
of it means another session deleted the row. `annulerRes` is the exception:
it reads nothing first, so a delete that touches no row means the
reservation does not exist. Inserts report nothing; an insert under a taken
id fails. The call
commits all its writes, or on any error rolls all of them back.

The tables are classes holding a map from id to row (`LivreDao`,
`MembreDao`, `ReservationDao`). Their methods change the map in place.
Updates and deletes return a row count, as the SQL statements do. Inserts
return whether the row was inserted, which stands for the key violation an
insert under a taken id raises. The services are classes
that hold the accessors. Each service method returns `Ok` or
`Err(error)`, and its contract states:

- the error each guard raises;
- the new content of every table it may write;
- that an error leaves the tables as they were.

Rolling back is modelled as restoring the rows as they stood just before
the call's first write, that is, after any deletion another session made.

Other sessions are modelled by a `Race` argument. It says which of the rows
the call is about to write were deleted, and committed, by another session
after the call read them. This makes the row-count checks reachable.
`Serial` is the run with no interference.

The module `Invariants` defines `Consistent`, the property the services keep:

- no member has id 0;
- a book has a loan date exactly when it has a borrower;
- every borrower is a member;
- a member's loan count equals the number of books it holds;
- a member with loans stays within its ceiling;
- reservations name existing books and members.

Every service method except the as-written enrolment (`InscrireAsWritten`,
which admits member 0) proves that a committed call, and any serial call,
keeps `Consistent`. The order in which reservations are served (`Queue`)
is the earliest reservation date, with the smaller reservation id first on
the same date.

Dates are day numbers; the services only ever ask whether one date is before
another.

## Model

| member | source | states |
|---|---|---|
| MemberAccess.MembreDao.constructor | bibliotheque-02-MySQL/src/ca/qc/collegeahuntsic/bibliotheque/dao/MembreDAO.java:34-42 | the accessor is bound to its session and works on the given member table |
| MemberAccess.MembreDao.Existe | bibliotheque-02-MySQL/src/ca/qc/collegeahuntsic/bibliotheque/dao/MembreDAO.java:55-62 | true exactly when a row with that member id is in the table |
| MemberAccess.MembreDao.GetMembre | bibliotheque-02-MySQL/src/ca/qc/collegeahuntsic/bibliotheque/dao/MembreDAO.java:67-82 | nothing (null) exactly when the id is absent, otherwise that row unchanged (ceiling and loan count) |
| MemberAccess.MembreDao.Inscrire | bibliotheque-02-MySQL/src/ca/qc/collegeahuntsic/bibliotheque/dao/MembreDAO.java:87-101 | inserts a row with the given ceiling and no loans when the id is free; a taken id changes nothing; no other row changes |
| MemberAccess.MembreDao.Preter | bibliotheque-02-MySQL/src/ca/qc/collegeahuntsic/bibliotheque/dao/MembreDAO.java:106-110 | returns 1 and adds exactly one to that member's loan count, or returns 0 and changes nothing when the member is absent |
| MemberAccess.MembreDao.Retourner | bibliotheque-02-MySQL/src/ca/qc/collegeahuntsic/bibliotheque/dao/MembreDAO.java:115-119 | returns 1 and takes exactly one off that member's loan count, or returns 0 and changes nothing when the member is absent |
| MemberAccess.MembreDao.Desinscrire | bibliotheque-02-MySQL/src/ca/qc/collegeahuntsic/bibliotheque/dao/MembreDAO.java:124-128 | removes exactly that row; returns 1 when it existed, 0 otherwise |
| MemberAccess.LoanCounterRoundTrip | bibliotheque-02-MySQL/src/ca/qc/collegeahuntsic/bibliotheque/dao/MembreDAO.java:39-40 | counting a loan and then discounting it gives back the member table |
| BookAccess.LivreDao.constructor | bibliotheque-02-MySQL/src/ca/qc/collegeahuntsic/bibliotheque/service/LivreService.java:39 | the accessor is bound to its session (the one the book service takes over) and works on the given book table |
| BookAccess.LivreDao.Existe | bibliotheque-02-MySQL/src/ca/qc/collegeahuntsic/bibliotheque/service/LivreService.java:56 | true exactly when a book with that id is in the table |
| BookAccess.LivreDao.GetLivre | bibliotheque-02-MySQL/src/ca/qc/collegeahuntsic/bibliotheque/service/LivreService.java:81-85 | nothing (null) exactly when the id is absent, otherwise that row (borrower, loan date) |
| BookAccess.LivreDao.Acquerir | bibliotheque-02-MySQL/src/ca/qc/collegeahuntsic/bibliotheque/service/LivreService.java:62-65 | inserts a book on the shelf (no borrower, no loan date) when the id is free; a taken id changes nothing |
| BookAccess.LivreDao.Vendre | bibliotheque-02-MySQL/src/ca/qc/collegeahuntsic/bibliotheque/service/LivreService.java:99 | removes exactly that book; returns 1 when it existed, 0 otherwise |
| BookAccess.LivreDao.Preter | bibliotheque-02-MySQL/src/ca/qc/collegeahuntsic/bibliotheque/service/PretService.java:105-107 | writes borrower and loan date on that book only and returns 1, or returns 0 and changes nothing when the book is absent |
| BookAccess.LivreDao.Retourner | bibliotheque-02-MySQL/src/ca/qc/collegeahuntsic/bibliotheque/service/PretService.java:199 | puts that book back on the shelf (no borrower, no date) and returns 1, or returns 0 when it is absent |
| ReservationAccess.ReservationDao.constructor | bibliotheque-02-MySQL/src/ca/qc/collegeahuntsic/bibliotheque/service/ReservationService.java:49-50 | the accessor is bound to its session, which the services compare, and works on the given reservation table |
| ReservationAccess.ReservationDao.Existe | bibliotheque-02-MySQL/src/ca/qc/collegeahuntsic/bibliotheque/service/ReservationService.java:100 | true exactly when a reservation with that id exists |
| ReservationAccess.ReservationDao.GetReservation | bibliotheque-02-MySQL/src/ca/qc/collegeahuntsic/bibliotheque/service/ReservationService.java:130 | nothing (null) exactly when the id is absent, otherwise that row |
| ReservationAccess.ReservationDao.GetReservationLivre | bibliotheque-02-MySQL/src/ca/qc/collegeahuntsic/bibliotheque/service/ReservationService.java:137 | some reservation exactly when one exists for the book, and then the first in line: earliest date, smallest id on the same date |
| ReservationAccess.ReservationDao.GetReservationMembre | bibliotheque-02-MySQL/src/ca/qc/collegeahuntsic/bibliotheque/service/MembreService.java:93 | some reservation exactly when the member holds one, and then one of that member's |
| ReservationAccess.ReservationDao.Reserver | bibliotheque-02-MySQL/src/ca/qc/collegeahuntsic/bibliotheque/service/ReservationService.java:107-110 | inserts the reservation when its id is free; a taken id changes nothing |
| ReservationAccess.ReservationDao.AnnulerRes | bibliotheque-02-MySQL/src/ca/qc/collegeahuntsic/bibliotheque/service/ReservationService.java:202 | removes exactly that reservation; returns 1 when it existed, 0 otherwise |
| Queue.FirstIsUnique | bibliotheque-02-MySQL/src/ca/qc/collegeahuntsic/bibliotheque/service/ReservationService.java:137-138 | a book has at most one first reservation, so comparing the taken id with the first one's id decides the order check |
| Queue.ReserveKeepsFirst | bibliotheque-02-MySQL/src/ca/qc/collegeahuntsic/bibliotheque/service/ReservationService.java:107-110 | a new reservation dated after the current first one does not overtake it |
| Queue.ServeFirstPromotesNext | bibliotheque-02-MySQL/src/ca/qc/collegeahuntsic/bibliotheque/service/ReservationService.java:183-184 | once the first reservation is served and deleted, the next one in line becomes first |
| Invariants.NoLoansHoldsNothing | bibliotheque-02-MySQL/src/ca/qc/collegeahuntsic/bibliotheque/service/MembreService.java:88-92 | in a consistent library a member whose loan count is not positive is the borrower of no book, so withdrawing it leaves no book pointing at it |
| Invariants.AcquireKeeps | bibliotheque-02-MySQL/src/ca/qc/collegeahuntsic/bibliotheque/service/LivreService.java:62-66 | adding a book on the shelf keeps the tables consistent |
| Invariants.DisposeKeeps | bibliotheque-02-MySQL/src/ca/qc/collegeahuntsic/bibliotheque/service/LivreService.java:86-105 | deleting a book nobody holds and nobody reserved keeps the tables consistent |
| Invariants.EnrolKeeps | bibliotheque-02-MySQL/src/ca/qc/collegeahuntsic/bibliotheque/service/MembreService.java:64-68 | adding a member with no loans under an id other than 0 keeps the tables consistent |
| Invariants.WithdrawKeeps | bibliotheque-02-MySQL/src/ca/qc/collegeahuntsic/bibliotheque/service/MembreService.java:88-106 | deleting a member with no loans and no reservation keeps the tables consistent |
| Invariants.LendKeeps | bibliotheque-02-MySQL/src/ca/qc/collegeahuntsic/bibliotheque/service/PretService.java:71-114 | lending a book on the shelf to a member below its ceiling, and counting the loan, keeps every loan count equal to the number of books held and within the ceiling |
| Invariants.RenewKeeps | bibliotheque-02-MySQL/src/ca/qc/collegeahuntsic/bibliotheque/service/PretService.java:159-161 | rewriting the loan date of a lent book with the same borrower keeps the tables consistent |
| Invariants.ReturnKeeps | bibliotheque-02-MySQL/src/ca/qc/collegeahuntsic/bibliotheque/service/PretService.java:199-207 | the recorded borrower of a lent book is a member, and shelving the book while discounting that borrower's loan keeps the tables consistent |
| Invariants.ReserveKeeps | bibliotheque-02-MySQL/src/ca/qc/collegeahuntsic/bibliotheque/service/ReservationService.java:71-110 | adding a reservation of an existing book by an existing member keeps the tables consistent |
| Invariants.CancelKeeps | bibliotheque-02-MySQL/src/ca/qc/collegeahuntsic/bibliotheque/service/ReservationService.java:202 | deleting a reservation keeps the tables consistent |
| BookServices.LivreService.constructor | bibliotheque-02-MySQL/src/ca/qc/collegeahuntsic/bibliotheque/service/LivreService.java:37-42 | the service holds the given book and reservation accessors and checks nothing about their sessions |
| BookServices.LivreService.Acquerir | bibliotheque-02-MySQL/src/ca/qc/collegeahuntsic/bibliotheque/service/LivreService.java:48-72 | succeeds exactly when the id is free and then adds one book on the shelf; otherwise BookExists and nothing changes; consistency is kept |
| BookServices.LivreService.Vendre | bibliotheque-02-MySQL/src/ca/qc/collegeahuntsic/bibliotheque/service/LivreService.java:77-110 | BookNotFound, BookOnLoan (with the borrower) or BookReserved in that order, each with no change; when all guards pass the book is deleted, or the call fails as BookNotFound if another session deleted it first; consistency is kept |
| MemberServices.MembreService.constructor | bibliotheque-02-MySQL/src/ca/qc/collegeahuntsic/bibliotheque/service/MembreService.java:38-44 | the service holds the given member and reservation accessors and checks nothing about their sessions |
| MemberServices.MembreService.InscrireAsWritten | bibliotheque-02-MySQL/src/ca/qc/collegeahuntsic/bibliotheque/service/MembreService.java:50-73 | succeeds exactly when the id is free, 0 included, adding a member with no loans; otherwise MemberExists and nothing changes |
| MemberServices.MembreService.Inscrire | bibliotheque-02-MySQL/src/ca/qc/collegeahuntsic/bibliotheque/service/MembreService.java:50-73 | as enrolment, but id 0 is refused (MemberIdReserved); a success adds a member with no loans and keeps the tables consistent |
| MemberServices.MembreService.Desinscrire | bibliotheque-02-MySQL/src/ca/qc/collegeahuntsic/bibliotheque/service/MembreService.java:78-111 | MemberNotFound, MemberHasLoans or MemberHasReservations in that order, each with no change; when all guards pass only that member is deleted, or the call fails as MemberNotFound if another session deleted it first; consistency is kept |
| LoanServices.PretService.constructor | bibliotheque-02-MySQL/src/ca/qc/collegeahuntsic/bibliotheque/service/PretService.java:46-57 | a service can only be built over accessors that share one session, and holds exactly them |
| LoanServices.PretService.Create | bibliotheque-02-MySQL/src/ca/qc/collegeahuntsic/bibliotheque/service/PretService.java:46-57 | a service is built exactly when the three accessors share one session |
| LoanServices.PretService.Preter | bibliotheque-02-MySQL/src/ca/qc/collegeahuntsic/bibliotheque/service/PretService.java:64-120 | each guard's error in source order (book absent, book lent with its borrower, member absent, ceiling reached, book reserved) with no change; on success the book records borrower and date, the member's count goes up by one, nothing else changes and the count stays within the ceiling; a row deleted by another session rolls both writes back; consistency is kept |
| LoanServices.PretService.Renouveler | bibliotheque-02-MySQL/src/ca/qc/collegeahuntsic/bibliotheque/service/PretService.java:127-170 | book absent, not lent, no loan date, new date before the loan date, reserved: each an error with no change; on success only the loan date changes, same borrower; consistency is kept |
| LoanServices.PretService.Retourner | bibliotheque-02-MySQL/src/ca/qc/collegeahuntsic/bibliotheque/service/PretService.java:176-213 | book absent, not lent, no loan date, return date before the loan date: each an error with no change; on success the book is back on the shelf and the recorded borrower's count goes down by one; either write finding no row rolls both back; consistency is kept |
| ReservationServices.ReservationService.constructor | bibliotheque-02-MySQL/src/ca/qc/collegeahuntsic/bibliotheque/service/ReservationService.java:46-57 | a service can only be built over accessors that share one session, and holds exactly them |
| ReservationServices.ReservationService.Create | bibliotheque-02-MySQL/src/ca/qc/collegeahuntsic/bibliotheque/service/ReservationService.java:46-57 | a service is built exactly when the three accessors share one session |
| ReservationServices.ReservationService.Reserver | bibliotheque-02-MySQL/src/ca/qc/collegeahuntsic/bibliotheque/service/ReservationService.java:63-116 | each guard's error in source order (book absent, not lent, lent to this member, member absent, no loan date, date before the loan, id taken); succeeds exactly when all pass and then adds exactly that reservation; books and members untouched; consistency is kept |
| ReservationServices.ReservationService.PrendreRes | bibliotheque-02-MySQL/src/ca/qc/collegeahuntsic/bibliotheque/service/ReservationService.java:124-190 | ReservationNotFound; NotFirstInLine carrying the id of the reservation that is first; then book absent, book lent, member absent, ceiling reached, date before the reservation, each with no change; on success the book is lent to the reserving member, the count goes up by one and the reservation is deleted; consistency is kept |
| ReservationServices.ReservationService.AnnulerRes | bibliotheque-02-MySQL/src/ca/qc/collegeahuntsic/bibliotheque/service/ReservationService.java:196-213 | succeeds exactly when the reservation existed and removes only it, otherwise ReservationNotFound; consistency is kept |
| Scenarios.LendReturnRoundTrip | bibliotheque-02-MySQL/src/ca/qc/collegeahuntsic/bibliotheque/service/PretService.java:104-208 | in a consistent library, lending a book on the shelf and returning it gives back both the book table and the member table |
| Scenarios.LendThenReturn | bibliotheque-02-MySQL/src/ca/qc/collegeahuntsic/bibliotheque/service/PretService.java:64-213 | in a consistent library, with no other session at work, a loan that passes its guards followed by a return on the same or a later day both succeed and leave the library as it was |
| Scenarios.CancelTwice | bibliotheque-02-MySQL/src/ca/qc/collegeahuntsic/bibliotheque/service/ReservationService.java:196-213 | cancelling the same reservation twice: the first call succeeds exactly when it existed, the second always fails |
| Scenarios.MixedSessions | bibliotheque-02-MySQL/src/ca/qc/collegeahuntsic/bibliotheque/service/PretService.java:49-52 | accessors on two different sessions are refused by both service factories |
| Scenarios.LoanCeiling | bibliotheque-02-MySQL/src/ca/qc/collegeahuntsic/bibliotheque/service/PretService.java:76-93 | a member with ceiling 1 gets one book; asking for the same book again fails as lent to that member, asking for a second book fails on the ceiling |
| Scenarios.SellAndWithdrawAfterReturn | bibliotheque-02-MySQL/src/ca/qc/collegeahuntsic/bibliotheque/service/LivreService.java:86-91 | a lent book cannot be sold nor its borrower withdrawn; after the return both succeed and a second sale finds no book |
| Scenarios.ReserveGuards | bibliotheque-02-MySQL/src/ca/qc/collegeahuntsic/bibliotheque/service/ReservationService.java:71-97 | a book on the shelf, a book held by the requester, a date before the loan are refused; a valid reservation succeeds |
| Scenarios.ServedInOrder | bibliotheque-02-MySQL/src/ca/qc/collegeahuntsic/bibliotheque/service/ReservationService.java:136-155 | of two reservations of a returned book, the later one cannot be taken first (the error names the earlier one); the earlier one can, and the book is then out again while the later reservation becomes first in line |
| Scenarios.QueueBehindLoan | bibliotheque-02-MySQL/src/ca/qc/collegeahuntsic/bibliotheque/service/ReservationService.java:63-116 | two reservations of a lent book made through the reservation service, then the return of the book: the earlier-dated one stays first in line and the tables hold exactly the two reservations and the shelved book |
| Scenarios.DoubleReservation | bibliotheque-02-MySQL/src/ca/qc/collegeahuntsic/bibliotheque/service/ReservationService.java:63-116 | nothing refuses a second reservation of the same lent book by the same member: both are inserted, and the earlier one is first in line |
| Scenarios.OwnReservationBlocksRenewal | bibliotheque-02-MySQL/src/ca/qc/collegeahuntsic/bibliotheque/service/ReservationService.java:175-184 | after a member takes one of its two reservations of a book, the other still names it for the book it now holds, and its renewal fails with BookReserved |
| Scenarios.ZeroMemberLoanIsLost | bibliotheque-02-MySQL/src/ca/qc/collegeahuntsic/bibliotheque/service/MembreService.java:58-68 | enrolment as written accepts member 0; a book lent to 0 still reads as on the shelf and is lent again, leaving member 0 with a loan no book records |
| Scenarios.ZeroMemberRefused | bibliotheque-02-MySQL/src/ca/qc/collegeahuntsic/bibliotheque/service/MembreService.java:58-68 | the corrected enrolment refuses member 0, and a loan to 0 then fails as MemberNotFound |
| Scenarios.TakeCancelledReservation | bibliotheque-02-MySQL/src/ca/qc/collegeahuntsic/bibliotheque/service/ReservationService.java:183-185 | taking a reservation another session cancelled meanwhile still commits the loan: the delete's row count is not checked |

## Left out

- The session's JDBC plumbing is not modelled: driver loading, choice of server, auto-commit and isolation level. Commit keeps the written rows; rollback restores them.
- Failures of the store are not modelled. Every service call catches any exception and rolls back (LivreService.java:67-71, MembreService.java:107-110, PretService.java:116-119, ReservationService.java:186-189). A statement or the commit itself that throws an SQL error therefore leaves the tables unchanged. The model has no such path: its only failing writes are rows deleted by another session.
- Invariants.Consistent: bounds the loan count by the ceiling only for members that have loans. Enrolment accepts any ceiling, negative ones included (MembreService.java:50-73, MembreDAO.java:87-101). A member enrolled with a negative ceiling already has a count of 0 above it, and the loan guard then refuses it every loan.
- Other sessions are modelled only as deletions of a row this call is about to write. Concurrent inserts and updates of rows already read are not modelled, and neither is any isolation level.
- Exception messages are not modelled; errors are constructors of `Error`.
- The name and telephone of members, and the title, author and acquisition date of books, take part in no rule and are not kept.
- Parsing date strings with `Date.valueOf` is not modelled; dates arrive as ordered integers.
- Column widths are not modelled: integers are unbounded, so a loan count cannot overflow.
- The SQL of the book and reservation accessors is not part of this model. Their effects are modelled from how the services call them: lookups by id, an insert, a delete, and the two writes on a book row.
- The choice of the first reservation when two have the same date is left open by the library. It is fixed here as the smaller reservation id.
- The wiring of services in `BibliothequeCreateur` and the older facade `GestionBibliotheque` are not modelled.
- The row count of the reservation delete that ends `prendreRes` is not checked (ReservationService.java:184). A reservation cancelled meanwhile by another session therefore still lets the loan commit, and the model does the same.
- Returning a book leaves its reservations in place (PretService.java:199-207). A reservation therefore need not name a lent book, and the invariant kept only asks that it names an existing book.
- Nothing keeps a reservation from naming the member who holds its book, so the invariant kept does not ask for it. Reserving refuses only the current holder (ReservationService.java:81-85), not a member who already reserved the same book (:99-104 checks only the reservation id). Taking a reservation deletes only the one it serves (ReservationService.java:175-184). Example: member 8 reserves book 1 twice, takes the first reservation and holds the book. The second reservation still names member 8, so renewing its own loan fails with `BookReserved` (PretService.java:150-156). `Scenarios.OwnReservationBlocksRenewal` shows this.
- A lent book whose loan date is NULL makes the date comparisons throw (PretService.java:145 and :194, ReservationService.java:95). This is modelled as the error `NullLoanDate`.
- LoanServices.PretService.Preter: consistency is promised only for committed or serial calls. A call that another session interfered with ends in a state that session produced, for example a book still lent to a member it deleted.
- LoanServices.PretService.Renouveler: consistency is promised only for committed or serial calls, for the same reason.
- LoanServices.PretService.Retourner: consistency is promised only for committed or serial calls, for the same reason.
- ReservationServices.ReservationService.PrendreRes: consistency is promised only for committed or serial calls, for the same reason.

## Findings

| source | as written | input that shows it | evidently intended | confidence | as-written member | corrected member |
|---|---|---|---|---|---|---|
| bibliotheque-02-MySQL/src/ca/qc/collegeahuntsic/bibliotheque/service/MembreService.java:58-68 | enrolment accepts any free member id, 0 included, although 0 is the borrower value of a book on the shelf | enrol member 0, lend book 1 to member 0, then lend book 1 to member 5: both loans succeed, and member 0 keeps a loan count of 1 that no book records and no return can take off | member id 0 is refused (or never reaches the table) | medium (the table schema is not visible and may forbid id 0); not executed | MemberServices.MembreService.InscrireAsWritten, shown by Scenarios.ZeroMemberLoanIsLost | MemberServices.MembreService.Inscrire |
