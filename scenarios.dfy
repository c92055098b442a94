/**
 * Sequences of service calls on small libraries, and the round trips they
 * complete: lending then returning a book gives back the tables, cancelling
 * twice fails the second time, reservations are served in order.
 */
module Scenarios {
  import opened Rows
  import opened Queue
  import opened Invariants
  import opened BookAccess
  import opened MemberAccess
  import opened ReservationAccess
  import opened BookServices
  import opened MemberServices
  import opened LoanServices
  import opened ReservationServices

  /**
   * In a consistent library a book on the shelf has no loan date, so lending
   * it and then returning it gives back both tables exactly.
   */
  lemma {:induction false} LendReturnRoundTrip(books: map<int, Book>, members: map<int, Member>, res: map<int, Reservation>,
                                               idLivre: int, idMembre: int, datePret: int)
    requires Consistent(books, members, res)
    requires Available(books, idLivre) && idMembre in members
    ensures books[idLivre := Book(idMembre, Some(datePret))][idLivre := OnShelf] == books
    ensures WithLoans(WithLoans(members, idMembre, 1), idMembre, -1) == members
  {
    assert books[idLivre] == OnShelf;
    LoanCounterRoundTrip(members, idMembre);
  }

  /**
   * Lending a book and returning it on the same or a later day, with no
   * other session at work, leaves the library as it was.
   */
  method LendThenReturn(service: PretService, idLivre: int, idMembre: int, datePret: int, dateRetour: int)
    returns (lend: Outcome, back: Outcome)
    requires datePret <= dateRetour
    modifies service.livre, service.membre
    ensures
      && old(Consistent(service.livre.rows, service.membre.rows, service.reservation.rows))
      && old(CanLend(service.livre.rows, service.membre.rows, service.reservation.rows, idLivre, idMembre))
      ==>
      && lend == Ok && back == Ok
      && service.livre.rows == old(service.livre.rows)
      && service.membre.rows == old(service.membre.rows)
  {
    ghost var books, members, res := service.livre.rows, service.membre.rows, service.reservation.rows;
    lend := service.Preter(idLivre, idMembre, datePret, Serial);
    back := service.Retourner(idLivre, dateRetour, Serial);
    if Consistent(books, members, res) && CanLend(books, members, res, idLivre, idMembre) {
      LendReturnRoundTrip(books, members, res, idLivre, idMembre, datePret);
    }
  }

  /** A reservation can be cancelled once: the second cancellation finds nothing. */
  method CancelTwice(service: ReservationService, idReservation: int) returns (first: Outcome, second: Outcome)
    modifies service.reservation
    ensures first.Ok? <==> idReservation in old(service.reservation.rows)
    ensures second == Err(ReservationNotFound(idReservation))
    ensures service.reservation.rows == old(service.reservation.rows) - {idReservation}
  {
    first := service.AnnulerRes(idReservation);
    second := service.AnnulerRes(idReservation);
  }

  /** Services over accessors on two different sessions are refused. */
  method MixedSessions() returns (loans: Option<PretService>, reservations: Option<ReservationService>)
    ensures loans.None? && reservations.None?
  {
    var cx1 := new Connexion();
    var cx2 := new Connexion();
    var livre := new LivreDao(cx1, map[]);
    var membre := new MembreDao(cx2, map[]);
    var reservation := new ReservationDao(cx2, map[]);
    loans := PretService.Create(livre, membre, reservation);
    reservations := ReservationService.Create(livre, membre, reservation);
  }

  /**
   * Member 7 may hold one book. Book 1 is lent to it; asking for book 1
   * again fails because it is out, asking for book 2 fails because 7 is at
   * its ceiling.
   */
  method LoanCeiling() returns (first: Outcome, again: Outcome, over: Outcome)
    ensures first == Ok
    ensures again == Err(BookOnLoan(1, 7))
    ensures over == Err(LoanLimitReached(7))
  {
    var cx := new Connexion();
    var livre := new LivreDao(cx, map[1 := OnShelf, 2 := OnShelf]);
    var membre := new MembreDao(cx, map[7 := Member(1, 0)]);
    var reservation := new ReservationDao(cx, map[]);
    var service := new PretService(livre, membre, reservation);
    first := service.Preter(1, 7, 10, Serial);
    again := service.Preter(1, 7, 11, Serial);
    over := service.Preter(2, 7, 11, Serial);
  }

  /**
   * A lent book cannot be sold nor its borrower withdrawn; once the book is
   * back both succeed, and the book is then gone.
   */
  method SellAndWithdrawAfterReturn() returns (sell: Outcome, withdraw: Outcome, back: Outcome,
                                               sold: Outcome, withdrawn: Outcome, resold: Outcome)
    ensures sell == Err(BookOnLoan(1, 7))
    ensures withdraw == Err(MemberHasLoans(7))
    ensures back == Ok
    ensures sold == Ok && withdrawn == Ok
    ensures resold == Err(BookNotFound(1))
  {
    var cx := new Connexion();
    var livre := new LivreDao(cx, map[1 := Book(7, Some(10))]);
    var membre := new MembreDao(cx, map[7 := Member(2, 1)]);
    var reservation := new ReservationDao(cx, map[]);
    var books := new LivreService(livre, reservation);
    var members := new MembreService(membre, reservation);
    var loans := new PretService(livre, membre, reservation);
    sell := books.Vendre(1, Serial, membre.rows);
    withdraw := members.Desinscrire(7, Serial, livre.rows);
    back := loans.Retourner(1, 12, Serial);
    sold := books.Vendre(1, Serial, membre.rows);
    withdrawn := members.Desinscrire(7, Serial, livre.rows);
    resold := books.Vendre(1, Serial, membre.rows);
  }

  /**
   * Only a lent book can be reserved, and not by the member who holds it;
   * a reservation dated before the loan is refused.
   */
  method ReserveGuards() returns (onShelf: Outcome, byHolder: Outcome, early: Outcome, ok: Outcome)
    ensures onShelf == Err(BookNotOnLoan(2))
    ensures byHolder == Err(AlreadyLentToMember(1, 7))
    ensures early == Err(DateBeforeLoan(1))
    ensures ok == Ok
  {
    var cx := new Connexion();
    var livre := new LivreDao(cx, map[1 := Book(7, Some(10)), 2 := OnShelf]);
    var membre := new MembreDao(cx, map[7 := Member(2, 1), 8 := Member(2, 0)]);
    var reservation := new ReservationDao(cx, map[]);
    var service := new ReservationService(livre, membre, reservation);
    onShelf := service.Reserver(1, 2, 8, 11);
    byHolder := service.Reserver(1, 1, 7, 11);
    early := service.Reserver(1, 1, 8, 9);
    ok := service.Reserver(1, 1, 8, 11);
  }

  /**
   * Book 1 is lent to member 7; member 8 reserves it on day 11, member 9 on
   * day 12, and the book is returned on day 13. Member 8's reservation stays
   * first in line when member 9's is added.
   */
  method QueueBehindLoan() returns (livre: LivreDao, membre: MembreDao, reservation: ReservationDao)
    ensures fresh(livre) && fresh(membre) && fresh(reservation)
    ensures SameConnexion(livre, membre, reservation)
    ensures livre.rows == map[1 := OnShelf]
    ensures membre.rows == map[7 := Member(2, 0), 8 := Member(2, 0), 9 := Member(2, 0)]
    ensures reservation.rows == map[1 := Reservation(1, 8, 11), 2 := Reservation(1, 9, 12)]
    ensures IsFirst(reservation.rows, 1, 1)
  {
    var cx := new Connexion();
    livre := new LivreDao(cx, map[1 := Book(7, Some(10))]);
    membre := new MembreDao(cx, map[7 := Member(2, 1), 8 := Member(2, 0), 9 := Member(2, 0)]);
    reservation := new ReservationDao(cx, map[]);
    var service := new ReservationService(livre, membre, reservation);
    var early := service.Reserver(1, 1, 8, 11);
    assert IsFirst(reservation.rows, 1, 1);
    var later := service.Reserver(2, 1, 9, 12);
    ReserveKeepsFirst(map[1 := Reservation(1, 8, 11)], 1, 1, 2, Reservation(1, 9, 12));
    var loans := new PretService(livre, membre, reservation);
    var back := loans.Retourner(1, 13, Serial);
  }

  /**
   * With the queue above, member 9's reservation cannot be taken before
   * member 8's; member 8's can, and then the book is out again, so member
   * 9, now first in line, has to wait.
   */
  method ServedInOrder() returns (second: Outcome, first: Outcome, late: Outcome)
    ensures second == Err(NotFirstInLine(1))
    ensures first == Ok
    ensures late == Err(BookOnLoan(1, 8))
  {
    var livre, membre, reservation := QueueBehindLoan();
    var service := new ReservationService(livre, membre, reservation);
    second := service.PrendreRes(2, 14, Serial);
    FirstIsUnique(reservation.rows, 1, 1, second.error.first);
    ghost var queued := reservation.rows;
    first := service.PrendreRes(1, 14, Serial);
    ServeFirstPromotesNext(queued, 1, 1, 2);
    late := service.PrendreRes(2, 15, Serial);
  }

  /**
   * Book 1 is lent to member 7; member 8 reserves it twice, on day 11 and on
   * day 12 (nothing refuses a second reservation of the same book by the
   * same member), and the book is returned on day 13.
   */
  method DoubleReservation() returns (livre: LivreDao, membre: MembreDao, reservation: ReservationDao)
    ensures fresh(livre) && fresh(membre) && fresh(reservation)
    ensures SameConnexion(livre, membre, reservation)
    ensures livre.rows == map[1 := OnShelf]
    ensures membre.rows == map[7 := Member(2, 0), 8 := Member(2, 0)]
    ensures reservation.rows == map[1 := Reservation(1, 8, 11), 2 := Reservation(1, 8, 12)]
    ensures IsFirst(reservation.rows, 1, 1)
  {
    var cx := new Connexion();
    livre := new LivreDao(cx, map[1 := Book(7, Some(10))]);
    membre := new MembreDao(cx, map[7 := Member(2, 1), 8 := Member(2, 0)]);
    reservation := new ReservationDao(cx, map[]);
    var service := new ReservationService(livre, membre, reservation);
    var early := service.Reserver(1, 1, 8, 11);
    assert IsFirst(reservation.rows, 1, 1);
    var later := service.Reserver(2, 1, 8, 12);
    ReserveKeepsFirst(map[1 := Reservation(1, 8, 11)], 1, 1, 2, Reservation(1, 8, 12));
    var loans := new PretService(livre, membre, reservation);
    var back := loans.Retourner(1, 13, Serial);
  }

  /**
   * With the two reservations above, member 8 takes the first one and holds
   * book 1; the second still names member 8 for book 1, so member 8 cannot
   * renew its own loan.
   */
  method OwnReservationBlocksRenewal() returns (taken: Outcome, holder: int, leftover: Reservation, renewal: Outcome)
    ensures taken == Ok && holder == 8
    ensures leftover == Reservation(1, 8, 12)
    ensures renewal == Err(BookReserved(1))
  {
    var livre, membre, reservation := DoubleReservation();
    var service := new ReservationService(livre, membre, reservation);
    var loans := new PretService(livre, membre, reservation);
    taken := service.PrendreRes(1, 14, Serial);
    holder := livre.rows[1].idMembre;
    leftover := reservation.rows[2];
    renewal := loans.Renouveler(1, 15, Serial);
  }

  /**
   * Enrolment as written accepts member id 0. Lending book 1 to member 0
   * writes 0 as the borrower, which reads as "on the shelf": the book is
   * then lent again to member 5, and member 0 keeps a loan no book records.
   */
  method ZeroMemberLoanIsLost() returns (enrol: Outcome, first: Outcome, second: Outcome, holder: int, zeroLoans: int)
    ensures enrol == Ok && first == Ok && second == Ok
    ensures holder == 5 && zeroLoans == 1
  {
    var cx := new Connexion();
    var livre := new LivreDao(cx, map[1 := OnShelf]);
    var membre := new MembreDao(cx, map[5 := Member(3, 0)]);
    var reservation := new ReservationDao(cx, map[]);
    var members := new MembreService(membre, reservation);
    var loans := new PretService(livre, membre, reservation);
    enrol := members.InscrireAsWritten(0, 3);
    first := loans.Preter(1, 0, 10, Serial);
    second := loans.Preter(1, 5, 11, Serial);
    holder := livre.rows[1].idMembre;
    zeroLoans := membre.rows[0].nbPret;
  }

  /** The corrected enrolment refuses id 0, so the same loan is refused too. */
  method ZeroMemberRefused() returns (enrol: Outcome, loan: Outcome)
    ensures enrol == Err(MemberIdReserved(0))
    ensures loan == Err(MemberNotFound(0))
  {
    var cx := new Connexion();
    var livre := new LivreDao(cx, map[1 := OnShelf]);
    var membre := new MembreDao(cx, map[5 := Member(3, 0)]);
    var reservation := new ReservationDao(cx, map[]);
    var members := new MembreService(membre, reservation);
    var loans := new PretService(livre, membre, reservation);
    enrol := members.Inscrire(0, 3, livre.rows);
    loan := loans.Preter(1, 0, 10, Serial);
  }

  /**
   * Taking a reservation that another session cancelled meanwhile still
   * commits the loan: the result of deleting the reservation is not checked.
   */
  method TakeCancelledReservation() returns (taken: Outcome, holder: int)
    ensures taken == Ok && holder == 8
  {
    var cx := new Connexion();
    var livre := new LivreDao(cx, map[1 := OnShelf]);
    var membre := new MembreDao(cx, map[8 := Member(2, 0)]);
    var reservation := new ReservationDao(cx, map[1 := Reservation(1, 8, 11)]);
    var service := new ReservationService(livre, membre, reservation);
    assert IsFirst(reservation.rows, 1, 1);
    taken := service.PrendreRes(1, 12, Race(false, false, true));
    holder := livre.rows[1].idMembre;
  }
}
