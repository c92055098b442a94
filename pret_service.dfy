/**
 * The loan transactions: lending a book, renewing a loan and returning a
 * book. Each one reads the rows it needs, checks its guards in a fixed
 * order, then writes; a write that finds its row gone (deleted by another
 * session since it was read) makes the whole call roll back.
 */
module LoanServices {
  import opened Rows
  import opened Queue
  import opened Invariants
  import opened BookAccess
  import opened MemberAccess
  import opened ReservationAccess

  /** The three accessors share one session, so the service's writes form one transaction. */
  predicate SameConnexion(livre: LivreDao, membre: MembreDao, reservation: ReservationDao) {
    livre.cx == membre.cx && reservation.cx == membre.cx
  }

  /** Every guard of a loan passes: the book is on the shelf, the member below its ceiling, nobody waits for the book. */
  predicate CanLend(books: map<int, Book>, members: map<int, Member>, res: map<int, Reservation>, idLivre: int, idMembre: int) {
    Available(books, idLivre) && BelowCeiling(members, idMembre) && !HasReservationFor(res, idLivre)
  }

  /** The book is lent and `date` is not before its loan date. */
  predicate LentSince(books: map<int, Book>, idLivre: int, date: int) {
    Lent(books, idLivre) && books[idLivre].datePret.Some? && date >= books[idLivre].datePret.value
  }

  class PretService {
    const livre: LivreDao
    const membre: MembreDao
    const reservation: ReservationDao

    constructor (livre: LivreDao, membre: MembreDao, reservation: ReservationDao)
      requires SameConnexion(livre, membre, reservation)
      ensures this.livre == livre && this.membre == membre && this.reservation == reservation
    {
      this.livre := livre;
      this.membre := membre;
      this.reservation := reservation;
    }

    /** Builds the service, refusing accessors that do not share one session. */
    static method Create(livre: LivreDao, membre: MembreDao, reservation: ReservationDao) returns (s: Option<PretService>)
      ensures s.Some? <==> SameConnexion(livre, membre, reservation)
      ensures s.Some? ==> s.value.livre == livre && s.value.membre == membre && s.value.reservation == reservation
    {
      if livre.cx != membre.cx || reservation.cx != membre.cx {
        return None;
      }
      var service := new PretService(livre, membre, reservation);
      return Some(service);
    }

    /**
     * Lends a book on the shelf to a member below its loan ceiling, when
     * nobody waits for the book: the book records the borrower and the loan
     * date, the member's counter goes up by one.
     */
    method Preter(idLivre: int, idMembre: int, datePret: int, race: Race) returns (r: Outcome)
      modifies livre, membre
      ensures idLivre !in old(livre.rows) ==> r == Err(BookNotFound(idLivre))
      ensures Lent(old(livre.rows), idLivre) ==> r == Err(BookOnLoan(idLivre, old(livre.rows)[idLivre].idMembre))
      ensures Available(old(livre.rows), idLivre) && idMembre !in old(membre.rows) ==> r == Err(MemberNotFound(idMembre))
      ensures Available(old(livre.rows), idLivre) && idMembre in old(membre.rows) && !BelowCeiling(old(membre.rows), idMembre) ==>
        r == Err(LoanLimitReached(idMembre))
      ensures Available(old(livre.rows), idLivre) && BelowCeiling(old(membre.rows), idMembre) && HasReservationFor(reservation.rows, idLivre) ==>
        r == Err(BookReserved(idLivre))
      ensures !CanLend(old(livre.rows), old(membre.rows), reservation.rows, idLivre, idMembre) ==>
        livre.rows == old(livre.rows) && membre.rows == old(membre.rows)
      ensures CanLend(old(livre.rows), old(membre.rows), reservation.rows, idLivre, idMembre) && (race.bookGone || race.memberGone) ==>
        && r == Err(DeletedByOtherTransaction)
        && livre.rows == Gone(old(livre.rows), race.bookGone, idLivre)
        && membre.rows == Gone(old(membre.rows), race.memberGone, idMembre)
      ensures CanLend(old(livre.rows), old(membre.rows), reservation.rows, idLivre, idMembre) && !race.bookGone && !race.memberGone ==>
        && r == Ok
        && livre.rows == old(livre.rows)[idLivre := Book(idMembre, Some(datePret))]
        && membre.rows == WithLoans(old(membre.rows), idMembre, 1)
      ensures r.Ok? ==> idMembre in membre.rows && membre.rows[idMembre].nbPret <= membre.rows[idMembre].limitePret
      ensures (r.Ok? || race == Serial) && old(Consistent(livre.rows, membre.rows, reservation.rows)) ==>
        Consistent(livre.rows, membre.rows, reservation.rows)
    {
      ghost var books, members := livre.rows, membre.rows;
      var tupleLivre := livre.GetLivre(idLivre);
      if tupleLivre.None? {
        return Err(BookNotFound(idLivre));
      }
      if tupleLivre.value.idMembre != 0 {
        return Err(BookOnLoan(idLivre, tupleLivre.value.idMembre));
      }
      var tupleMembre := membre.GetMembre(idMembre);
      if tupleMembre.None? {
        return Err(MemberNotFound(idMembre));
      }
      if tupleMembre.value.nbPret >= tupleMembre.value.limitePret {
        return Err(LoanLimitReached(idMembre));
      }
      var tupleReservation := reservation.GetReservationLivre(idLivre);
      if tupleReservation.Some? {
        return Err(BookReserved(idLivre));
      }
      if Consistent(books, members, reservation.rows) {
        LendKeeps(books, members, reservation.rows, idLivre, idMembre, datePret);
      }
      if race.bookGone {
        // another session deletes the book and commits
        var gone := livre.Vendre(idLivre);
      }
      if race.memberGone {
        // another session deletes the member and commits
        var gone := membre.Desinscrire(idMembre);
      }
      var books0, members0 := livre.rows, membre.rows;
      var nb1 := livre.Preter(idLivre, idMembre, datePret);
      if nb1 == 0 {
        livre.rows, membre.rows := books0, members0;
        return Err(DeletedByOtherTransaction);
      }
      var nb2 := membre.Preter(idMembre);
      if nb2 == 0 {
        livre.rows, membre.rows := books0, members0;
        return Err(DeletedByOtherTransaction);
      }
      return Ok;
    }

    /**
     * Moves the loan date of a lent book to `datePret`, same borrower: the
     * new date may not be before the current one and nobody may wait for the
     * book. A lent book without a loan date cannot be compared and fails.
     */
    method Renouveler(idLivre: int, datePret: int, race: Race) returns (r: Outcome)
      modifies livre
      ensures idLivre !in old(livre.rows) ==> r == Err(BookNotFound(idLivre))
      ensures Available(old(livre.rows), idLivre) ==> r == Err(BookNotOnLoan(idLivre))
      ensures Lent(old(livre.rows), idLivre) && old(livre.rows)[idLivre].datePret.None? ==> r == Err(NullLoanDate(idLivre))
      ensures Lent(old(livre.rows), idLivre) && old(livre.rows)[idLivre].datePret.Some? && datePret < old(livre.rows)[idLivre].datePret.value ==>
        r == Err(DateBeforeLoan(idLivre))
      ensures LentSince(old(livre.rows), idLivre, datePret) && HasReservationFor(reservation.rows, idLivre) ==>
        r == Err(BookReserved(idLivre))
      ensures !LentSince(old(livre.rows), idLivre, datePret) || HasReservationFor(reservation.rows, idLivre) ==>
        livre.rows == old(livre.rows)
      ensures LentSince(old(livre.rows), idLivre, datePret) && !HasReservationFor(reservation.rows, idLivre) && race.bookGone ==>
        r == Err(DeletedByOtherTransaction) && livre.rows == old(livre.rows) - {idLivre}
      ensures LentSince(old(livre.rows), idLivre, datePret) && !HasReservationFor(reservation.rows, idLivre) && !race.bookGone ==>
        r == Ok && livre.rows == old(livre.rows)[idLivre := Book(old(livre.rows)[idLivre].idMembre, Some(datePret))]
      ensures (r.Ok? || race == Serial) && old(Consistent(livre.rows, membre.rows, reservation.rows)) ==>
        Consistent(livre.rows, membre.rows, reservation.rows)
    {
      ghost var books := livre.rows;
      var tupleLivre := livre.GetLivre(idLivre);
      if tupleLivre.None? {
        return Err(BookNotFound(idLivre));
      }
      if tupleLivre.value.idMembre == 0 {
        return Err(BookNotOnLoan(idLivre));
      }
      if tupleLivre.value.datePret.None? {
        return Err(NullLoanDate(idLivre));
      }
      if datePret < tupleLivre.value.datePret.value {
        return Err(DateBeforeLoan(idLivre));
      }
      var tupleReservation := reservation.GetReservationLivre(idLivre);
      if tupleReservation.Some? {
        return Err(BookReserved(idLivre));
      }
      if Consistent(books, membre.rows, reservation.rows) {
        RenewKeeps(books, membre.rows, reservation.rows, idLivre, datePret);
      }
      if race.bookGone {
        // another session deletes the book and commits
        var gone := livre.Vendre(idLivre);
      }
      var books0 := livre.rows;
      var nb1 := livre.Preter(idLivre, tupleLivre.value.idMembre, datePret);
      if nb1 == 0 {
        livre.rows := books0;
        return Err(DeletedByOtherTransaction);
      }
      return Ok;
    }

    /**
     * Puts a lent book back on the shelf and takes one loan off the counter
     * of the borrower recorded on the book; the return date may not be
     * before the loan date.
     */
    method Retourner(idLivre: int, dateRetour: int, race: Race) returns (r: Outcome)
      modifies livre, membre
      ensures idLivre !in old(livre.rows) ==> r == Err(BookNotFound(idLivre))
      ensures Available(old(livre.rows), idLivre) ==> r == Err(BookNotOnLoan(idLivre))
      ensures Lent(old(livre.rows), idLivre) && old(livre.rows)[idLivre].datePret.None? ==> r == Err(NullLoanDate(idLivre))
      ensures Lent(old(livre.rows), idLivre) && old(livre.rows)[idLivre].datePret.Some? && dateRetour < old(livre.rows)[idLivre].datePret.value ==>
        r == Err(DateBeforeLoan(idLivre))
      ensures !LentSince(old(livre.rows), idLivre, dateRetour) ==> livre.rows == old(livre.rows) && membre.rows == old(membre.rows)
      ensures LentSince(old(livre.rows), idLivre, dateRetour) ==>
        var borrower := old(livre.rows)[idLivre].idMembre;
        if race.bookGone then
          && r == Err(DeletedByOtherTransaction)
          && livre.rows == old(livre.rows) - {idLivre}
          && membre.rows == Gone(old(membre.rows), race.memberGone, borrower)
        else if race.memberGone || borrower !in old(membre.rows) then
          && r == Err(DeletedByOtherTransaction)
          && livre.rows == old(livre.rows)
          && membre.rows == old(membre.rows) - {borrower}
        else
          && r == Ok
          && livre.rows == old(livre.rows)[idLivre := OnShelf]
          && membre.rows == WithLoans(old(membre.rows), borrower, -1)
      ensures (r.Ok? || race == Serial) && old(Consistent(livre.rows, membre.rows, reservation.rows)) ==>
        Consistent(livre.rows, membre.rows, reservation.rows)
    {
      ghost var books, members := livre.rows, membre.rows;
      var tupleLivre := livre.GetLivre(idLivre);
      if tupleLivre.None? {
        return Err(BookNotFound(idLivre));
      }
      if tupleLivre.value.idMembre == 0 {
        return Err(BookNotOnLoan(idLivre));
      }
      if tupleLivre.value.datePret.None? {
        return Err(NullLoanDate(idLivre));
      }
      if dateRetour < tupleLivre.value.datePret.value {
        return Err(DateBeforeLoan(idLivre));
      }
      var borrower := tupleLivre.value.idMembre;
      if Consistent(books, members, reservation.rows) {
        ReturnKeeps(books, members, reservation.rows, idLivre);
      }
      if race.bookGone {
        // another session deletes the book and commits
        var gone := livre.Vendre(idLivre);
      }
      if race.memberGone {
        // another session deletes the borrower and commits
        var gone := membre.Desinscrire(borrower);
      }
      var books0, members0 := livre.rows, membre.rows;
      var nb1 := livre.Retourner(idLivre);
      if nb1 == 0 {
        livre.rows, membre.rows := books0, members0;
        return Err(DeletedByOtherTransaction);
      }
      var nb2 := membre.Retourner(borrower);
      if nb2 == 0 {
        livre.rows, membre.rows := books0, members0;
        return Err(DeletedByOtherTransaction);
      }
      return Ok;
    }
  }
}
