/**
 * The reservation transactions: reserving a lent book, taking a reservation
 * (the book is lent to the member who reserved it, who must be first in
 * line), and cancelling a reservation.
 */
module ReservationServices {
  import opened Rows
  import opened Queue
  import opened Invariants
  import opened BookAccess
  import opened MemberAccess
  import opened ReservationAccess
  import LoanServices

  /**
   * Every guard of a reservation passes: the book is lent, not to this
   * member, since a date not after `dateReservation`; the member exists; the
   * reservation id is free.
   */
  predicate CanReserve(books: map<int, Book>, members: map<int, Member>, res: map<int, Reservation>,
                       idReservation: int, idLivre: int, idMembre: int, dateReservation: int) {
    && LoanServices.LentSince(books, idLivre, dateReservation)
    && books[idLivre].idMembre != idMembre
    && idMembre in members
    && idReservation !in res
  }

  /**
   * Every guard of taking reservation `idReservation` passes: it exists and
   * is first in line for its book, the book is on the shelf, the member is
   * below its ceiling and `datePret` is not before the reservation date.
   */
  ghost predicate CanTake(books: map<int, Book>, members: map<int, Member>, res: map<int, Reservation>,
                          idReservation: int, datePret: int) {
    && idReservation in res
    && IsFirst(res, res[idReservation].idLivre, idReservation)
    && Available(books, res[idReservation].idLivre)
    && BelowCeiling(members, res[idReservation].idMembre)
    && datePret >= res[idReservation].dateReservation
  }

  class ReservationService {
    const livre: LivreDao
    const membre: MembreDao
    const reservation: ReservationDao

    constructor (livre: LivreDao, membre: MembreDao, reservation: ReservationDao)
      requires LoanServices.SameConnexion(livre, membre, reservation)
      ensures this.livre == livre && this.membre == membre && this.reservation == reservation
    {
      this.livre := livre;
      this.membre := membre;
      this.reservation := reservation;
    }

    /** Builds the service, refusing accessors that do not share one session. */
    static method Create(livre: LivreDao, membre: MembreDao, reservation: ReservationDao) returns (s: Option<ReservationService>)
      ensures s.Some? <==> LoanServices.SameConnexion(livre, membre, reservation)
      ensures s.Some? ==> s.value.livre == livre && s.value.membre == membre && s.value.reservation == reservation
    {
      if livre.cx != membre.cx || reservation.cx != membre.cx {
        return None;
      }
      var service := new ReservationService(livre, membre, reservation);
      return Some(service);
    }

    /**
     * Records that member `idMembre` waits, since `dateReservation`, for
     * book `idLivre`, which someone else holds.
     */
    method Reserver(idReservation: int, idLivre: int, idMembre: int, dateReservation: int) returns (r: Outcome)
      modifies reservation
      ensures idLivre !in livre.rows ==> r == Err(BookNotFound(idLivre))
      ensures Available(livre.rows, idLivre) ==> r == Err(BookNotOnLoan(idLivre))
      ensures Lent(livre.rows, idLivre) && livre.rows[idLivre].idMembre == idMembre ==> r == Err(AlreadyLentToMember(idLivre, idMembre))
      ensures Lent(livre.rows, idLivre) && livre.rows[idLivre].idMembre != idMembre && idMembre !in membre.rows ==>
        r == Err(MemberNotFound(idMembre))
      ensures Lent(livre.rows, idLivre) && livre.rows[idLivre].idMembre != idMembre && idMembre in membre.rows ==>
        var datePret := livre.rows[idLivre].datePret;
        && (datePret.None? ==> r == Err(NullLoanDate(idLivre)))
        && (datePret.Some? && dateReservation < datePret.value ==> r == Err(DateBeforeLoan(idLivre)))
        && (datePret.Some? && dateReservation >= datePret.value && idReservation in old(reservation.rows) ==>
              r == Err(ReservationExists(idReservation)))
      ensures r.Ok? <==> CanReserve(livre.rows, membre.rows, old(reservation.rows), idReservation, idLivre, idMembre, dateReservation)
      ensures reservation.rows ==
        if r.Ok? then old(reservation.rows)[idReservation := Reservation(idLivre, idMembre, dateReservation)] else old(reservation.rows)
      ensures old(Consistent(livre.rows, membre.rows, reservation.rows)) ==> Consistent(livre.rows, membre.rows, reservation.rows)
    {
      ghost var res := reservation.rows;
      var tupleLivre := livre.GetLivre(idLivre);
      if tupleLivre.None? {
        return Err(BookNotFound(idLivre));
      }
      if tupleLivre.value.idMembre == 0 {
        return Err(BookNotOnLoan(idLivre));
      }
      if tupleLivre.value.idMembre == idMembre {
        return Err(AlreadyLentToMember(idLivre, idMembre));
      }
      var tupleMembre := membre.GetMembre(idMembre);
      if tupleMembre.None? {
        return Err(MemberNotFound(idMembre));
      }
      if tupleLivre.value.datePret.None? {
        return Err(NullLoanDate(idLivre));
      }
      if dateReservation < tupleLivre.value.datePret.value {
        return Err(DateBeforeLoan(idLivre));
      }
      var found := reservation.Existe(idReservation);
      if found {
        return Err(ReservationExists(idReservation));
      }
      var inserted := reservation.Reserver(idReservation, idLivre, idMembre, dateReservation);
      assert inserted;
      if Consistent(livre.rows, membre.rows, res) {
        ReserveKeeps(livre.rows, membre.rows, res, idReservation, Reservation(idLivre, idMembre, dateReservation));
      }
      return Ok;
    }

    /**
     * Serves reservation `idReservation`: when it is first in line for its
     * book, the book is on the shelf and the member below its ceiling, the
     * book is lent to the member on `datePret`, the loan is counted and the
     * reservation is deleted. Whether that delete found its row is not
     * looked at: a reservation deleted meanwhile by another session does not
     * stop the call.
     */
    method PrendreRes(idReservation: int, datePret: int, race: Race) returns (r: Outcome)
      modifies livre, membre, reservation
      ensures idReservation !in old(reservation.rows) ==> r == Err(ReservationNotFound(idReservation))
      ensures idReservation in old(reservation.rows) ==>
        var res := old(reservation.rows);
        var idLivre := res[idReservation].idLivre;
        !IsFirst(res, idLivre, idReservation) ==> r.Err? && r.error.NotFirstInLine? && IsFirst(res, idLivre, r.error.first)
      ensures idReservation in old(reservation.rows) && IsFirst(old(reservation.rows), old(reservation.rows)[idReservation].idLivre, idReservation) ==>
        var res, books, members := old(reservation.rows), old(livre.rows), old(membre.rows);
        var idLivre, idMembre := res[idReservation].idLivre, res[idReservation].idMembre;
        && (idLivre !in books ==> r == Err(BookNotFound(idLivre)))
        && (Lent(books, idLivre) ==> r == Err(BookOnLoan(idLivre, books[idLivre].idMembre)))
        && (Available(books, idLivre) && idMembre !in members ==> r == Err(MemberNotFound(idMembre)))
        && (Available(books, idLivre) && idMembre in members && !BelowCeiling(members, idMembre) ==> r == Err(LoanLimitReached(idMembre)))
        && (Available(books, idLivre) && BelowCeiling(members, idMembre) && datePret < res[idReservation].dateReservation ==>
              r == Err(DateBeforeReservation(idReservation)))
      ensures !CanTake(old(livre.rows), old(membre.rows), old(reservation.rows), idReservation, datePret) ==>
        livre.rows == old(livre.rows) && membre.rows == old(membre.rows) && reservation.rows == old(reservation.rows)
      ensures CanTake(old(livre.rows), old(membre.rows), old(reservation.rows), idReservation, datePret) ==>
        var res := old(reservation.rows);
        var idLivre, idMembre := res[idReservation].idLivre, res[idReservation].idMembre;
        if race.bookGone || race.memberGone then
          && r == Err(DeletedByOtherTransaction)
          && livre.rows == Gone(old(livre.rows), race.bookGone, idLivre)
          && membre.rows == Gone(old(membre.rows), race.memberGone, idMembre)
          && reservation.rows == Gone(res, race.reservationGone, idReservation)
        else
          && r == Ok
          && livre.rows == old(livre.rows)[idLivre := Book(idMembre, Some(datePret))]
          && membre.rows == WithLoans(old(membre.rows), idMembre, 1)
          && reservation.rows == res - {idReservation}
      ensures (r.Ok? || race == Serial) && old(Consistent(livre.rows, membre.rows, reservation.rows)) ==>
        Consistent(livre.rows, membre.rows, reservation.rows)
    {
      ghost var books, members, res := livre.rows, membre.rows, reservation.rows;
      var tupleReservation := reservation.GetReservation(idReservation);
      if tupleReservation.None? {
        return Err(ReservationNotFound(idReservation));
      }
      var idLivre, idMembre := tupleReservation.value.idLivre, tupleReservation.value.idMembre;
      assert res[idReservation].idLivre == idLivre;
      var premiere := reservation.GetReservationLivre(idLivre);
      if premiere.value != idReservation {
        if IsFirst(res, idLivre, idReservation) {
          FirstIsUnique(res, idLivre, idReservation, premiere.value);
        }
        return Err(NotFirstInLine(premiere.value));
      }
      var tupleLivre := livre.GetLivre(idLivre);
      if tupleLivre.None? {
        return Err(BookNotFound(idLivre));
      }
      if tupleLivre.value.idMembre != 0 {
        return Err(BookOnLoan(idLivre, tupleLivre.value.idMembre));
      }
      var tupleMembre := membre.GetMembre(idMembre);
      if tupleMembre.None? {
        return Err(MemberNotFound(idMembre));
      }
      if tupleMembre.value.nbPret >= tupleMembre.value.limitePret {
        return Err(LoanLimitReached(idMembre));
      }
      if datePret < tupleReservation.value.dateReservation {
        return Err(DateBeforeReservation(idReservation));
      }
      if Consistent(books, members, res) {
        LendKeeps(books, members, res, idLivre, idMembre, datePret);
        CancelKeeps(books[idLivre := Book(idMembre, Some(datePret))], WithLoans(members, idMembre, 1), res, idReservation);
      }
      if race.bookGone {
        // another session deletes the book and commits
        var gone := livre.Vendre(idLivre);
      }
      if race.memberGone {
        // another session deletes the member and commits
        var gone := membre.Desinscrire(idMembre);
      }
      if race.reservationGone {
        // another session cancels the reservation and commits
        var gone := reservation.AnnulerRes(idReservation);
      }
      var books0, members0, res0 := livre.rows, membre.rows, reservation.rows;
      var nb1 := livre.Preter(idLivre, idMembre, datePret);
      if nb1 == 0 {
        livre.rows, membre.rows, reservation.rows := books0, members0, res0;
        return Err(DeletedByOtherTransaction);
      }
      var nb2 := membre.Preter(idMembre);
      if nb2 == 0 {
        livre.rows, membre.rows, reservation.rows := books0, members0, res0;
        return Err(DeletedByOtherTransaction);
      }
      var nb3 := reservation.AnnulerRes(idReservation);
      return Ok;
    }

    /** Deletes a reservation; one that does not exist is an error. */
    method AnnulerRes(idReservation: int) returns (r: Outcome)
      modifies reservation
      ensures r.Ok? <==> idReservation in old(reservation.rows)
      ensures r.Err? ==> r.error == ReservationNotFound(idReservation)
      ensures reservation.rows == old(reservation.rows) - {idReservation}
      ensures old(Consistent(livre.rows, membre.rows, reservation.rows)) ==> Consistent(livre.rows, membre.rows, reservation.rows)
    {
      ghost var res := reservation.rows;
      var res0 := reservation.rows;
      var nb := reservation.AnnulerRes(idReservation);
      if nb == 0 {
        reservation.rows := res0;
        return Err(ReservationNotFound(idReservation));
      }
      if Consistent(livre.rows, membre.rows, res) {
        CancelKeeps(livre.rows, membre.rows, res, idReservation);
      }
      return Ok;
    }
  }
}
