/**
 * The transactions on the membership: enrolling a member and withdrawing
 * one. Each call either commits all its writes or rolls them all back.
 */
module MemberServices {
  import opened Rows
  import opened Queue
  import opened Invariants
  import opened MemberAccess
  import opened ReservationAccess

  /** Every guard of a withdrawal passes: the member exists, has no loan and no reservation. */
  predicate CanWithdraw(members: map<int, Member>, res: map<int, Reservation>, idMembre: int) {
    idMembre in members && members[idMembre].nbPret <= 0 && !HasReservationOf(res, idMembre)
  }

  class MembreService {
    const membre: MembreDao
    const reservation: ReservationDao

    /** The service runs in the session of the member accessor; it makes no check on the other one. */
    constructor (membre: MembreDao, reservation: ReservationDao)
      ensures this.membre == membre && this.reservation == reservation
    {
      this.membre := membre;
      this.reservation := reservation;
    }

    /**
     * Enrolment as the service performs it: any id not yet taken is accepted,
     * 0 included, although 0 is the borrower value of a book on the shelf.
     */
    method InscrireAsWritten(idMembre: int, limitePret: int) returns (r: Outcome)
      modifies membre
      ensures r.Ok? <==> idMembre !in old(membre.rows)
      ensures r.Err? ==> r.error == MemberExists(idMembre)
      ensures membre.rows == if r.Ok? then old(membre.rows)[idMembre := Member(limitePret, 0)] else old(membre.rows)
    {
      var found := membre.Existe(idMembre);
      if found {
        return Err(MemberExists(idMembre));
      }
      var inserted := membre.Inscrire(idMembre, limitePret);
      assert inserted;
      return Ok;
    }

    /**
     * Enrolment with the id 0 refused, so that a member can never be taken
     * for the shelf: the new member has no loans and the tables stay
     * consistent. `books` is the book table, which the call does not touch.
     */
    method Inscrire(idMembre: int, limitePret: int, ghost books: map<int, Book>) returns (r: Outcome)
      modifies membre
      ensures idMembre == 0 ==> r == Err(MemberIdReserved(idMembre))
      ensures idMembre != 0 && idMembre in old(membre.rows) ==> r == Err(MemberExists(idMembre))
      ensures r.Ok? <==> idMembre != 0 && idMembre !in old(membre.rows)
      ensures membre.rows == if r.Ok? then old(membre.rows)[idMembre := Member(limitePret, 0)] else old(membre.rows)
      ensures old(Consistent(books, membre.rows, reservation.rows)) ==> Consistent(books, membre.rows, reservation.rows)
    {
      ghost var members := membre.rows;
      if idMembre == 0 {
        return Err(MemberIdReserved(idMembre));
      }
      var found := membre.Existe(idMembre);
      if found {
        return Err(MemberExists(idMembre));
      }
      var inserted := membre.Inscrire(idMembre, limitePret);
      assert inserted;
      if Consistent(books, members, reservation.rows) {
        EnrolKeeps(books, members, reservation.rows, idMembre, limitePret);
      }
      return Ok;
    }

    /**
     * Withdraws a member: it must exist, have no loan in progress and no
     * reservation. When another session deleted the member after it was read,
     * the delete finds no row and the call fails as if it never existed.
     */
    method Desinscrire(idMembre: int, race: Race, ghost books: map<int, Book>) returns (r: Outcome)
      modifies membre
      ensures idMembre !in old(membre.rows) ==> r == Err(MemberNotFound(idMembre))
      ensures idMembre in old(membre.rows) && old(membre.rows)[idMembre].nbPret > 0 ==> r == Err(MemberHasLoans(idMembre))
      ensures idMembre in old(membre.rows) && old(membre.rows)[idMembre].nbPret <= 0 && HasReservationOf(reservation.rows, idMembre) ==>
        r == Err(MemberHasReservations(idMembre))
      ensures CanWithdraw(old(membre.rows), reservation.rows, idMembre) ==>
        r == if race.memberGone then Err(MemberNotFound(idMembre)) else Ok
      ensures membre.rows == if CanWithdraw(old(membre.rows), reservation.rows, idMembre) then old(membre.rows) - {idMembre} else old(membre.rows)
      ensures old(Consistent(books, membre.rows, reservation.rows)) ==> Consistent(books, membre.rows, reservation.rows)
    {
      ghost var members := membre.rows;
      var tupleMembre := membre.GetMembre(idMembre);
      if tupleMembre.None? {
        return Err(MemberNotFound(idMembre));
      }
      if tupleMembre.value.nbPret > 0 {
        return Err(MemberHasLoans(idMembre));
      }
      var some := reservation.GetReservationMembre(idMembre);
      if some.Some? {
        return Err(MemberHasReservations(idMembre));
      }
      if Consistent(books, members, reservation.rows) {
        WithdrawKeeps(books, members, reservation.rows, idMembre);
      }
      if race.memberGone {
        // another session deletes the member and commits
        var gone := membre.Desinscrire(idMembre);
      }
      var snapshot := membre.rows;
      var nb := membre.Desinscrire(idMembre);
      if nb == 0 {
        membre.rows := snapshot;
        return Err(MemberNotFound(idMembre));
      }
      return Ok;
    }
  }
}
