/**
 * The transactions on the book collection: acquiring a book and disposing
 * of one. Each call either commits all its writes or rolls them all back;
 * rolling back is modelled as putting back the rows as they stood just
 * before the call's first write (after any deletion another session made).
 */
module BookServices {
  import opened Rows
  import opened Queue
  import opened Invariants
  import opened BookAccess
  import opened ReservationAccess

  /** Every guard of a disposal passes: the book exists, nobody holds it, nobody waits for it. */
  predicate CanDispose(books: map<int, Book>, res: map<int, Reservation>, idLivre: int) {
    Available(books, idLivre) && !HasReservationFor(res, idLivre)
  }

  class LivreService {
    const livre: LivreDao
    const reservation: ReservationDao

    /** The service runs in the session of the book accessor; it makes no check on the other one. */
    constructor (livre: LivreDao, reservation: ReservationDao)
      ensures this.livre == livre && this.reservation == reservation
    {
      this.livre := livre;
      this.reservation := reservation;
    }

    /**
     * Adds a book on the shelf; a book with that id already there is an
     * error. `members` is the member table, which the call does not touch.
     */
    method Acquerir(idLivre: int, ghost members: map<int, Member>) returns (r: Outcome)
      modifies livre
      ensures r.Ok? <==> idLivre !in old(livre.rows)
      ensures r.Err? ==> r.error == BookExists(idLivre)
      ensures livre.rows == if r.Ok? then old(livre.rows)[idLivre := OnShelf] else old(livre.rows)
      ensures old(Consistent(livre.rows, members, reservation.rows)) ==> Consistent(livre.rows, members, reservation.rows)
    {
      ghost var books := livre.rows;
      var found := livre.Existe(idLivre);
      if found {
        return Err(BookExists(idLivre));
      }
      var inserted := livre.Acquerir(idLivre);
      assert inserted;
      if Consistent(books, members, reservation.rows) {
        AcquireKeeps(books, members, reservation.rows, idLivre);
      }
      return Ok;
    }

    /**
     * Removes a book from the collection: it must exist, be on the shelf and
     * have no reservation. When another session deleted the book after it was
     * read, the delete finds no row and the call fails as if it never existed.
     */
    method Vendre(idLivre: int, race: Race, ghost members: map<int, Member>) returns (r: Outcome)
      modifies livre
      ensures idLivre !in old(livre.rows) ==> r == Err(BookNotFound(idLivre))
      ensures Lent(old(livre.rows), idLivre) ==> r == Err(BookOnLoan(idLivre, old(livre.rows)[idLivre].idMembre))
      ensures Available(old(livre.rows), idLivre) && HasReservationFor(reservation.rows, idLivre) ==>
        r == Err(BookReserved(idLivre))
      ensures CanDispose(old(livre.rows), reservation.rows, idLivre) ==>
        r == if race.bookGone then Err(BookNotFound(idLivre)) else Ok
      ensures livre.rows == if CanDispose(old(livre.rows), reservation.rows, idLivre) then old(livre.rows) - {idLivre} else old(livre.rows)
      ensures old(Consistent(livre.rows, members, reservation.rows)) ==> Consistent(livre.rows, members, reservation.rows)
    {
      ghost var books := livre.rows;
      var tupleLivre := livre.GetLivre(idLivre);
      if tupleLivre.None? {
        return Err(BookNotFound(idLivre));
      }
      if tupleLivre.value.idMembre != 0 {
        return Err(BookOnLoan(idLivre, tupleLivre.value.idMembre));
      }
      var premiere := reservation.GetReservationLivre(idLivre);
      if premiere.Some? {
        return Err(BookReserved(idLivre));
      }
      if Consistent(books, members, reservation.rows) {
        DisposeKeeps(books, members, reservation.rows, idLivre);
      }
      if race.bookGone {
        // another session deletes the book and commits
        var gone := livre.Vendre(idLivre);
      }
      var snapshot := livre.rows;
      var nb := livre.Vendre(idLivre);
      if nb == 0 {
        livre.rows := snapshot;
        return Err(BookNotFound(idLivre));
      }
      return Ok;
    }
  }
}
