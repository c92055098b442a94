/**
 * The rows of the library's three tables as the service layer reads them
 * (book, member, reservation), the errors a service call ends with, and the
 * session the table accessors share.
 *
 * Dates are day numbers: the services only ever ask whether one date is
 * strictly before another (java.sql.Date.before), which is `<` on days.
 */
module Rows {

  datatype Option<+T> = None | Some(value: T)

  /**
   * A book row. `idMembre` is the borrower, 0 while the book is on the shelf;
   * `datePret` is the loan date, NULL while the book is not lent. Title,
   * author and acquisition date take part in no rule and are not kept.
   */
  datatype Book = Book(idMembre: int, datePret: Option<int>)

  /** The row of a book that nobody holds: as acquired, and as returned. */
  const OnShelf := Book(0, None)

  /** A member row: the loan ceiling and the number of loans in progress. */
  datatype Member = Member(limitePret: int, nbPret: int)

  /** A reservation row: who waits for which book, since when. */
  datatype Reservation = Reservation(idLivre: int, idMembre: int, dateReservation: int)

  /** Why a service call was rolled back (the BiblioException raised). */
  datatype Error =
    | BookExists(idLivre: int)
    | BookNotFound(idLivre: int)
    | BookOnLoan(idLivre: int, borrower: int)
    | BookNotOnLoan(idLivre: int)
    | BookReserved(idLivre: int)
    | AlreadyLentToMember(idLivre: int, idMembre: int)
    | MemberIdReserved(idMembre: int)
    | MemberExists(idMembre: int)
    | MemberNotFound(idMembre: int)
    | MemberHasLoans(idMembre: int)
    | MemberHasReservations(idMembre: int)
    | LoanLimitReached(idMembre: int)
    | DateBeforeLoan(idLivre: int)
    | DateBeforeReservation(idReservation: int)
    | ReservationExists(idReservation: int)
    | ReservationNotFound(idReservation: int)
    | NotFirstInLine(first: int)
    /** A write found its row gone: another transaction deleted it. */
    | DeletedByOtherTransaction
    /** The book is lent but its loan date is NULL: comparing dates throws. */
    | NullLoanDate(idLivre: int)

  /** How a service call ends: committed, or rolled back with an error. */
  datatype Outcome = Ok | Err(error: Error)

  /**
   * The interleaving a call runs under. Each flag says that another session
   * deleted, and committed the deletion of, one of the rows this call is
   * about to write (the book row, the member row, the reservation row) after
   * the call read it and before the call writes it. A call that stops at a
   * guard never reaches its writes, and the flags then play no part.
   */
  datatype Race = Race(bookGone: bool, memberGone: bool, reservationGone: bool)

  /** No other session interferes. */
  const Serial := Race(false, false, false)

  /** A session on the database; the accessors built on it share its transaction. */
  class Connexion {
    constructor () { }
  }

  /** Book `idLivre` exists and nobody holds it. */
  predicate Available(books: map<int, Book>, idLivre: int) {
    idLivre in books && books[idLivre].idMembre == 0
  }

  /** Book `idLivre` exists and is lent. */
  predicate Lent(books: map<int, Book>, idLivre: int) {
    idLivre in books && books[idLivre].idMembre != 0
  }

  /** Member `idMembre` exists and may take one more loan. */
  predicate BelowCeiling(members: map<int, Member>, idMembre: int) {
    idMembre in members && members[idMembre].nbPret < members[idMembre].limitePret
  }

  /** A table after another session deleted row `id` from it, when `gone`. */
  function Gone<V>(rows: map<int, V>, gone: bool, id: int): map<int, V> {
    if gone then rows - {id} else rows
  }

  /** `members` with the loan counter of `idMembre` moved by `delta`. */
  function WithLoans(members: map<int, Member>, idMembre: int, delta: int): map<int, Member>
    requires idMembre in members
  {
    members[idMembre := members[idMembre].(nbPret := members[idMembre].nbPret + delta)]
  }
}
