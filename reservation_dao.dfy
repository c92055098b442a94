/**
 * The reservation table and its accessor, as the services use it: lookups
 * by reservation id, by book (the first in line) and by member, an insert
 * and a delete.
 */
module ReservationAccess {
  import opened Rows
  import opened Queue

  /** A non-empty set has an element (used to pick the next row of a scan). */
  lemma HasElement(s: set<int>)
    requires s != {}
    ensures exists x :: x in s
  {
    if forall x :: x !in s {
      assert false;
    }
  }

  class ReservationDao {
    /** The session the statements run in. */
    const cx: Connexion
    /** The reservation table, by reservation id. */
    var rows: map<int, Reservation>

    constructor (cx: Connexion, rows: map<int, Reservation>)
      ensures this.cx == cx && this.rows == rows
    {
      this.cx := cx;
      this.rows := rows;
    }

    /** Whether a reservation with this id exists. */
    method Existe(idReservation: int) returns (found: bool)
      ensures found <==> idReservation in rows
    {
      found := idReservation in rows;
    }

    /** The reservation's row, or nothing (null) when no such reservation. */
    method GetReservation(idReservation: int) returns (tuple: Option<Reservation>)
      ensures tuple.None? <==> idReservation !in rows
      ensures tuple.Some? ==> tuple.value == rows[idReservation]
    {
      if idReservation in rows {
        tuple := Some(rows[idReservation]);
      } else {
        tuple := None;
      }
    }

    /**
     * The id of the first reservation in line for the book, or nothing when
     * no one waits for it: the rows of the book are scanned once, keeping the
     * one that precedes all those seen so far.
     */
    method GetReservationLivre(idLivre: int) returns (first: Option<int>)
      ensures first.Some? ==> HasReservationFor(rows, idLivre)
      ensures HasReservationFor(rows, idLivre) ==> first.Some?
      ensures first.Some? ==> IsFirst(rows, idLivre, first.value)
    {
      first := None;
      var pending := rows.Keys;
      while pending != {}
        invariant pending <= rows.Keys
        invariant first.None? ==> forall j :: j in rows.Keys - pending ==> rows[j].idLivre != idLivre
        invariant first.Some? ==> first.value in rows.Keys - pending && rows[first.value].idLivre == idLivre
        invariant first.Some? ==>
          forall j :: j in rows.Keys - pending && rows[j].idLivre == idLivre ==> Precedes(rows, first.value, j)
        decreases pending
      {
        HasElement(pending);
        var i :| i in pending;
        if rows[i].idLivre == idLivre && (first.None? || Precedes(rows, i, first.value)) {
          first := Some(i);
        }
        pending := pending - {i};
      }
      assert forall j :: j in rows ==> j in rows.Keys - pending;
      if first.Some? {
        var f := first.value;
        assert f in rows && rows[f].idLivre == idLivre;
      }
    }

    /** The id of some reservation the member holds, or nothing when it holds none. */
    method GetReservationMembre(idMembre: int) returns (some: Option<int>)
      ensures some.Some? <==> HasReservationOf(rows, idMembre)
      ensures some.Some? ==> some.value in rows && rows[some.value].idMembre == idMembre
    {
      if HasReservationOf(rows, idMembre) {
        var i :| i in rows && rows[i].idMembre == idMembre;
        some := Some(i);
      } else {
        some := None;
      }
    }

    /**
     * Inserts a reservation. A duplicate id violates the table's key: the
     * insert fails (`inserted` is false) and changes nothing.
     */
    method Reserver(idReservation: int, idLivre: int, idMembre: int, dateReservation: int) returns (inserted: bool)
      modifies this
      ensures inserted <==> idReservation !in old(rows)
      ensures rows == if inserted then old(rows)[idReservation := Reservation(idLivre, idMembre, dateReservation)] else old(rows)
    {
      inserted := idReservation !in rows;
      if inserted {
        rows := rows[idReservation := Reservation(idLivre, idMembre, dateReservation)];
      }
    }

    /** Deletes the reservation; the number of rows deleted. */
    method AnnulerRes(idReservation: int) returns (nb: int)
      modifies this
      ensures nb == if idReservation in old(rows) then 1 else 0
      ensures rows == old(rows) - {idReservation}
    {
      nb := if idReservation in rows then 1 else 0;
      rows := rows - {idReservation};
    }
  }
}
