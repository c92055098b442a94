/**
 * The order in which reservations of one book are served. The reservation
 * accessor answers "the reservation of this book" with the first one in this
 * order: the earliest reservation date, and on the same date the smaller
 * reservation id (the tie-break the library leaves open is fixed this way).
 */
module Queue {
  import opened Rows

  /** Reservation `i` is served no later than reservation `j`. */
  predicate Precedes(res: map<int, Reservation>, i: int, j: int)
    requires i in res && j in res
  {
    res[i].dateReservation < res[j].dateReservation
    || (res[i].dateReservation == res[j].dateReservation && i <= j)
  }

  /** Some reservation waits for book `idLivre`. */
  predicate HasReservationFor(res: map<int, Reservation>, idLivre: int) {
    exists i :: i in res && res[i].idLivre == idLivre
  }

  /** Member `idMembre` holds some reservation. */
  predicate HasReservationOf(res: map<int, Reservation>, idMembre: int) {
    exists i :: i in res && res[i].idMembre == idMembre
  }

  /** Reservation `i` is the first in line for book `idLivre`. */
  ghost predicate IsFirst(res: map<int, Reservation>, idLivre: int, i: int) {
    && i in res
    && res[i].idLivre == idLivre
    && forall j :: j in res && res[j].idLivre == idLivre ==> Precedes(res, i, j)
  }

  /** The order is total, so a book has at most one first reservation. */
  lemma FirstIsUnique(res: map<int, Reservation>, idLivre: int, i: int, j: int)
    requires IsFirst(res, idLivre, i) && IsFirst(res, idLivre, j)
    ensures i == j
  {
    assert Precedes(res, i, j) && Precedes(res, j, i);
  }

  /**
   * A new reservation dated strictly after the current first one does not
   * take its place.
   */
  lemma ReserveKeepsFirst(res: map<int, Reservation>, idLivre: int, f: int, i: int, r: Reservation)
    requires IsFirst(res, idLivre, f) && i !in res
    requires r.dateReservation > res[f].dateReservation
    ensures IsFirst(res[i := r], idLivre, f)
  {
    var res' := res[i := r];
    forall j | j in res' && res'[j].idLivre == idLivre
      ensures Precedes(res', f, j)
    {
      if j != i {
        assert Precedes(res, f, j);
      }
    }
  }

  /**
   * Once the first reservation is served (removed), the next one in line is
   * the first of the remaining ones: the reservation that preceded every
   * other one except the removed first.
   */
  lemma ServeFirstPromotesNext(res: map<int, Reservation>, idLivre: int, f: int, n: int)
    requires IsFirst(res, idLivre, f) && n != f
    requires n in res && res[n].idLivre == idLivre
    requires forall j :: j in res && j != f && res[j].idLivre == idLivre ==> Precedes(res, n, j)
    ensures IsFirst(res - {f}, idLivre, n)
  {
    var res' := res - {f};
    forall j | j in res' && res'[j].idLivre == idLivre
      ensures Precedes(res', n, j)
    {
      assert Precedes(res, n, j);
    }
  }
}
