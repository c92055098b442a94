/**
 * What holds of the three tables after every committed call, and, for each
 * kind of write a service commits, the proof that the write keeps it.
 */
module Invariants {
  import opened Rows
  import opened Queue

  /** The books whose borrower is `idMembre`. */
  function LentTo(books: map<int, Book>, idMembre: int): set<int> {
    set b | b in books && books[b].idMembre == idMembre
  }

  /**
   * The tables are consistent:
   *  - no member has id 0, the borrower value that means "on the shelf";
   *  - a book has a loan date exactly when it has a borrower;
   *  - every borrower is a member;
   *  - a member's loan counter is the number of books it holds;
   *  - a member with loans holds no more than its ceiling;
   *  - every reservation names an existing book and an existing member.
   */
  ghost predicate Consistent(books: map<int, Book>, members: map<int, Member>, res: map<int, Reservation>) {
    && 0 !in members
    && (forall b :: b in books ==> (books[b].idMembre == 0 <==> books[b].datePret.None?))
    && (forall b :: b in books && books[b].idMembre != 0 ==> books[b].idMembre in members)
    && (forall m :: m in members ==> members[m].nbPret == |LentTo(books, m)|)
    && (forall m :: m in members ==> members[m].nbPret == 0 || members[m].nbPret <= members[m].limitePret)
    && (forall i :: i in res ==> res[i].idLivre in books && res[i].idMembre in members)
  }

  /** Writing one book row moves that book into or out of a member's set. */
  lemma LentToAfterWrite(books: map<int, Book>, b: int, book: Book, m: int)
    ensures LentTo(books[b := book], m)
         == if book.idMembre == m then LentTo(books, m) + {b} else LentTo(books, m) - {b}
  {
  }

  /** Deleting one book row takes that book out of every member's set. */
  lemma LentToAfterDelete(books: map<int, Book>, b: int, m: int)
    ensures LentTo(books - {b}, m) == LentTo(books, m) - {b}
  {
  }

  /** A member of a consistent library holds a set of books of the size of its counter, so one with no loans holds none. */
  lemma NoLoansHoldsNothing(books: map<int, Book>, members: map<int, Member>, res: map<int, Reservation>, m: int)
    requires Consistent(books, members, res) && m in members && members[m].nbPret <= 0
    ensures forall b :: b in books ==> books[b].idMembre != m
  {
    assert LentTo(books, m) == {};
    forall b | b in books ensures books[b].idMembre != m {
      assert books[b].idMembre == m ==> b in LentTo(books, m);
    }
  }

  /** Adding a book on the shelf (acquerir). */
  lemma {:induction false} AcquireKeeps(books: map<int, Book>, members: map<int, Member>, res: map<int, Reservation>, b: int)
    requires Consistent(books, members, res) && b !in books
    ensures Consistent(books[b := OnShelf], members, res)
  {
    var books' := books[b := OnShelf];
    forall m | m in members ensures members[m].nbPret == |LentTo(books', m)| {
      LentToAfterWrite(books, b, OnShelf, m);
      assert b !in LentTo(books, m);
    }
  }

  /** Deleting a book nobody holds and nobody waits for (vendre). */
  lemma {:induction false} DisposeKeeps(books: map<int, Book>, members: map<int, Member>, res: map<int, Reservation>, b: int)
    requires Consistent(books, members, res)
    requires b in books && books[b].idMembre == 0 && !HasReservationFor(res, b)
    ensures Consistent(books - {b}, members, res)
  {
    var books' := books - {b};
    forall m | m in members ensures members[m].nbPret == |LentTo(books', m)| {
      LentToAfterDelete(books, b, m);
      assert b !in LentTo(books, m);
    }
    forall i | i in res ensures res[i].idLivre in books' {
      assert res[i].idLivre != b;
    }
  }

  /** Adding a member with no loans under a non-zero id (inscrire). */
  lemma {:induction false} EnrolKeeps(books: map<int, Book>, members: map<int, Member>, res: map<int, Reservation>, m: int, limitePret: int)
    requires Consistent(books, members, res) && m !in members && m != 0
    ensures Consistent(books, members[m := Member(limitePret, 0)], res)
  {
    assert forall b :: b in books ==> books[b].idMembre != m;
    assert LentTo(books, m) == {};
  }

  /** Deleting a member with no loans and no reservation (desinscrire). */
  lemma {:induction false} WithdrawKeeps(books: map<int, Book>, members: map<int, Member>, res: map<int, Reservation>, m: int)
    requires Consistent(books, members, res)
    requires m in members && members[m].nbPret <= 0 && !HasReservationOf(res, m)
    ensures Consistent(books, members - {m}, res)
  {
    NoLoansHoldsNothing(books, members, res, m);
    forall i | i in res ensures res[i].idMembre in members - {m} {
      assert res[i].idMembre != m;
    }
  }

  /**
   * Lending a book on the shelf to a member below its ceiling and counting
   * the loan (preter, prendreRes).
   */
  lemma {:induction false} LendKeeps(books: map<int, Book>, members: map<int, Member>, res: map<int, Reservation>, b: int, m: int, d: int)
    requires Consistent(books, members, res)
    requires b in books && books[b].idMembre == 0
    requires m in members && members[m].nbPret < members[m].limitePret
    ensures Consistent(books[b := Book(m, Some(d))], WithLoans(members, m, 1), res)
  {
    var books', members' := books[b := Book(m, Some(d))], WithLoans(members, m, 1);
    forall k | k in members' ensures members'[k].nbPret == |LentTo(books', k)| {
      LentToAfterWrite(books, b, Book(m, Some(d)), k);
      assert b !in LentTo(books, k);
    }
  }

  /** Moving the loan date of a lent book, same borrower (renouveler). */
  lemma {:induction false} RenewKeeps(books: map<int, Book>, members: map<int, Member>, res: map<int, Reservation>, b: int, d: int)
    requires Consistent(books, members, res)
    requires b in books && books[b].idMembre != 0
    ensures Consistent(books[b := Book(books[b].idMembre, Some(d))], members, res)
  {
    var book := Book(books[b].idMembre, Some(d));
    var books' := books[b := book];
    forall k | k in members ensures members[k].nbPret == |LentTo(books', k)| {
      LentToAfterWrite(books, b, book, k);
      assert book.idMembre == k ==> b in LentTo(books, k);
      assert LentTo(books', k) == LentTo(books, k);
    }
  }

  /**
   * Putting a lent book back on the shelf and discounting the loan of the
   * borrower recorded on it (retourner).
   */
  lemma {:induction false} ReturnKeeps(books: map<int, Book>, members: map<int, Member>, res: map<int, Reservation>, b: int)
    requires Consistent(books, members, res)
    requires b in books && books[b].idMembre != 0
    ensures books[b].idMembre in members
    ensures Consistent(books[b := OnShelf], WithLoans(members, books[b].idMembre, -1), res)
  {
    var m := books[b].idMembre;
    var books', members' := books[b := OnShelf], WithLoans(members, m, -1);
    forall k | k in members' ensures members'[k].nbPret == |LentTo(books', k)| {
      LentToAfterWrite(books, b, OnShelf, k);
      assert k == m ==> b in LentTo(books, k);
    }
  }

  /** Adding a reservation of an existing book by an existing member (reserver). */
  lemma {:induction false} ReserveKeeps(books: map<int, Book>, members: map<int, Member>, res: map<int, Reservation>, i: int, r: Reservation)
    requires Consistent(books, members, res)
    requires r.idLivre in books && r.idMembre in members
    ensures Consistent(books, members, res[i := r])
  {
  }

  /** Deleting a reservation (annulerRes, and the last write of prendreRes). */
  lemma {:induction false} CancelKeeps(books: map<int, Book>, members: map<int, Member>, res: map<int, Reservation>, i: int)
    requires Consistent(books, members, res)
    ensures Consistent(books, members, res - {i})
  {
  }
}
