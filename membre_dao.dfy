/**
 * The member table and its accessor. Each operation is one SQL statement on
 * the table: a lookup by id, an insert with no loans, an increment or a
 * decrement of the loan counter, a delete. Updates and deletes report how
 * many rows they changed; the insert reports whether the row was inserted, a
 * taken id being a key violation.
 */
module MemberAccess {
  import opened Rows

  class MembreDao {
    /** The session the statements run in. */
    const cx: Connexion
    /** The member table, by member id. */
    var rows: map<int, Member>

    constructor (cx: Connexion, rows: map<int, Member>)
      ensures this.cx == cx && this.rows == rows
    {
      this.cx := cx;
      this.rows := rows;
    }

    /** Whether a member with this id is enrolled. */
    method Existe(idMembre: int) returns (found: bool)
      ensures found <==> idMembre in rows
    {
      found := idMembre in rows;
    }

    /** The member's row, or nothing (null) when no such member. */
    method GetMembre(idMembre: int) returns (tuple: Option<Member>)
      ensures tuple.None? <==> idMembre !in rows
      ensures tuple.Some? ==> tuple.value == rows[idMembre]
    {
      if idMembre in rows {
        tuple := Some(rows[idMembre]);
      } else {
        tuple := None;
      }
    }

    /**
     * Inserts a member with no loans. A duplicate id violates the table's
     * key: the insert fails (`inserted` is false) and changes nothing.
     */
    method Inscrire(idMembre: int, limitePret: int) returns (inserted: bool)
      modifies this
      ensures inserted <==> idMembre !in old(rows)
      ensures rows == if inserted then old(rows)[idMembre := Member(limitePret, 0)] else old(rows)
    {
      inserted := idMembre !in rows;
      if inserted {
        rows := rows[idMembre := Member(limitePret, 0)];
      }
    }

    /** One more loan for the member; the number of rows updated. */
    method Preter(idMembre: int) returns (nb: int)
      modifies this
      ensures nb == if idMembre in old(rows) then 1 else 0
      ensures rows == if idMembre in old(rows) then WithLoans(old(rows), idMembre, 1) else old(rows)
    {
      if idMembre in rows {
        rows := WithLoans(rows, idMembre, 1);
        nb := 1;
      } else {
        nb := 0;
      }
    }

    /** One loan less for the member; the number of rows updated. */
    method Retourner(idMembre: int) returns (nb: int)
      modifies this
      ensures nb == if idMembre in old(rows) then 1 else 0
      ensures rows == if idMembre in old(rows) then WithLoans(old(rows), idMembre, -1) else old(rows)
    {
      if idMembre in rows {
        rows := WithLoans(rows, idMembre, -1);
        nb := 1;
      } else {
        nb := 0;
      }
    }

    /** Deletes the member; the number of rows deleted. */
    method Desinscrire(idMembre: int) returns (nb: int)
      modifies this
      ensures nb == if idMembre in old(rows) then 1 else 0
      ensures rows == old(rows) - {idMembre}
    {
      nb := if idMembre in rows then 1 else 0;
      rows := rows - {idMembre};
    }
  }

  /** Counting a loan and then discounting it gives back the member table. */
  lemma {:induction false} LoanCounterRoundTrip(rows: map<int, Member>, idMembre: int)
    requires idMembre in rows
    ensures idMembre in WithLoans(rows, idMembre, 1)
    ensures WithLoans(WithLoans(rows, idMembre, 1), idMembre, -1) == rows
  {
    var back := WithLoans(WithLoans(rows, idMembre, 1), idMembre, -1);
    assert back[idMembre] == rows[idMembre];
    assert back.Keys == rows.Keys;
  }
}
