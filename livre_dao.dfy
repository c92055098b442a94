/**
 * The book table and its accessor, as the services use it: a lookup by id,
 * an insert of a book on the shelf, a delete, the write that records a loan
 * (borrower and loan date) and the one that puts the book back on the shelf.
 * Updates and deletes report how many rows they changed; the insert reports
 * whether the row was inserted, a taken id being a key violation.
 */
module BookAccess {
  import opened Rows

  class LivreDao {
    /** The session the statements run in. */
    const cx: Connexion
    /** The book table, by book id. */
    var rows: map<int, Book>

    constructor (cx: Connexion, rows: map<int, Book>)
      ensures this.cx == cx && this.rows == rows
    {
      this.cx := cx;
      this.rows := rows;
    }

    /** Whether a book with this id is in the collection. */
    method Existe(idLivre: int) returns (found: bool)
      ensures found <==> idLivre in rows
    {
      found := idLivre in rows;
    }

    /** The book's row, or nothing (null) when no such book. */
    method GetLivre(idLivre: int) returns (tuple: Option<Book>)
      ensures tuple.None? <==> idLivre !in rows
      ensures tuple.Some? ==> tuple.value == rows[idLivre]
    {
      if idLivre in rows {
        tuple := Some(rows[idLivre]);
      } else {
        tuple := None;
      }
    }

    /**
     * Inserts a book on the shelf. A duplicate id violates the table's key:
     * the insert fails (`inserted` is false) and changes nothing.
     */
    method Acquerir(idLivre: int) returns (inserted: bool)
      modifies this
      ensures inserted <==> idLivre !in old(rows)
      ensures rows == if inserted then old(rows)[idLivre := OnShelf] else old(rows)
    {
      inserted := idLivre !in rows;
      if inserted {
        rows := rows[idLivre := OnShelf];
      }
    }

    /** Deletes the book; the number of rows deleted. */
    method Vendre(idLivre: int) returns (nb: int)
      modifies this
      ensures nb == if idLivre in old(rows) then 1 else 0
      ensures rows == old(rows) - {idLivre}
    {
      nb := if idLivre in rows then 1 else 0;
      rows := rows - {idLivre};
    }

    /** Records `idMembre` as borrower since `datePret`; the number of rows updated. */
    method Preter(idLivre: int, idMembre: int, datePret: int) returns (nb: int)
      modifies this
      ensures nb == if idLivre in old(rows) then 1 else 0
      ensures rows == if idLivre in old(rows) then old(rows)[idLivre := Book(idMembre, Some(datePret))] else old(rows)
    {
      if idLivre in rows {
        rows := rows[idLivre := Book(idMembre, Some(datePret))];
        nb := 1;
      } else {
        nb := 0;
      }
    }

    /** Clears borrower and loan date; the number of rows updated. */
    method Retourner(idLivre: int) returns (nb: int)
      modifies this
      ensures nb == if idLivre in old(rows) then 1 else 0
      ensures rows == if idLivre in old(rows) then old(rows)[idLivre := OnShelf] else old(rows)
    {
      if idLivre in rows {
        rows := rows[idLivre := OnShelf];
        nb := 1;
      } else {
        nb := 0;
      }
    }
  }
}
