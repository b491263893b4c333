/**
 The lease records as the source keeps them: objects the table points to, renewed in
 place, told apart by reference in the undo closures that captured them. The value-level
 model numbers them instead; these methods show that the numbers decide as the
 references do.
 */
module LeaseRecords {
  import L = LeaseModel
  import opened LeaseModel

  class Cell {
    const ip: Addr
    var expires: int
    var hostname: string
    ghost const owner: Key
    ghost const id: nat

    constructor (ip: Addr, row: Row, ghost owner: Key, ghost id: nat)
      ensures this.owner == owner && Value() == Record(id, ip, row)
    {
      this.ip, expires, hostname := ip, row.expires, row.hostname;
      this.owner, this.id := owner, id;
    }

    ghost function Value(): Record
      reads this
    {
      Record(id, ip, Row(expires, hostname))
    }
  }

  class Records {
    var table: map<Key, Cell>
    ghost var ids: nat
    // Every record ever made.
    ghost var made: set<Cell>

    /** Records are numbered apart, and the table holds each client's own. */
    ghost predicate Valid()
      reads this
    {
      && (forall k :: k in table ==> table[k] in made && table[k].owner == k)
      && (forall x, y :: x in made && y in made && x.id == y.id ==> x == y)
      && (forall x :: x in made ==> x.id < ids)
    }

    ghost function View(): map<Key, Record>
      reads this, table.Values
    {
      map k | k in table :: table[k].Value()
    }

    constructor ()
      ensures Valid() && View() == map[] && ids == 1
    {
      table, ids, made := map[], 1, {};
    }

    /** An undo closure's record: one that was made for this client. */
    ghost predicate Captured(k: Key, cell: Cell)
      reads this
    {
      cell in made && cell.owner == k
    }

    /** allocateLease's last step: a new record under the client's key. */
    method Add(k: Key, ip: Addr, row: Row) returns (cell: Cell)
      requires Valid()
      modifies this
      ensures Valid() && fresh(cell) && Captured(k, cell) && ids == old(ids) + 1
      ensures View() == old(View())[k := Record(old(ids), ip, row)]
    {
      ghost var before := View();
      cell := new Cell(ip, row, k, ids);
      table := table[k := cell];
      made := made + {cell};
      ids := ids + 1;
      ShowsAfter(before[k := Record(old(ids), ip, row)]);
    }

    /** renew: the extension is written into the record itself. */
    method Extend(k: Key, row: Row)
      requires Valid() && k in table
      modifies table[k]
      ensures Valid() && table == old(table)
      ensures View() == old(View())[k := old(View())[k].(row := row)]
    {
      ghost var before := View();
      table[k].expires := row.expires;
      table[k].hostname := row.hostname;
      ShowsAfter(before[k := before[k].(row := row)]);
    }

    /** The view, entry by entry. */
    lemma ShowsAfter(m: map<Key, Record>)
      requires (forall k :: k in table <==> k in m) && forall k :: k in table ==> table[k].Value() == m[k]
      ensures View() == m
    {
    }

    /** renew's undo: it cuts back the record it captured, and only if nothing has moved it on since. */
    method CutBack(k: Key, cell: Cell, extended: int, was: Row)
      requires Valid() && Captured(k, cell)
      modifies cell
      ensures Valid() && table == old(table)
      ensures forall p: Pool :: p.table == old(View()) ==> L.RunUndo(p, Shorten(k, cell.id, extended, was)).table == View()
    {
      ghost var before := View();
      ghost var moves := k in table && table[k].id == cell.id && cell.expires == extended;
      if cell.expires == extended {
        cell.expires, cell.hostname := was.expires, was.hostname;
      }
      ShowsAfter(if moves then before[k := before[k].(row := was)] else before);
    }

    /** dropUnwritten: the record goes only if the table still points to the very same one. */
    method DropUnwritten(k: Key, cell: Cell, taken: set<Addr>) returns (left: set<Addr>)
      requires Valid() && Captured(k, cell)
      modifies this`table
      ensures Valid()
      ensures forall p: Pool :: p.table == old(View()) && p.taken == taken ==>
        var q := L.RunUndo(p, L.DropUnwritten(k, cell.id)); q.table == View() && q.taken == left
    {
      ghost var before := View();
      left := taken;
      if k in table && table[k] == cell {
        left := taken - {table[k].ip};
        table := table - {k};
        assert View() == before - {k};
      }
    }
  }
}
