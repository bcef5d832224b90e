/** A database query: the expressions it filters by, its order, and the window it asks for. */
module Queries {
  import opened SearchExpressions
  import opened Sorting

  // By a field itself, or by the label that its value has in the user's language.
  datatype OrderTerm = ByField(field: string, descending: bool) | ByLabel(field: string, descending: bool)

  // The stored rows, how number texts are read, and how rows are ordered by terms.
  datatype Database = Database(rows: seq<Row>, num: NumberOf, order: (seq<OrderTerm>, seq<Row>) -> seq<Row>)

  // Ordering rearranges rows and does nothing else.
  ghost predicate Rearranges(db: Database) {
    forall terms, rows :: multiset(db.order(terms, rows)) == multiset(rows)
  }

  // How cells compare, by themselves and by their labels.
  datatype Collation = Collation(byField: (Cell, Cell) -> bool, byLabel: (Cell, Cell) -> bool)

  predicate TermLeq(c: Collation, term: OrderTerm, r: Row, r': Row) {
    var x, y := CellOf(r, term.field), CellOf(r', term.field);
    var (first, second) := if term.descending then (y, x) else (x, y);
    if term.ByLabel? then c.byLabel(first, second) else c.byField(first, second)
  }

  // Later terms decide where earlier ones tie.
  predicate LexLeq(c: Collation, terms: seq<OrderTerm>, r: Row, r': Row) {
    terms != [] ==>
      && TermLeq(c, terms[0], r, r')
      && (TermLeq(c, terms[0], r', r) ==> LexLeq(c, terms[1..], r, r'))
  }

  function LexOrder(c: Collation, terms: seq<OrderTerm>): Order<Row> {
    (r, r') => LexLeq(c, terms, r, r')
  }

  // The database orders rows by the terms it is given.
  ghost predicate Honours(db: Database, c: Collation) {
    forall terms, rows :: Ordered(LexOrder(c, terms), db.order(terms, rows))
  }

  predicate HoldsAll(num: NumberOf, row: Row, exprs: seq<Expr>) {
    forall e :: e in exprs ==> Eval(num, row, e)
  }

  function Selected(num: NumberOf, rows: seq<Row>, exprs: seq<Expr>): seq<Row> {
    if rows == [] then []
    else (if HoldsAll(num, rows[0], exprs) then [rows[0]] else []) + Selected(num, rows[1..], exprs)
  }

  function Results(db: Database, exprs: seq<Expr>, terms: seq<OrderTerm>): seq<Row> {
    db.order(terms, Selected(db.num, db.rows, exprs))
  }

  function Window<T>(s: seq<T>, from: nat, size: nat): seq<T> {
    if from >= |s| then [] else if from + size >= |s| then s[from..] else s[from..from + size]
  }

  lemma WindowIsSlice<T>(s: seq<T>, from: nat, to: nat)
    requires from <= to
    ensures from <= |s| ==> Window(s, from, to - from) == s[from..if to <= |s| then to else |s|]
  {
  }

  class ExpressionList {
    const db: Database
    var exprs: seq<Expr>
    var orderTerms: seq<OrderTerm>
    var firstRow: nat
    // Zero stands for no limit.
    var maxRows: nat

    constructor (db: Database)
      ensures this.db == db && exprs == [] && orderTerms == [] && firstRow == 0 && maxRows == 0
    {
      this.db, exprs, orderTerms, firstRow, maxRows := db, [], [], 0, 0;
    }

    method Add(e: Expr)
      modifies this`exprs
      ensures exprs == old(exprs) + [e]
    {
      exprs := exprs + [e];
    }

    method Order(term: OrderTerm)
      modifies this`orderTerms
      ensures orderTerms == old(orderTerms) + [term]
    {
      orderTerms := orderTerms + [term];
    }

    function AllResults(): seq<Row>
      reads this
    {
      Results(db, exprs, orderTerms)
    }

    // Whether the query asks for all its results.
    predicate Unwindowed()
      reads this
    {
      firstRow == 0 && maxRows == 0
    }

    function Found(): (r: seq<Row>)
      reads this
      ensures Unwindowed() ==> r == AllResults()
    {
      var all := AllResults();
      if maxRows == 0 then Window(all, firstRow, |all|) else Window(all, firstRow, maxRows)
    }

    method FindList() returns (r: seq<Row>)
      ensures r == Found()
    {
      var all := AllResults();
      r := Window(all, firstRow, if maxRows == 0 then |all| else maxRows);
    }

    method SetWindow(firstRow: nat, maxRows: nat)
      modifies this`firstRow, this`maxRows
      ensures this.firstRow == firstRow && this.maxRows == maxRows
    {
      this.firstRow, this.maxRows := firstRow, maxRows;
    }

    method FindRowCount() returns (n: nat)
      ensures n == |AllResults()|
    {
      n := |AllResults()|;
    }
  }
}
