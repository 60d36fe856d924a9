/**
 The PPLNS backward walk (internal/storage/postgres/rewards.go): shares are read newest first, a
 page at a time, until the target difficulty is collected. The addition is a parameter, so the
 results hold for float addition in the order the program uses it.
 */
module WorkBackward {
  datatype Row = Row(miner: string, diff: real, created: int)

  type Add = (real, real) -> real

  /** A float addition, seen as a function, and the running tallies it builds. */
  datatype Tally = Tally(sums: map<string, real>, collected: real)

  const NOTHING := Tally(map[], 0.0)

  function Counted(add: Add, t: Tally, r: Row): Tally {
    Tally(t.sums[r.miner := add(if r.miner in t.sums then t.sums[r.miner] else 0.0, r.diff)],
          add(t.collected, r.diff))
  }

  /** The plain walk: newest first, one share at a time, until the target is reached. */
  function Walk(add: Add, t: Tally, target: real, rows: seq<Row>): Tally
    decreases |rows|
  {
    if t.collected >= target || rows == [] then t
    else Walk(add, Counted(add, t, rows[0]), target, rows[1..])
  }

  /** All rows counted, with no target. */
  function All(add: Add, t: Tally, rows: seq<Row>): Tally
    decreases |rows|
  {
    if rows == [] then t else All(add, Counted(add, t, rows[0]), rows[1..])
  }

  predicate Newest(rows: seq<Row>) {
    forall i, j | 0 <= i < j < |rows| :: rows[i].created >= rows[j].created
  }

  /** The rows a query selects: up to the cursor, or strictly before it. */
  predicate Selected(r: Row, cursor: int, strict: bool) {
    if strict then r.created < cursor else r.created <= cursor
  }

  function Select(table: seq<Row>, cursor: int, strict: bool): (rows: seq<Row>)
    ensures |rows| <= |table|
    ensures forall r | r in rows :: r in table && Selected(r, cursor, strict)
    ensures (exists r :: r in table && !Selected(r, cursor, strict)) ==> |rows| < |table|
  {
    if table == [] then []
    else (if Selected(table[0], cursor, strict) then [table[0]] else []) + Select(table[1..], cursor, strict)
  }

  function Limit(rows: seq<Row>, n: nat): seq<Row> {
    if |rows| <= n then rows else rows[..n]
  }

  /** The rows that paging gets to see: what follows a full page starts strictly before its last row. */
  function Visible(rows: seq<Row>, page: nat): seq<Row>
    requires page > 0
    decreases |rows|
  {
    if |rows| <= page then rows
    else
      assert rows[page - 1] in rows && !Selected(rows[page - 1], rows[page - 1].created, true);
      rows[..page] + Visible(Select(rows, rows[page - 1].created, true), page)
  }

  // ---------- the walk and its shortest prefix ----------

  /** The walk counts the shortest prefix that reaches the target, or everything: for shares of
      any sign and any addition. */
  lemma {:induction false} ShortestPrefix(add: Add, t: Tally, target: real, rows: seq<Row>) returns (k: nat)
    ensures k <= |rows| && Walk(add, t, target, rows) == All(add, t, rows[..k])
    ensures forall j | 0 <= j < k :: All(add, t, rows[..j]).collected < target
    ensures k < |rows| ==> All(add, t, rows[..k]).collected >= target
    decreases |rows|
  {
    if t.collected >= target || rows == [] {
      k := 0;
      assert rows[..0] == [];
    } else {
      var u := Counted(add, t, rows[0]);
      k := ShortestPrefix(add, u, target, rows[1..]);
      forall j: nat | 0 < j <= |rows| ensures All(add, t, rows[..j]) == All(add, u, rows[1..][..j - 1]) {
        assert rows[..j][1..] == rows[1..][..j - 1];
      }
      k := k + 1;
      assert rows[..0] == [];
    }
  }

  function DiffOf(rows: seq<Row>, miner: string): real {
    if rows == [] then 0.0
    else (if rows[0].miner == miner then rows[0].diff else 0.0) + DiffOf(rows[1..], miner)
  }

  function Plus(x: real, y: real): real {
    x + y
  }

  function SumOf(t: Tally, miner: string): real {
    if miner in t.sums then t.sums[miner] else 0.0
  }

  /** What a miner is credited with is its own difficulty in the counted prefix. */
  lemma {:induction false} SumsPerMiner(t: Tally, rows: seq<Row>, miner: string)
    ensures SumOf(All(Plus, t, rows), miner) == SumOf(t, miner) + DiffOf(rows, miner)
    decreases |rows|
  {
    if rows != [] { SumsPerMiner(Counted(Plus, t, rows[0]), rows[1..], miner); }
  }

  lemma {:induction false} WalkConcat(add: Add, t: Tally, target: real, a: seq<Row>, b: seq<Row>)
    ensures Walk(add, t, target, a + b) == Walk(add, Walk(add, t, target, a), target, b)
    decreases |a|
  {
    if a == [] {
      assert a + b == b;
    } else if t.collected < target {
      assert (a + b)[1..] == a[1..] + b;
      WalkConcat(add, Counted(add, t, a[0]), target, a[1..], b);
    }
  }

  // ---------- paging ----------

  lemma {:induction false} NewestCons(r: Row, rest: seq<Row>)
    requires Newest(rest) && forall x | x in rest :: r.created >= x.created
    ensures Newest([r] + rest)
  {
  }

  lemma {:induction false} HeadIsNewest(table: seq<Row>, r: Row)
    requires Newest(table) && table != [] && r in table[1..]
    ensures table[0].created >= r.created
  {
    var i :| 0 <= i < |table[1..]| && table[1..][i] == r;
    assert table[i + 1] == r;
  }

  lemma {:induction false} SelectKeepsOrder(table: seq<Row>, cursor: int, strict: bool)
    requires Newest(table)
    ensures Newest(Select(table, cursor, strict))
  {
    if table != [] {
      SelectKeepsOrder(table[1..], cursor, strict);
      var rest := Select(table[1..], cursor, strict);
      forall r | r in rest ensures table[0].created >= r.created { HeadIsNewest(table, r); }
      NewestCons(table[0], rest);
    }
  }

  /** A later cursor selects from the whole table what it selects from the current rows. */
  lemma {:induction false} SelectTwice(table: seq<Row>, c: int, strict: bool, d: int)
    requires Selected(Row("", 0.0, d), c, strict)
    ensures Select(Select(table, c, strict), d, true) == Select(table, d, true)
  {
    if table != [] {
      SelectTwice(table[1..], c, strict, d);
      var rest := Select(table[1..], c, strict);
      if Selected(table[0], c, strict) {
        assert Select(table, c, strict) == [table[0]] + rest;
        assert ([table[0]] + rest)[1..] == rest;
      } else {
        assert Select(table, c, strict) == rest;
      }
    }
  }

  /** Counts a page; once the target is reached, the rest of it is only drained. */
  method CountPage(add: Add, t: Tally, target: real, got: seq<Row>) returns (sums: map<string, real>, collected: real)
    ensures Tally(sums, collected) == Walk(add, t, target, got)
  {
    sums, collected := t.sums, t.collected;
    for i := 0 to |got|
      invariant Walk(add, t, target, got[..i]) == Tally(sums, collected)
    {
      assert got[..i + 1] == got[..i] + [got[i]];
      WalkConcat(add, t, target, got[..i], [got[i]]);
      assert [got[i]][1..] == [];
      if collected >= target { continue; }
      var r := got[i];
      sums := sums[r.miner := add(if r.miner in sums then sums[r.miner] else 0.0, r.diff)];
      collected := add(collected, r.diff);
    }
    assert got[..|got|] == got;
  }

  /** The paged walk equals the plain walk over the rows paging gets to see, ties or not. */
  method WorkBackward(add: Add, table: seq<Row>, before: int, target: real, page: nat) returns (sums: map<string, real>)
    requires Newest(table) && page > 0
    ensures sums == Walk(add, NOTHING, target, Visible(Select(table, before, false), page)).sums
  {
    sums := map[];
    var collected := 0.0;
    var cursor, cursorSet := before, false;
    ghost var result := Walk(add, NOTHING, target, Visible(Select(table, before, false), page));
    while collected < target
      invariant Walk(add, Tally(sums, collected), target, Visible(Select(table, cursor, cursorSet), page)) == result
      decreases |Select(table, cursor, cursorSet)|
    {
      var rows := Select(table, cursor, cursorSet);
      var got := Limit(rows, page);
      if |got| == 0 { break; }
      PageTurn(add, Tally(sums, collected), target, table, cursor, cursorSet, page, rows, got);
      sums, collected := CountPage(add, Tally(sums, collected), target, got);
      cursor, cursorSet := got[|got| - 1].created, true;
      if |got| < page && collected < target { break; }
    }
  }

  lemma {:induction false} NextRows(table: seq<Row>, cursor: int, strict: bool, rows: seq<Row>, last: Row)
    requires rows == Select(table, cursor, strict) && last in rows
    ensures Select(table, last.created, true) == Select(rows, last.created, true)
    ensures |Select(rows, last.created, true)| < |rows|
  {
    assert Selected(last, cursor, strict) && !Selected(last, last.created, true);
    SelectTwice(table, cursor, strict, last.created);
  }

  lemma {:induction false} PageThenRest(rows: seq<Row>, page: nat, got: seq<Row>)
    requires Newest(rows) && page > 0 && rows != [] && got == Limit(rows, page)
    ensures |Select(rows, got[|got| - 1].created, true)| < |rows|
    ensures Visible(rows, page) == got + Visible(Select(rows, got[|got| - 1].created, true), page)
    ensures |rows| <= page ==> Select(rows, got[|got| - 1].created, true) == []
  {
    var last := got[|got| - 1];
    assert last in rows && !Selected(last, last.created, true);
    if |rows| <= page {
      LastIsOldest(rows);
      NoneOlder(rows, last.created);
      assert Visible([], page) == [];
    }
  }

  /** Reading one page and continuing strictly before its last row is the walk itself. */
  lemma {:induction false} PageTurn(add: Add, t: Tally, target: real, table: seq<Row>, cursor: int, strict: bool,
                                    page: nat, rows: seq<Row>, got: seq<Row>)
    requires Newest(table) && page > 0 && rows == Select(table, cursor, strict) && rows != []
    requires got == Limit(rows, page)
    ensures var rest := Select(table, got[|got| - 1].created, true);
            |rest| < |rows| && (|rows| < page ==> rest == []) &&
            Walk(add, t, target, Visible(rows, page))
                == Walk(add, Walk(add, t, target, got), target, Visible(rest, page))
  {
    var last := got[|got| - 1];
    NextRows(table, cursor, strict, rows, last);
    SelectKeepsOrder(table, cursor, strict);
    PageThenRest(rows, page, got);
    WalkConcat(add, t, target, got, Visible(Select(rows, last.created, true), page));
  }

  lemma {:induction false} LastIsOldest(rows: seq<Row>)
    requires Newest(rows) && rows != []
    ensures forall r | r in rows :: r.created >= rows[|rows| - 1].created
  {
    forall r | r in rows ensures r.created >= rows[|rows| - 1].created {
      var i :| 0 <= i < |rows| && rows[i] == r;
      if i < |rows| - 1 { assert rows[i].created >= rows[|rows| - 1].created; }
    }
  }

  lemma {:induction false} NoneOlder(rows: seq<Row>, cursor: int)
    requires forall r | r in rows :: r.created >= cursor
    ensures Select(rows, cursor, true) == []
  {
    if rows != [] { NoneOlder(rows[1..], cursor); }
  }

  // ---------- when paging sees everything ----------

  lemma {:induction false} SelectSuffix(rows: seq<Row>, k: nat, cursor: int)
    requires k <= |rows| && (forall i | 0 <= i < k :: rows[i].created >= cursor)
    ensures Select(rows, cursor, true) == Select(rows[k..], cursor, true)
  {
    if k > 0 {
      SelectSuffix(rows[1..], k - 1, cursor);
      assert rows[1..][k - 1..] == rows[k..];
    } else {
      assert rows[0..] == rows;
    }
  }

  lemma {:induction false} SelectAll(rows: seq<Row>, cursor: int)
    requires forall r | r in rows :: r.created < cursor
    ensures Select(rows, cursor, true) == rows
  {
    if rows != [] { SelectAll(rows[1..], cursor); }
  }

  /** No two rows of one timestamp lie on both sides of a page boundary. */
  predicate NoTieAcrossPages(rows: seq<Row>, page: nat)
    requires page > 0
    decreases |rows|
  {
    |rows| <= page || (rows[page - 1].created > rows[page].created && NoTieAcrossPages(rows[page..], page))
  }

  lemma {:induction false} AfterPage(rows: seq<Row>, page: nat)
    requires Newest(rows) && 0 < page < |rows|
    ensures Select(rows, rows[page - 1].created, true) == Select(rows[page..], rows[page - 1].created, true)
    ensures Newest(rows[page..]) && Newest(Select(rows, rows[page - 1].created, true))
  {
    forall i | 0 <= i < page ensures rows[i].created >= rows[page - 1].created {
      if i < page - 1 { assert rows[i].created >= rows[page - 1].created; }
    }
    SelectSuffix(rows, page, rows[page - 1].created);
    SelectKeepsOrder(rows, rows[page - 1].created, true);
  }

  lemma {:induction false} VisibleShorter(rows: seq<Row>, page: nat)
    requires page > 0 && Newest(rows)
    ensures |Visible(rows, page)| <= |rows|
    decreases |rows|
  {
    if |rows| > page {
      AfterPage(rows, page);
      VisibleShorter(Select(rows, rows[page - 1].created, true), page);
    }
  }

  lemma {:induction false} NoTieHere(rows: seq<Row>, page: nat)
    requires Newest(rows) && 0 < page < |rows| && rows[page - 1].created > rows[page].created
    ensures Visible(rows, page) == rows[..page] + Visible(rows[page..], page)
  {
    NoTieSelects(rows, page);
  }

  lemma {:induction false} TieHere(rows: seq<Row>, page: nat)
    requires Newest(rows) && 0 < page < |rows| && rows[page - 1].created <= rows[page].created
    ensures |Visible(rows, page)| < |rows|
  {
    var c, rest := rows[page - 1].created, rows[page..];
    AfterPage(rows, page);
    assert rest[0] in rest && !Selected(rest[0], c, true);
    VisibleShorter(Select(rows, c, true), page);
  }

  lemma {:induction false} SamePrefix(rows: seq<Row>, k: nat, v: seq<Row>)
    requires k <= |rows|
    ensures rows[..k] + v == rows <==> v == rows[k..]
  {
    assert rows == rows[..k] + rows[k..];
    if rows[..k] + v == rows { assert v == (rows[..k] + v)[k..]; }
  }

  /** Paging reads every row exactly when no tie straddles a page boundary. */
  lemma {:induction false} SeesEverything(rows: seq<Row>, page: nat)
    requires page > 0 && Newest(rows)
    ensures Visible(rows, page) == rows <==> NoTieAcrossPages(rows, page)
    decreases |rows|
  {
    if |rows| > page {
      if rows[page - 1].created > rows[page].created {
        NoTieHere(rows, page);
        SamePrefix(rows, page, Visible(rows[page..], page));
        SeesEverything(rows[page..], page);
      } else {
        TieHere(rows, page);
      }
    }
  }

  predicate DistinctTimes(rows: seq<Row>) {
    forall i, j | 0 <= i < j < |rows| :: rows[i].created != rows[j].created
  }

  lemma {:induction false} DistinctHaveNoTies(rows: seq<Row>, page: nat)
    requires page > 0 && Newest(rows) && DistinctTimes(rows)
    ensures NoTieAcrossPages(rows, page)
    decreases |rows|
  {
    if |rows| > page { DistinctHaveNoTies(rows[page..], page); }
  }

  // ---------- when paging counts the right rows ----------

  /** The rows the walk counts. */
  function CountedRows(add: Add, t: Tally, target: real, rows: seq<Row>): seq<Row>
    decreases |rows|
  {
    if t.collected >= target || rows == [] then []
    else [rows[0]] + CountedRows(add, Counted(add, t, rows[0]), target, rows[1..])
  }

  lemma {:induction false} WalkCounts(add: Add, t: Tally, target: real, rows: seq<Row>)
    ensures var c := CountedRows(add, t, target, rows);
            && |c| <= |rows| && c == rows[..|c|] && Walk(add, t, target, rows) == All(add, t, c)
            && (Walk(add, t, target, rows).collected < target ==> c == rows)
    decreases |rows|
  {
    if t.collected < target && rows != [] {
      var u := Counted(add, t, rows[0]);
      var rest := CountedRows(add, u, target, rows[1..]);
      WalkCounts(add, u, target, rows[1..]);
      assert ([rows[0]] + rest)[1..] == rest;
      assert rows == [rows[0]] + rows[1..];
    }
  }

  lemma {:induction false} CountedConcat(add: Add, t: Tally, target: real, a: seq<Row>, b: seq<Row>)
    ensures CountedRows(add, t, target, a + b)
         == CountedRows(add, t, target, a) + CountedRows(add, Walk(add, t, target, a), target, b)
    decreases |a|
  {
    if a == [] {
      assert a + b == b;
    } else if t.collected < target {
      assert (a + b)[1..] == a[1..] + b;
      CountedConcat(add, Counted(add, t, a[0]), target, a[1..], b);
    }
  }

  /** No tie straddles a page boundary that lies before the `k`-th row. */
  predicate NoTieWithin(rows: seq<Row>, page: nat, k: nat)
    requires page > 0
    decreases |rows|
  {
    |rows| <= page || k <= page
    || (rows[page - 1].created > rows[page].created && NoTieWithin(rows[page..], page, k - page))
  }

  lemma {:induction false} NoTieIsWithin(rows: seq<Row>, page: nat, k: nat)
    requires page > 0 && NoTieAcrossPages(rows, page)
    ensures NoTieWithin(rows, page, k)
    decreases |rows|
  {
    if |rows| > page && k > page { NoTieIsWithin(rows[page..], page, k - page); }
  }

  lemma {:induction false} CountedHead(add: Add, t: Tally, target: real, rows: seq<Row>)
    requires t.collected < target
    ensures rows == [] ==> CountedRows(add, t, target, rows) == []
    ensures rows != [] ==> CountedRows(add, t, target, rows) != [] && CountedRows(add, t, target, rows)[0] == rows[0]
  {
  }

  /** What follows a page that ends in a tie starts with another row, or not at all. */
  lemma {:induction false} TieChangesRows(add: Add, t: Tally, target: real, rows: seq<Row>, page: nat)
    requires Newest(rows) && 0 < page < |rows| && rows[page - 1].created <= rows[page].created
    requires t.collected < target
    ensures var older := Visible(Select(rows, rows[page - 1].created, true), page);
            CountedRows(add, t, target, older) != CountedRows(add, t, target, rows[page..])
    ensures CountedRows(add, t, target, rows[page..]) != []
  {
    var c := rows[page - 1].created;
    var sel := Select(rows, c, true);
    var older := Visible(sel, page);
    CountedHead(add, t, target, older);
    CountedHead(add, t, target, rows[page..]);
    assert rows[page..][0] == rows[page];
    if older != [] {
      VisibleHead(sel, page);
      assert sel[0] in sel;
      assert older[0].created < c;
    }
  }

  lemma {:induction false} VisibleHead(rows: seq<Row>, page: nat)
    requires page > 0
    ensures Visible(rows, page) != [] ==> rows != [] && Visible(rows, page)[0] == rows[0]
    ensures rows != [] ==> Visible(rows, page) != []
  {
  }

  lemma {:induction false} SamePrefixes(a: seq<Row>, b: seq<Row>, c: seq<Row>)
    ensures a + b == a + c <==> b == c
  {
    if a + b == a + c { assert b == (a + b)[|a|..] == (a + c)[|a|..] == c; }
  }

  /** The paged walk counts the rows of the plain walk if and only if no tie straddles a page
      boundary among the rows counted; ties further back do not matter. */
  lemma {:induction false} CountsTheSameRows(add: Add, t: Tally, target: real, rows: seq<Row>, page: nat)
    requires page > 0 && Newest(rows)
    ensures var plain := CountedRows(add, t, target, rows);
            CountedRows(add, t, target, Visible(rows, page)) == plain <==> NoTieWithin(rows, page, |plain|)
    decreases |rows|
  {
    if |rows| > page {
      var u := Walk(add, t, target, rows[..page]);
      FirstPage(add, t, target, rows, page);
      var older := Visible(Select(rows, rows[page - 1].created, true), page);
      SamePrefixes(CountedRows(add, t, target, rows[..page]),
                   CountedRows(add, u, target, older), CountedRows(add, u, target, rows[page..]));
      if u.collected < target { PageCounts(add, u, target, rows, page); }
    }
  }

  /** Both walks count the first page alike and then go on from the same tally. */
  lemma {:induction false} FirstPage(add: Add, t: Tally, target: real, rows: seq<Row>, page: nat)
    requires 0 < page < |rows|
    ensures var u := Walk(add, t, target, rows[..page]);
            var first := CountedRows(add, t, target, rows[..page]);
            && CountedRows(add, t, target, rows) == first + CountedRows(add, u, target, rows[page..])
            && CountedRows(add, t, target, Visible(rows, page))
               == first + CountedRows(add, u, target, Visible(Select(rows, rows[page - 1].created, true), page))
            && |first| <= page && (u.collected < target ==> |first| == page)
  {
    assert rows == rows[..page] + rows[page..];
    CountedConcat(add, t, target, rows[..page], rows[page..]);
    CountedConcat(add, t, target, rows[..page], Visible(Select(rows, rows[page - 1].created, true), page));
    WalkCounts(add, t, target, rows[..page]);
  }

  lemma {:induction false} NextPage(rows: seq<Row>, page: nat, m: nat)
    requires 0 < page < |rows|
    ensures rows[page - 1].created > rows[page].created ==>
              (NoTieWithin(rows, page, page + m) <==> NoTieWithin(rows[page..], page, m))
    ensures rows[page - 1].created <= rows[page].created ==> (NoTieWithin(rows, page, page + m) <==> m == 0)
  {
  }

  lemma {:induction false} PageCounts(add: Add, u: Tally, target: real, rows: seq<Row>, page: nat)
    requires Newest(rows) && 0 < page < |rows| && u.collected < target
    ensures var older := Visible(Select(rows, rows[page - 1].created, true), page);
            var plain := CountedRows(add, u, target, rows[page..]);
            CountedRows(add, u, target, older) == plain <==> NoTieWithin(rows, page, page + |plain|)
    decreases |rows|, 0
  {
    NextPage(rows, page, |CountedRows(add, u, target, rows[page..])|);
    if rows[page - 1].created > rows[page].created {
      NoTieSelects(rows, page);
      CountsTheSameRows(add, u, target, rows[page..], page);
    } else {
      TieChangesRows(add, u, target, rows, page);
    }
  }

  lemma {:induction false} NoTieSelects(rows: seq<Row>, page: nat)
    requires Newest(rows) && 0 < page < |rows| && rows[page - 1].created > rows[page].created
    ensures Select(rows, rows[page - 1].created, true) == rows[page..] && Newest(rows[page..])
  {
    var c, rest := rows[page - 1].created, rows[page..];
    AfterPage(rows, page);
    forall r | r in rest ensures r.created < c {
      var i :| 0 <= i < |rest| && rest[i] == r;
      if i > 0 { assert rest[0].created >= rest[i].created; }
    }
    SelectAll(rest, c);
  }

  /** With no tie at a boundary among the rows counted, distinct timestamps in particular, the paged
      walk returns what one unpaged walk returns, for every page size and however long the table. */
  lemma {:induction false} PagedIsPlain(add: Add, table: seq<Row>, before: int, target: real, page: nat)
    requires Newest(table) && page > 0
    requires var rows := Select(table, before, false);
             NoTieWithin(rows, page, |CountedRows(add, NOTHING, target, rows)|) || DistinctTimes(rows)
    ensures Walk(add, NOTHING, target, Visible(Select(table, before, false), page))
         == Walk(add, NOTHING, target, Select(table, before, false))
  {
    var rows := Select(table, before, false);
    SelectKeepsOrder(table, before, false);
    if DistinctTimes(rows) {
      DistinctHaveNoTies(rows, page);
      NoTieIsWithin(rows, page, |CountedRows(add, NOTHING, target, rows)|);
    }
    CountsTheSameRows(add, NOTHING, target, rows, page);
    WalkCounts(add, NOTHING, target, rows);
    WalkCounts(add, NOTHING, target, Visible(rows, page));
  }

  // ---------- a tie that changes the sums ----------

  function Times(n: nat, d: real): real {
    if n == 0 then 0.0 else d + Times(n - 1, d)
  }

  /** The walk over equal shares, as long as the target is further away than they reach. */
  lemma {:induction false} EqualShares(t: Tally, n: nat, r: Row, target: real)
    requires r.diff > 0.0 && t.collected + Times(n, r.diff) < target
    ensures SumOf(Walk(Plus, t, target, seq(n, _ => r)), r.miner) == SumOf(t, r.miner) + Times(n, r.diff)
    decreases n
  {
    if n > 0 {
      TimesNonneg(n - 1, r.diff);
      assert seq(n, _ => r)[1..] == seq(n - 1, _ => r);
      EqualShares(Counted(Plus, t, r), n - 1, r, target);
    }
  }

  lemma {:induction false} TimesNonneg(n: nat, d: real)
    requires d > 0.0
    ensures Times(n, d) >= 0.0
  {
    if n > 0 { TimesNonneg(n - 1, d); }
  }

  /** One share more than a page, all at one instant, and a target beyond them: the paged walk
      returns a page's worth of difficulty, the plain walk one share more. */
  lemma {:induction false} TieIsSkipped(page: nat, r: Row, target: real)
    requires page > 0 && r.diff > 0.0 && target > Times(page + 1, r.diff)
    ensures var rows := seq(page + 1, _ => r);
            && SumOf(Walk(Plus, NOTHING, target, Visible(rows, page)), r.miner) == Times(page, r.diff)
            && SumOf(Walk(Plus, NOTHING, target, rows), r.miner) == Times(page, r.diff) + r.diff
  {
    var rows := seq(page + 1, _ => r);
    NoneOlder(rows, r.created);
    assert Visible([], page) == [];
    assert Visible(rows, page) == seq(page, _ => r);
    assert Times(page + 1, r.diff) == r.diff + Times(page, r.diff);
    EqualShares(NOTHING, page, r, target);
    EqualShares(NOTHING, page + 1, r, target);
  }
}
