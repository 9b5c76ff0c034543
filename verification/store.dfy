/** The two tables ScraperWiki.save_sqlite writes: `terms`, keyed on (id),
    and the default table of memberships, keyed on (id, term). A save is an
    upsert: the row stored under its key is replaced. */
module Store {
  import opened Wrappers
  import opened JsonValues
  import opened Members

  datatype MemberKey = MemberKey(id: Json, term: Json)

  /** One call of save_sqlite: a term hash (line 80) or a membership row
      (line 66). */
  datatype Write = TermWrite(fields: map<string, Json>) | MemberWrite(row: Row)

  /** The key of a term row: its id. */
  function TermKey(fields: map<string, Json>): Json
  {
    Get(fields, "id")
  }

  /** The key of a membership row: its id and its term. */
  function MemberKeyOf(row: Row): MemberKey
  {
    MemberKey(row.id, row.term)
  }

  datatype Tables = Tables(terms: map<Json, map<string, Json>>, memberships: map<MemberKey, Row>)

  /** Upserting (key, value) pairs one after the other. */
  function Upserts<K, V>(m: map<K, V>, ups: seq<(K, V)>): map<K, V>
    decreases |ups|
  {
    if ups == [] then m
    else Upserts(m, ups[..|ups| - 1])[ups[|ups| - 1].0 := ups[|ups| - 1].1]
  }

  /** The value the last pair with key k carries, if any pair has that key. */
  function LastFor<K(==), V>(ups: seq<(K, V)>, k: K): Option<V>
    decreases |ups|
  {
    if ups == [] then None
    else if ups[|ups| - 1].0 == k then Some(ups[|ups| - 1].1)
    else LastFor(ups[..|ups| - 1], k)
  }

  /** Last write wins: after the upserts a key holds what its last upsert
      wrote, and a key nobody wrote keeps what it held before. */
  lemma {:induction false} UpsertsLastWriteWins<K, V>(m: map<K, V>, ups: seq<(K, V)>, k: K)
    ensures k in Upserts(m, ups) <==> LastFor(ups, k).Some? || k in m
    ensures k in Upserts(m, ups) ==>
      Upserts(m, ups)[k] == if LastFor(ups, k).Some? then LastFor(ups, k).value else m[k]
    decreases |ups|
  {
    if ups != [] {
      UpsertsLastWriteWins(m, ups[..|ups| - 1], k);
    }
  }

  /** Upserting the same pairs a second time changes nothing. */
  lemma UpsertsIdempotent<K, V>(m: map<K, V>, ups: seq<(K, V)>)
    ensures Upserts(Upserts(m, ups), ups) == Upserts(m, ups)
  {
    var once := Upserts(m, ups);
    var twice := Upserts(once, ups);
    forall k | k in twice
      ensures k in once && twice[k] == once[k]
    {
      UpsertsLastWriteWins(once, ups, k);
      UpsertsLastWriteWins(m, ups, k);
    }
    forall k | k in once
      ensures k in twice
    {
      UpsertsLastWriteWins(once, ups, k);
    }
    assert twice == once;
  }

  /** Upserting a + b is upserting a, then b. */
  lemma {:induction false} UpsertsAppend<K, V>(m: map<K, V>, a: seq<(K, V)>, b: seq<(K, V)>)
    ensures Upserts(m, a + b) == Upserts(Upserts(m, a), b)
    decreases |b|
  {
    if b == [] {
      assert a + b == a;
    } else {
      assert (a + b)[..|a + b| - 1] == a + b[..|b| - 1];
      UpsertsAppend(m, a, b[..|b| - 1]);
    }
  }

  /** The upserts a log of writes makes on the terms table, in order. */
  function TermUpserts(ws: seq<Write>): seq<(Json, map<string, Json>)>
    decreases |ws|
  {
    if ws == [] then []
    else
      TermUpserts(ws[..|ws| - 1]) +
      match ws[|ws| - 1]
      case TermWrite(f) => [(TermKey(f), f)]
      case MemberWrite(_) => []
  }

  /** The upserts a log of writes makes on the memberships table, in order. */
  function MemberUpserts(ws: seq<Write>): seq<(MemberKey, Row)>
    decreases |ws|
  {
    if ws == [] then []
    else
      MemberUpserts(ws[..|ws| - 1]) +
      match ws[|ws| - 1]
      case TermWrite(_) => []
      case MemberWrite(row) => [(MemberKeyOf(row), row)]
  }

  lemma {:induction false} UpsertsOfAppend(a: seq<Write>, b: seq<Write>)
    ensures TermUpserts(a + b) == TermUpserts(a) + TermUpserts(b)
    ensures MemberUpserts(a + b) == MemberUpserts(a) + MemberUpserts(b)
    decreases |b|
  {
    if b == [] {
      assert a + b == a;
    } else {
      assert (a + b)[..|a + b| - 1] == a + b[..|b| - 1];
      UpsertsOfAppend(a, b[..|b| - 1]);
    }
  }

  /** The tables after the writes of ws, in order, starting from tb. */
  function Replay(tb: Tables, ws: seq<Write>): Tables
  {
    Tables(Upserts(tb.terms, TermUpserts(ws)), Upserts(tb.memberships, MemberUpserts(ws)))
  }

  /** One save_sqlite call. */
  function Apply(tb: Tables, w: Write): Tables
  {
    match w
    case TermWrite(f) => tb.(terms := tb.terms[TermKey(f) := f])
    case MemberWrite(row) => tb.(memberships := tb.memberships[MemberKeyOf(row) := row])
  }

  /** Replaying a log is applying its writes one at a time, in order. */
  lemma ReplayStep(tb: Tables, ws: seq<Write>, w: Write)
    ensures Replay(tb, ws + [w]) == Apply(Replay(tb, ws), w)
  {
    assert (ws + [w])[..|ws|] == ws;
    var tu, mu := TermUpserts(ws), MemberUpserts(ws);
    assert tu + [] == tu && mu + [] == mu;
    match w
    case TermWrite(f) =>
      assert (tu + [(TermKey(f), f)])[..|tu|] == tu;
    case MemberWrite(row) =>
      assert (mu + [(MemberKeyOf(row), row)])[..|mu|] == mu;
  }

  /** Writing a log twice leaves the tables as writing it once: re-running
      the scraper on unchanged upstream data changes no row. */
  lemma ReplayTwiceIsReplayOnce(tb: Tables, ws: seq<Write>)
    ensures Replay(tb, ws + ws) == Replay(tb, ws)
  {
    UpsertsOfAppend(ws, ws);
    UpsertsAppend(tb.terms, TermUpserts(ws), TermUpserts(ws));
    UpsertsAppend(tb.memberships, MemberUpserts(ws), MemberUpserts(ws));
    UpsertsIdempotent(tb.terms, TermUpserts(ws));
    UpsertsIdempotent(tb.memberships, MemberUpserts(ws));
  }

  /** The membership writes for rows, in order. */
  function MemberWrites(rows: seq<Row>): (ws: seq<Write>)
    decreases |rows|
  {
    if rows == [] then []
    else MemberWrites(rows[..|rows| - 1]) + [MemberWrite(rows[|rows| - 1])]
  }

  /** One membership write per row, in the rows' order. */
  lemma {:induction false} MemberWritesArePerRow(rows: seq<Row>)
    ensures |MemberWrites(rows)| == |rows|
    ensures forall i :: 0 <= i < |rows| ==> MemberWrites(rows)[i] == MemberWrite(rows[i])
    decreases |rows|
  {
    if rows != [] {
      MemberWritesArePerRow(rows[..|rows| - 1]);
    }
  }

  lemma {:induction false} MemberWritesAppend(a: seq<Row>, b: seq<Row>)
    ensures MemberWrites(a + b) == MemberWrites(a) + MemberWrites(b)
  {
    MemberWritesArePerRow(a);
    MemberWritesArePerRow(b);
    MemberWritesArePerRow(a + b);
    assert |MemberWrites(a + b)| == |MemberWrites(a) + MemberWrites(b)|;
    forall i | 0 <= i < |a + b|
      ensures MemberWrites(a + b)[i] == (MemberWrites(a) + MemberWrites(b))[i]
    {
      if i >= |a| {
        assert (a + b)[i] == b[i - |a|];
      }
    }
  }

  /** The persisted tables. `log` records every save_sqlite call in order;
      the tables are always what that log makes of the initial ones. */
  class Database {
    var terms: map<Json, map<string, Json>>
    var memberships: map<MemberKey, Row>
    ghost const initial: Tables
    ghost var log: seq<Write>

    ghost predicate Valid()
      reads this
    {
      Tables(terms, memberships) == Replay(initial, log)
    }

    constructor (tables: Tables)
      ensures Valid() && initial == tables && log == []
      ensures terms == tables.terms && memberships == tables.memberships
    {
      terms, memberships := tables.terms, tables.memberships;
      initial, log := tables, [];
    }

    /** save_sqlite([:id], t, 'terms'). */
    method SaveTerm(fields: map<string, Json>)
      requires Valid()
      modifies this
      ensures Valid()
      ensures log == old(log) + [TermWrite(fields)]
      ensures terms == old(terms)[TermKey(fields) := fields] && memberships == old(memberships)
    {
      ReplayStep(initial, log, TermWrite(fields));
      terms := terms[TermKey(fields) := fields];
      log := log + [TermWrite(fields)];
    }

    /** save_sqlite([:id, :term], data). */
    method SaveMembership(row: Row)
      requires Valid()
      modifies this
      ensures Valid()
      ensures log == old(log) + [MemberWrite(row)]
      ensures memberships == old(memberships)[MemberKeyOf(row) := row] && terms == old(terms)
    {
      ReplayStep(initial, log, MemberWrite(row));
      memberships := memberships[MemberKeyOf(row) := row];
      log := log + [MemberWrite(row)];
    }
  }
}
