/** scrape_term: the pages of a term's councillors, fetched one after the
    other until the upstream says there are no more, and every record on
    them scraped and saved. A fetched page is an element of `pages`: page n
    is pages[n - 1]. */
module Pagination {
  import opened Wrappers
  import opened JsonValues
  import opened Errors
  import opened Members
  import opened Store

  /** How one record becomes a row: scrape_person without the save. The
      page loop is stated for any such function; scrape_term uses
      RowsFor(t). */
  type Scraper = Json -> Result<Row, Error>

  /** scrape_person's row building under the term t. */
  function RowsFor(t: Term): Scraper
  {
    mp => MembershipRow(mp, t)
  }

  /** What scraping a run of records produced: the rows, in order, and the
      error that stopped it, if one did. */
  datatype Batch = Batch(rows: seq<Row>, err: Option<Error>)

  /** `mems.each { |mem| scrape_person(mem, t) }`, stopping at the first
      record that raises. */
  function ScrapeRecords(recs: seq<Json>, scrape: Scraper): (b: Batch)
    decreases |recs|
  {
    if recs == [] then Batch([], None)
    else
      var prev := ScrapeRecords(recs[..|recs| - 1], scrape);
      if prev.err.Some? then prev
      else match scrape(recs[|recs| - 1])
        case Ok(row) => Batch(prev.rows + [row], None)
        case Err(e) => Batch(prev.rows, Some(e))
  }

  /** The rows are what the scraper built for the records, in order, up to
      the first record it fails on, and the error is that failure. */
  lemma {:induction false} ScrapeRecordsStopsAtFirstFailure(recs: seq<Json>, scrape: Scraper)
    ensures var b := ScrapeRecords(recs, scrape);
      && |b.rows| <= |recs|
      && (forall i :: 0 <= i < |b.rows| ==> scrape(recs[i]) == Ok(b.rows[i]))
      && (b.err.None? ==> |b.rows| == |recs|)
      && (b.err.Some? ==> |b.rows| < |recs| && scrape(recs[|b.rows|]) == Err(b.err.value))
    decreases |recs|
  {
    if recs != [] {
      ScrapeRecordsStopsAtFirstFailure(recs[..|recs| - 1], scrape);
    }
  }

  /** Scraping a + b is scraping a and, unless that raised, then b. */
  lemma {:induction false} ScrapeRecordsAppend(a: seq<Json>, b: seq<Json>, scrape: Scraper)
    ensures ScrapeRecords(a + b, scrape) ==
      if ScrapeRecords(a, scrape).err.Some? then ScrapeRecords(a, scrape)
      else Batch(ScrapeRecords(a, scrape).rows + ScrapeRecords(b, scrape).rows, ScrapeRecords(b, scrape).err)
    decreases |b|
  {
    if b == [] {
      assert a + b == a;
      assert ScrapeRecords(a, scrape).rows + [] == ScrapeRecords(a, scrape).rows;
    } else {
      assert (a + b)[..|a + b| - 1] == a + b[..|b| - 1];
      assert (a + b)[|a + b| - 1] == b[|b| - 1];
      ScrapeRecordsAppend(a, b[..|b| - 1], scrape);
    }
  }

  /** The records before j scrape cleanly and record j raises: scraping
      stops there with that error. */
  lemma {:induction false} ScrapeRecordsStopsAt(recs: seq<Json>, j: nat, scrape: Scraper)
    requires j < |recs|
    requires ScrapeRecords(recs[..j], scrape).err.None?
    requires scrape(recs[j]).Err?
    ensures ScrapeRecords(recs, scrape) ==
      Batch(ScrapeRecords(recs[..j], scrape).rows, Some(scrape(recs[j]).error))
    decreases |recs|
  {
    var init := recs[..|recs| - 1];
    if |recs| == j + 1 {
      assert init == recs[..j];
    } else {
      assert init[..j] == recs[..j];
      ScrapeRecordsStopsAt(init, j, scrape);
    }
  }

  /** The records before j scrape cleanly and record j does too: its row
      joins the batch, and so does its write. */
  lemma ScrapeRecordsGrows(recs: seq<Json>, j: nat, scrape: Scraper)
    requires j < |recs|
    requires ScrapeRecords(recs[..j], scrape).err.None?
    requires scrape(recs[j]).Ok?
    ensures var before := ScrapeRecords(recs[..j], scrape).rows;
      && ScrapeRecords(recs[..j + 1], scrape) == Batch(before + [scrape(recs[j]).value], None)
      && MemberWrites(before + [scrape(recs[j]).value]) ==
         MemberWrites(before) + [MemberWrite(scrape(recs[j]).value)]
  {
    assert recs[..j + 1][..j] == recs[..j];
    var before := ScrapeRecords(recs[..j], scrape).rows;
    assert (before + [scrape(recs[j]).value])[..|before|] == before;
  }

  /** `mems.last[:hasMorePages]` is truthy. A last record that is not a hash
      counts as "no more pages" here, where Ruby would raise; under RowsFor
      such a record has already failed to scrape, so the loop never reads
      its flag. */
  predicate HasMorePages(last: Json)
  {
    last.Obj? && Truthy(Get(last.fields, "hasMorePages"))
  }

  /** The page at index i stops the loop: reading its last record's flag
      fails, or the flag says there are no more pages. */
  predicate StopsAt(pages: seq<seq<Json>>, i: nat)
    requires i < |pages|
  {
    pages[i] == [] || !HasMorePages(pages[i][|pages[i]| - 1])
  }

  /** The outcome of the page loop: the rows saved, the error that ended it
      if any, and how many pages it requested. */
  datatype Walked = Walked(rows: seq<Row>, err: Option<Error>, fetched: nat)

  /** Lines 26-33 from page i + 1 on: fetch the page, scrape its records,
      and go on only when its last record asks for more. */
  function WalkPages(pages: seq<seq<Json>>, i: nat, scrape: Scraper): (w: Walked)
    requires i <= |pages|
    ensures 1 <= w.fetched <= |pages| - i + 1
    decreases |pages| - i
  {
    if i == |pages| then Walked([], Some(NoSuchPage(i + 1)), 1)
    else
      var page := ScrapeRecords(pages[i], scrape);
      if page.err.Some? then Walked(page.rows, page.err, 1)
      else if pages[i] == [] then Walked([], Some(EmptyPage(i + 1)), 1)
      else if !HasMorePages(pages[i][|pages[i]| - 1]) then Walked(page.rows, None, 1)
      else
        var rest := WalkPages(pages, i + 1, scrape);
        Walked(page.rows + rest.rows, rest.err, rest.fetched + 1)
  }

  /** Every row the loop saves is a row the scraper built for some record. */
  lemma {:induction false} WalkRowsAreScraped(pages: seq<seq<Json>>, i: nat, scrape: Scraper, r: Row)
    requires i <= |pages|
    requires r in WalkPages(pages, i, scrape).rows
    ensures exists p, j :: 0 <= p < |pages| && 0 <= j < |pages[p]| && scrape(pages[p][j]) == Ok(r)
    decreases |pages| - i
  {
    var page := ScrapeRecords(pages[i], scrape);
    ScrapeRecordsStopsAtFirstFailure(pages[i], scrape);
    if r in page.rows {
      var j :| 0 <= j < |page.rows| && page.rows[j] == r;
      assert scrape(pages[i][j]) == Ok(r);
    } else {
      WalkRowsAreScraped(pages, i + 1, scrape, r);
    }
  }

  /** scrape_term for a normalised term: term 50 is skipped, every other
      term walks its pages from page 1 and every row it saves carries the
      term's id. */
  function ScrapedTerm(t: Term, pages: seq<seq<Json>>): (w: Walked)
    ensures t.id == Num(50) ==> w.fetched == 0 && w.rows == [] && w.err == None
    ensures t.id != Num(50) ==> 1 <= w.fetched <= |pages| + 1
    ensures forall r :: r in w.rows ==> r.term == t.id
  {
    if t.id == Num(50) then Walked([], None, 0)
    else
      var w := WalkPages(pages, 0, RowsFor(t));
      assert forall r :: r in w.rows ==> r.term == t.id by {
        forall r | r in w.rows
          ensures r.term == t.id
        {
          WalkRowsAreScraped(pages, 0, RowsFor(t), r);
        }
      }
      w
  }

  /** The first page from index i on that stops the loop, or |pages| when
      every page asks for more. */
  function FirstStop(pages: seq<seq<Json>>, i: nat): (k: nat)
    requires i <= |pages|
    ensures i <= k <= |pages|
    decreases |pages| - i
  {
    if i == |pages| || StopsAt(pages, i) then i else FirstStop(pages, i + 1)
  }

  /** FirstStop finds the first stopping page: none before it stops the
      loop, and it does unless it is past the end. */
  lemma {:induction false} FirstStopIsFirst(pages: seq<seq<Json>>, i: nat)
    requires i <= |pages|
    ensures forall j :: i <= j < FirstStop(pages, i) ==> !StopsAt(pages, j)
    ensures FirstStop(pages, i) < |pages| ==> StopsAt(pages, FirstStop(pages, i))
    decreases |pages| - i
  {
    if i < |pages| && !StopsAt(pages, i) {
      FirstStopIsFirst(pages, i + 1);
    }
  }

  /** One past the last page the loop reads from index i on: the stopping
      page is read, and without one every page is. */
  function ReadUpTo(pages: seq<seq<Json>>, i: nat): (m: nat)
    requires i <= |pages|
    ensures i <= m <= |pages|
  {
    var k := FirstStop(pages, i);
    if k < |pages| then k + 1 else k
  }

  /** The last page the loop requests from index i on: the first page whose
      records raise or that stops the loop, or the one past the end when
      there is none. */
  function LastRequested(pages: seq<seq<Json>>, i: nat, scrape: Scraper): (l: nat)
    requires i <= |pages|
    ensures i <= l <= FirstStop(pages, i)
    decreases |pages| - i
  {
    if i == |pages| || ScrapeRecords(pages[i], scrape).err.Some? || StopsAt(pages, i) then i
    else LastRequested(pages, i + 1, scrape)
  }

  /** Every page before the last one requested scrapes cleanly and asks for
      more; the last one raises or stops the loop, unless it is past the
      end. */
  lemma {:induction false} LastRequestedIsFirst(pages: seq<seq<Json>>, i: nat, scrape: Scraper)
    requires i <= |pages|
    ensures forall j :: i <= j < LastRequested(pages, i, scrape) ==>
      ScrapeRecords(pages[j], scrape).err.None? && !StopsAt(pages, j)
    ensures var l := LastRequested(pages, i, scrape);
      l < |pages| ==> ScrapeRecords(pages[l], scrape).err.Some? || StopsAt(pages, l)
    decreases |pages| - i
  {
    if i < |pages| && ScrapeRecords(pages[i], scrape).err.None? && !StopsAt(pages, i) {
      LastRequestedIsFirst(pages, i + 1, scrape);
    }
  }

  /** The records of the pages in ps, in listing order. */
  function Concat(ps: seq<seq<Json>>): seq<Json>
  {
    if ps == [] then [] else ps[0] + Concat(ps[1..])
  }

  /** The page loop, from page i + 1 on, scrapes exactly the records of the
      pages up to and including the first stopping page k, in order, and
      ends at the first record that raises; when none raises it ends with no
      error if page k's last record says there are no more pages, with an
      error if page k is empty, and by requesting a page that does not exist
      if no page stops it. It requests the page numbers i + 1 up to
      LastRequested + 1, one each and in order, and no others. */
  ghost predicate ReadsUpToFirstStop(pages: seq<seq<Json>>, i: nat, scrape: Scraper)
    requires i <= |pages|
  {
    var k := FirstStop(pages, i);
    var s := ScrapeRecords(Concat(pages[i..ReadUpTo(pages, i)]), scrape);
    var w := WalkPages(pages, i, scrape);
    && w.rows == s.rows
    && w.err == (if s.err.Some? then s.err
                 else if k == |pages| then Some(NoSuchPage(k + 1))
                 else if pages[k] == [] then Some(EmptyPage(k + 1))
                 else None)
    && w.fetched == LastRequested(pages, i, scrape) + 1 - i
    && (s.err.None? ==> w.fetched == k + 1 - i)
  }

  lemma {:induction false} WalkReadsUpToFirstStop(pages: seq<seq<Json>>, i: nat, scrape: Scraper)
    requires i <= |pages|
    ensures ReadsUpToFirstStop(pages, i, scrape)
    decreases |pages| - i
  {
    if i == |pages| {
      assert pages[i..i] == [];
      assert WalkPages(pages, i, scrape) == Walked([], Some(NoSuchPage(i + 1)), 1);
    } else if StopsAt(pages, i) {
      WalkStopsAtThisPage(pages, i, scrape);
    } else {
      WalkReadsUpToFirstStop(pages, i + 1, scrape);
      WalkMovesOn(pages, i, scrape);
    }
  }

  /** The loop from page i + 1 when that page stops it. */
  lemma WalkStopsAtThisPage(pages: seq<seq<Json>>, i: nat, scrape: Scraper)
    requires i < |pages| && StopsAt(pages, i)
    ensures ReadsUpToFirstStop(pages, i, scrape)
  {
    var w := WalkPages(pages, i, scrape);
    var first := ScrapeRecords(pages[i], scrape);
    assert pages[i..i + 1] == [pages[i]];
    assert Concat([pages[i]]) == pages[i] + Concat([]);
    assert pages[i] + [] == pages[i];
    if first.err.Some? {
      assert w == Walked(first.rows, first.err, 1);
    } else if pages[i] == [] {
      assert first.rows == [];
      assert w == Walked([], Some(EmptyPage(i + 1)), 1);
    } else {
      assert w == Walked(first.rows, None, 1);
    }
  }

  /** The loop from page i + 1 when that page asks for more: it reads that
      page and then goes on as from page i + 2. */
  lemma WalkMovesOn(pages: seq<seq<Json>>, i: nat, scrape: Scraper)
    requires i < |pages| && !StopsAt(pages, i)
    requires ReadsUpToFirstStop(pages, i + 1, scrape)
    ensures ReadsUpToFirstStop(pages, i, scrape)
  {
    var k, m := FirstStop(pages, i), ReadUpTo(pages, i);
    assert FirstStop(pages, i + 1) == k;
    assert ReadUpTo(pages, i + 1) == m;
    ScrapeFirstPageThenRest(pages, i, m, scrape);
    var w, first, rest := WalkPages(pages, i, scrape), ScrapeRecords(pages[i], scrape), WalkPages(pages, i + 1, scrape);
    var s, sRest := ScrapeRecords(Concat(pages[i..m]), scrape), ScrapeRecords(Concat(pages[i + 1..m]), scrape);
    if first.err.Some? {
      assert s == first;
      assert w == Walked(first.rows, first.err, 1);
    } else {
      assert s == Batch(first.rows + sRest.rows, sRest.err);
      assert w == Walked(first.rows + rest.rows, rest.err, rest.fetched + 1);
    }
  }

  /** Scraping the records of pages i .. m - 1 is scraping page i and then,
      unless that raised, the records of the others. */
  lemma ScrapeFirstPageThenRest(pages: seq<seq<Json>>, i: nat, m: nat, scrape: Scraper)
    requires i < m <= |pages|
    ensures var first, rest := ScrapeRecords(pages[i], scrape), ScrapeRecords(Concat(pages[i + 1..m]), scrape);
      ScrapeRecords(Concat(pages[i..m]), scrape) ==
        if first.err.Some? then first else Batch(first.rows + rest.rows, rest.err)
  {
    assert pages[i..m][0] == pages[i];
    assert pages[i..m][1..] == pages[i + 1..m];
    assert Concat(pages[i..m]) == pages[i] + Concat(pages[i + 1..m]);
    ScrapeRecordsAppend(pages[i], Concat(pages[i + 1..m]), scrape);
  }

  lemma AppendIsAssociative<T>(a: seq<T>, b: seq<T>, c: seq<T>)
    ensures (a + b) + c == a + (b + c)
  {
  }

  /** scrape_person: build the row for mp and save it under (id, term), or
      raise before saving anything. */
  method ScrapePerson(db: Database, mp: Json, term: Term) returns (err: Option<Error>)
    requires db.Valid()
    modifies db
    ensures db.Valid()
    ensures RowsFor(term)(mp).Ok? ==>
      err == None && db.log == old(db.log) + [MemberWrite(RowsFor(term)(mp).value)]
    ensures RowsFor(term)(mp).Err? ==>
      err == Some(RowsFor(term)(mp).error) && db.log == old(db.log)
  {
    var r := RowsFor(term)(mp);
    if r.Err? {
      return Some(r.error);
    }
    db.SaveMembership(r.value);
    return None;
  }

  /** `mems.each { |mem| scrape_person(mem, t) }`: every record of the page
      in listing order, up to the first that raises. */
  method ScrapePage(db: Database, mems: seq<Json>, t: Term) returns (err: Option<Error>)
    requires db.Valid()
    modifies db
    ensures db.Valid()
    ensures db.log == old(db.log) + MemberWrites(ScrapeRecords(mems, RowsFor(t)).rows)
    ensures err == ScrapeRecords(mems, RowsFor(t)).err
  {
    var scrape := RowsFor(t);
    var j := 0;
    while j < |mems|
      invariant j <= |mems|
      invariant db.Valid()
      invariant ScrapeRecords(mems[..j], scrape).err.None?
      invariant db.log == old(db.log) + MemberWrites(ScrapeRecords(mems[..j], scrape).rows)
    {
      var e := ScrapePerson(db, mems[j], t);
      if e.Some? {
        ScrapeRecordsStopsAt(mems, j, scrape);
        return e;
      }
      ScrapeRecordsGrows(mems, j, scrape);
      AppendIsAssociative(old(db.log), MemberWrites(ScrapeRecords(mems[..j], scrape).rows), [MemberWrite(scrape(mems[j]).value)]);
      j := j + 1;
    }
    assert mems[..j] == mems;
    return None;
  }

  /** One turn of the loop at lines 27-32 for page number n: fetch it,
      scrape its records, and read its last record's flag. `more` says
      whether the loop goes on to page n + 1. */
  method ScrapeNextPage(db: Database, pages: seq<seq<Json>>, n: nat, t: Term)
    returns (err: Option<Error>, more: bool)
    requires 1 <= n <= |pages|
    requires db.Valid()
    modifies db
    ensures db.Valid()
    ensures var scraped := ScrapeRecords(pages[n - 1], RowsFor(t));
      db.log == old(db.log) + MemberWrites(scraped.rows)
    ensures more ==> err.None?
    ensures var here, scraped := WalkPages(pages, n - 1, RowsFor(t)), ScrapeRecords(pages[n - 1], RowsFor(t));
      more ==> var rest := WalkPages(pages, n, RowsFor(t));
        && here.rows == scraped.rows + rest.rows
        && here.err == rest.err
        && here.fetched == rest.fetched + 1
    ensures var here, scraped := WalkPages(pages, n - 1, RowsFor(t)), ScrapeRecords(pages[n - 1], RowsFor(t));
      !more ==> here.rows == scraped.rows && here.err == err && here.fetched == 1
  {
    var mems := pages[n - 1];
    err := ScrapePage(db, mems, t);
    if err.Some? {
      return err, false;
    }
    if mems == [] {
      return Some(EmptyPage(n)), false;
    }
    more := HasMorePages(mems[|mems| - 1]);
  }

  /** scrape_term(t), with `pages` the pages the endpoint serves for t's id.
      It returns the error that ended it, if any, and the value of its page
      counter at the end: it requested pages 1 to that number, in order,
      each once. */
  method ScrapeTerm(db: Database, t: Term, pages: seq<seq<Json>>)
    returns (err: Option<Error>, page: nat)
    requires db.Valid()
    modifies db
    ensures db.Valid()
    ensures db.log == old(db.log) + MemberWrites(ScrapedTerm(t, pages).rows)
    ensures err == ScrapedTerm(t, pages).err
    ensures page == ScrapedTerm(t, pages).fetched
  {
    err, page := None, 0;
    if t.id == Num(50) {
      return;
    }
    ghost var scrape := RowsFor(t);
    ghost var spec := WalkPages(pages, 0, scrape);
    assert ScrapedTerm(t, pages) == spec;
    ghost var done: seq<Row> := [];
    while true
      invariant page <= |pages|
      invariant db.Valid()
      invariant var w := WalkPages(pages, page, scrape);
        spec.rows == done + w.rows && spec.err == w.err && spec.fetched == page + w.fetched
      invariant db.log == old(db.log) + MemberWrites(done)
      decreases |pages| - page
    {
      page := page + 1;
      ghost var here := WalkPages(pages, page - 1, scrape);
      if page > |pages| {
        err := Some(NoSuchPage(page));
        assert here.rows == [] && done + [] == done;
        return;
      }
      var more;
      err, more := ScrapeNextPage(db, pages, page, t);
      ghost var rows := ScrapeRecords(pages[page - 1], scrape).rows;
      MemberWritesAppend(done, rows);
      AppendIsAssociative(old(db.log), MemberWrites(done), MemberWrites(rows));
      if !more {
        return;
      }
      AppendIsAssociative(done, rows, WalkPages(pages, page, scrape).rows);
      done := done + rows;
    }
  }
}
