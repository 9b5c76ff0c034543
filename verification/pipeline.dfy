/** The top level (lines 71-82): every legislative period of the listing, in
    order, is normalised, saved to the `terms` table and then has its
    councillors scraped. The first failure anywhere ends the run. */
module Pipeline {
  import opened Wrappers
  import opened JsonValues
  import opened Errors
  import opened Members
  import opened Store
  import opened Pagination
  import opened Terms

  /** The pages the councillors endpoint serves for a term id, in page
      order: page n is the (n - 1)-th element. */
  type Fetch = Json -> seq<seq<Json>>

  /** What a run, or part of one, does: the saves in order and the error
      that ended it, if any. */
  datatype Outcome = Outcome(writes: seq<Write>, err: Option<Error>)

  /** The term scrape_term and scrape_person read from a normalised hash. */
  function TermOf(fields: map<string, Json>): Term
    requires Get(fields, "start_date").Str? && Get(fields, "end_date").Str?
  {
    Term(Get(fields, "id"), fields["start_date"].s, fields["end_date"].s)
  }

  /** Lines 74-81 for one element of the listing. Anything but a hash fails
      on its first `delete`. */
  function TermStep(raw: Json, fetch: Fetch): Outcome
  {
    if !raw.Obj? then Outcome([], Some(BadValue("term")))
    else match NormalisedTerm(raw.fields)
      case Err(e) => Outcome([], Some(e))
      case Ok(t) =>
        var w := ScrapedTerm(TermOf(t), fetch(Get(t, "id")));
        Outcome([TermWrite(t)] + MemberWrites(w.rows), w.err)
  }

  /** What handling one element of the listing does. The run is stated for
      any such function; the scraper's is StepFor(fetch). */
  type Step = Json -> Outcome

  function StepFor(fetch: Fetch): Step
  {
    raw => TermStep(raw, fetch)
  }

  /** Lines 73-82 over the listing: each term in order, stopping at the
      first failure. */
  function RunOutcome(terms: seq<Json>, step: Step): Outcome
    decreases |terms|
  {
    if terms == [] then Outcome([], None)
    else
      var prev := RunOutcome(terms[..|terms| - 1], step);
      if prev.err.Some? then prev
      else
        var last := step(terms[|terms| - 1]);
        Outcome(prev.writes + last.writes, last.err)
  }

  /** Term 50 is saved and then skipped: its row is the only save and it
      ends cleanly. */
  lemma TermFiftyHasNoMembers(raw: Json, fetch: Fetch)
    requires raw.Obj? && NormalisedTerm(raw.fields).Ok?
    requires Get(raw.fields, "id") == Num(50)
    ensures TermStep(raw, fetch) == Outcome([TermWrite(NormalisedTerm(raw.fields).value)], None)
  {
    var t := NormalisedTerm(raw.fields).value;
    assert Get(t, "id") == Num(50);
    assert [TermWrite(t)] + [] == [TermWrite(t)];
  }

  /** Running a + b is running a and then, unless a failed, b: the terms
      are handled strictly in listing order and a failure ends the run. */
  lemma {:induction false} RunOutcomeAppend(a: seq<Json>, b: seq<Json>, step: Step)
    ensures RunOutcome(a + b, step) ==
      if RunOutcome(a, step).err.Some? then RunOutcome(a, step)
      else Outcome(RunOutcome(a, step).writes + RunOutcome(b, step).writes, RunOutcome(b, step).err)
    decreases |b|
  {
    if b == [] {
      assert a + b == a;
      assert RunOutcome(a, step).writes + [] == RunOutcome(a, step).writes;
    } else {
      assert (a + b)[..|a + b| - 1] == a + b[..|b| - 1];
      assert (a + b)[|a + b| - 1] == b[|b| - 1];
      RunOutcomeAppend(a, b[..|b| - 1], step);
      assert RunOutcome(a, step).writes + RunOutcome(b[..|b| - 1], step).writes + step(b[|b| - 1]).writes ==
        RunOutcome(a, step).writes + (RunOutcome(b[..|b| - 1], step).writes + step(b[|b| - 1]).writes);
    }
  }

  /** The latest term saved in ws, if any: the one the membership rows that
      follow it belong to. */
  function CurrentTerm(ws: seq<Write>): Option<Json>
    decreases |ws|
  {
    if ws == [] then None
    else match ws[|ws| - 1]
      case TermWrite(f) => Some(TermKey(f))
      case MemberWrite(_) => CurrentTerm(ws[..|ws| - 1])
  }

  /** Every membership row is saved after its term's row, with no other
      term saved in between. */
  ghost predicate MembersFollowTheirTerm(ws: seq<Write>)
    decreases |ws|
  {
    ws == [] ||
    var init, last := ws[..|ws| - 1], ws[|ws| - 1];
    && MembersFollowTheirTerm(init)
    && (last.MemberWrite? ==> CurrentTerm(init) == Some(last.row.term))
  }

  /** The same, write by write: whatever save a membership row is, the
      latest term saved before it is the row's own. */
  lemma {:induction false} EachMemberFollowsItsTerm(ws: seq<Write>, j: nat)
    requires MembersFollowTheirTerm(ws)
    requires j < |ws| && ws[j].MemberWrite?
    ensures CurrentTerm(ws[..j]) == Some(ws[j].row.term)
    decreases |ws|
  {
    if j < |ws| - 1 {
      var init := ws[..|ws| - 1];
      assert init[..j] == ws[..j] && init[j] == ws[j];
      EachMemberFollowsItsTerm(init, j);
    }
  }

  lemma {:induction false} CurrentTermSkipsMembers(ws: seq<Write>, rows: seq<Row>)
    ensures CurrentTerm(ws + MemberWrites(rows)) == CurrentTerm(ws)
    decreases |rows|
  {
    if rows == [] {
      assert ws + [] == ws;
    } else {
      var init := rows[..|rows| - 1];
      assert ws + MemberWrites(rows) == (ws + MemberWrites(init)) + [MemberWrite(rows[|rows| - 1])];
      assert ((ws + MemberWrites(init)) + [MemberWrite(rows[|rows| - 1])])[..|ws + MemberWrites(init)|]
        == ws + MemberWrites(init);
      CurrentTermSkipsMembers(ws, init);
    }
  }

  /** The saves of one term: none, or its row followed by rows that all
      belong to it. */
  ghost predicate TermBlock(ws: seq<Write>)
  {
    ws == [] ||
    exists f: map<string, Json>, rows: seq<Row> ::
      && ws == [TermWrite(f)] + MemberWrites(rows)
      && forall r :: r in rows ==> r.term == TermKey(f)
  }

  /** Saving a term and then rows of that term keeps every row after its
      term. */
  lemma {:induction false} FollowAfterTermBlock(ws: seq<Write>, f: map<string, Json>, rows: seq<Row>)
    requires MembersFollowTheirTerm(ws)
    requires forall r :: r in rows ==> r.term == TermKey(f)
    ensures MembersFollowTheirTerm(ws + ([TermWrite(f)] + MemberWrites(rows)))
    decreases |rows|
  {
    if rows == [] {
      assert ws + ([TermWrite(f)] + []) == ws + [TermWrite(f)];
      assert (ws + [TermWrite(f)])[..|ws|] == ws;
    } else {
      var init, last := rows[..|rows| - 1], rows[|rows| - 1];
      var before := ws + ([TermWrite(f)] + MemberWrites(init));
      AppendIsAssociative([TermWrite(f)], MemberWrites(init), [MemberWrite(last)]);
      AppendIsAssociative(ws, [TermWrite(f)] + MemberWrites(init), [MemberWrite(last)]);
      assert (before + [MemberWrite(last)])[..|before|] == before;
      assert forall r :: r in init ==> r in rows;
      FollowAfterTermBlock(ws, f, init);
      CurrentTermAfterTerm(ws, f, init);
      AppendIsAssociative(ws, [TermWrite(f)], MemberWrites(init));
      assert last in rows;
    }
  }

  /** Right after a term's row and any rows that follow it, that term is
      the current one. */
  lemma CurrentTermAfterTerm(ws: seq<Write>, f: map<string, Json>, rows: seq<Row>)
    ensures CurrentTerm(ws + [TermWrite(f)] + MemberWrites(rows)) == Some(TermKey(f))
  {
    CurrentTermSkipsMembers(ws + [TermWrite(f)], rows);
    assert (ws + [TermWrite(f)])[..|ws|] == ws;
  }

  /** Every membership row is saved after its term's row, with no other
      term saved in between, whenever each step saves a term block. */
  lemma {:induction false} BlocksKeepMembersAfterTheirTerm(terms: seq<Json>, step: Step)
    requires forall raw :: TermBlock(step(raw).writes)
    ensures MembersFollowTheirTerm(RunOutcome(terms, step).writes)
    decreases |terms|
  {
    if terms != [] {
      var init := terms[..|terms| - 1];
      var last := step(terms[|terms| - 1]);
      BlocksKeepMembersAfterTheirTerm(init, step);
      var prev := RunOutcome(init, step);
      if prev.err.None? {
        assert TermBlock(last.writes);
        if last.writes == [] {
          assert prev.writes + [] == prev.writes;
        } else {
          var f: map<string, Json>, rows: seq<Row> :|
            && last.writes == [TermWrite(f)] + MemberWrites(rows)
            && forall r :: r in rows ==> r.term == TermKey(f);
          FollowAfterTermBlock(prev.writes, f, rows);
        }
      }
    }
  }

  /** A term's row is saved before the rows of its councillors, and each of
      those rows follows it with no other term saved in between. */
  lemma TermRowPrecedesItsMembers(terms: seq<Json>, fetch: Fetch)
    ensures MembersFollowTheirTerm(RunOutcome(terms, StepFor(fetch)).writes)
  {
    forall raw
      ensures TermBlock(StepFor(fetch)(raw).writes)
    {
      TermStepIsBlock(raw, fetch);
    }
    BlocksKeepMembersAfterTheirTerm(terms, StepFor(fetch));
  }

  /** One term's saves: nothing when it does not normalise, otherwise its
      normalised row and then rows carrying its id. */
  lemma TermStepIsBlock(raw: Json, fetch: Fetch)
    ensures TermBlock(TermStep(raw, fetch).writes)
    ensures TermStep(raw, fetch).writes == [] <==> !raw.Obj? || NormalisedTerm(raw.fields).Err?
  {
    if raw.Obj? && NormalisedTerm(raw.fields).Ok? {
      var t := NormalisedTerm(raw.fields).value;
      var w := ScrapedTerm(TermOf(t), fetch(Get(t, "id")));
      assert TermStep(raw, fetch).writes == [TermWrite(t)] + MemberWrites(w.rows);
      assert forall r :: r in w.rows ==> r.term == TermKey(t);
    }
  }

  /** The term rows a log saves, in order. */
  function SavedTerms(ws: seq<Write>): seq<map<string, Json>>
    decreases |ws|
  {
    if ws == [] then []
    else
      SavedTerms(ws[..|ws| - 1]) +
      match ws[|ws| - 1]
      case TermWrite(f) => [f]
      case MemberWrite(_) => []
  }

  lemma {:induction false} SavedTermsAppend(a: seq<Write>, b: seq<Write>)
    ensures SavedTerms(a + b) == SavedTerms(a) + SavedTerms(b)
    decreases |b|
  {
    if b == [] {
      assert a + b == a;
    } else {
      assert (a + b)[..|a + b| - 1] == a + b[..|b| - 1];
      SavedTermsAppend(a, b[..|b| - 1]);
    }
  }

  lemma {:induction false} NoTermsAmongMembers(rows: seq<Row>)
    ensures SavedTerms(MemberWrites(rows)) == []
    decreases |rows|
  {
    if rows != [] {
      var init := rows[..|rows| - 1];
      NoTermsAmongMembers(init);
      SavedTermsAppend(MemberWrites(init), [MemberWrite(rows[|rows| - 1])]);
    }
  }

  /** A term that ends cleanly saved exactly one term row: its own,
      normalised. */
  lemma TermStepSavesItsTerm(raw: Json, fetch: Fetch)
    requires TermStep(raw, fetch).err.None?
    ensures raw.Obj? && NormalisedTerm(raw.fields).Ok?
    ensures SavedTerms(TermStep(raw, fetch).writes) == [NormalisedTerm(raw.fields).value]
  {
    var t := NormalisedTerm(raw.fields).value;
    var w := ScrapedTerm(TermOf(t), fetch(Get(t, "id")));
    SavedTermsAppend([TermWrite(t)], MemberWrites(w.rows));
    NoTermsAmongMembers(w.rows);
    assert SavedTerms([TermWrite(t)]) == [t] by {
      assert [TermWrite(t)][..0] == [];
    }
  }

  /** The terms of the listing that normalise, normalised, in listing
      order. */
  function NormalisedTerms(terms: seq<Json>): seq<map<string, Json>>
    decreases |terms|
  {
    if terms == [] then []
    else
      var last := terms[|terms| - 1];
      NormalisedTerms(terms[..|terms| - 1]) +
      if last.Obj? && NormalisedTerm(last.fields).Ok? then [NormalisedTerm(last.fields).value] else []
  }

  /** A run that ends cleanly saves every term of the listing, normalised,
      once each and in listing order, and no other term rows. */
  lemma {:induction false} CleanRunSavesEveryTerm(terms: seq<Json>, fetch: Fetch)
    requires RunOutcome(terms, StepFor(fetch)).err.None?
    ensures SavedTerms(RunOutcome(terms, StepFor(fetch)).writes) == NormalisedTerms(terms)
    ensures |NormalisedTerms(terms)| == |terms|
    decreases |terms|
  {
    if terms != [] {
      var init, raw := terms[..|terms| - 1], terms[|terms| - 1];
      var prev := RunOutcome(init, StepFor(fetch));
      CleanRunSavesEveryTerm(init, fetch);
      TermStepSavesItsTerm(raw, fetch);
      SavedTermsAppend(prev.writes, TermStep(raw, fetch).writes);
    }
  }

  /** Lines 74-81 for one element of the listing: normalise it in place,
      save it, then scrape its councillors. */
  method SaveTermAndMembers(db: Database, raw: Json, fetch: Fetch) returns (err: Option<Error>)
    requires db.Valid()
    modifies db
    ensures db.Valid()
    ensures db.log == old(db.log) + StepFor(fetch)(raw).writes
    ensures err == StepFor(fetch)(raw).err
  {
    if !raw.Obj? {
      assert old(db.log) + [] == old(db.log);
      return Some(BadValue("term"));
    }
    var t := new TermHash(raw.fields);
    err := Normalise(t);
    if err.Some? {
      assert old(db.log) + [] == old(db.log);
      return;
    }
    ghost var fields := t.entries;
    db.SaveTerm(t.entries);
    var term := TermOf(t.entries);
    var fetched;
    err, fetched := ScrapeTerm(db, term, fetch(Get(t.entries, "id")));
    ghost var rows := ScrapedTerm(term, fetch(Get(fields, "id"))).rows;
    AppendIsAssociative(old(db.log), [TermWrite(fields)], MemberWrites(rows));
  }

  /** Handling term i after a clean run of the ones before it. */
  lemma RunOutcomeNext(terms: seq<Json>, i: nat, step: Step)
    requires i < |terms|
    requires RunOutcome(terms[..i], step).err.None?
    ensures RunOutcome(terms[..i + 1], step) ==
      Outcome(RunOutcome(terms[..i], step).writes + step(terms[i]).writes, step(terms[i]).err)
  {
    assert terms[..i + 1][..i] == terms[..i];
  }

  /** A failure at term i ends the run there. */
  lemma RunOutcomeStopsAt(terms: seq<Json>, i: nat, step: Step)
    requires i < |terms|
    requires RunOutcome(terms[..i + 1], step).err.Some?
    ensures RunOutcome(terms, step) == RunOutcome(terms[..i + 1], step)
  {
    RunOutcomeAppend(terms[..i + 1], terms[i + 1..], step);
    assert terms[..i + 1] + terms[i + 1..] == terms;
  }

  /** Lines 71-82 with the listing already parsed. */
  method Run(db: Database, terms: seq<Json>, fetch: Fetch) returns (err: Option<Error>)
    requires db.Valid()
    modifies db
    ensures db.Valid()
    ensures db.log == old(db.log) + RunOutcome(terms, StepFor(fetch)).writes
    ensures err == RunOutcome(terms, StepFor(fetch)).err
  {
    ghost var step := StepFor(fetch);
    for i := 0 to |terms|
      invariant db.Valid()
      invariant RunOutcome(terms[..i], step).err.None?
      invariant db.log == old(db.log) + RunOutcome(terms[..i], step).writes
    {
      RunOutcomeNext(terms, i, step);
      err := SaveTermAndMembers(db, terms[i], fetch);
      AppendIsAssociative(old(db.log), RunOutcome(terms[..i], step).writes, step(terms[i]).writes);
      if err.Some? {
        RunOutcomeStopsAt(terms, i, step);
        return;
      }
    }
    assert terms[..|terms|] == terms;
    return None;
  }
}
