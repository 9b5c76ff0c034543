# Swiss parliament councillors scraper, modelled in Dafny

`scraper.rb` builds a record of which councillors sat in which legislative
period of the Swiss Federal Assembly. It reads the upstream list of
legislative periods ("terms"). For each term it does three things:

- It renames the term's `from` and `to` to `start_date` and `end_date`,
  cut to at most 10 characters.
- It drops the upstream's transport fields.
- It saves the term to the `terms` table under its `id`.

It then pages through the historic councillors of that term, page 1, 2, …,
until the last record of a page no longer says `hasMorePages`. Each
councillor record becomes one membership row, saved under `(id, term)`. The
row holds the name in four forms, a birth date cut to its date part, a
gender decoded from `m`/`f`, and the abbreviation and id of canton, council,
party and faction. An entry date is kept only when it is later than the
term's start, and a leaving date only when it is earlier than the term's
end. Term 50 is saved but its councillors are not
fetched. Nothing is rescued: the first failure of any kind ends the run.

The model is organised as follows.

- `JsonValues` holds parsed JSON values, with Ruby's `hash[:key]` and Ruby
  truthiness.
- `Errors` lists every way a run ends early.
- `RubyStrings` holds `slice(0, 10)` and Ruby's lexicographic `<` on
  strings.
- `Members` holds `gender_from` and `scrape_person`'s row building, as
  functions.
- `Store` holds the two upsert tables. `Database` is a class whose maps the
  saves update in place. A ghost log of every save keeps the maps equal to
  a replay of that log.
- `Terms` holds the term normalisation. It is a function and also the
  in-place `delete`/`[]=` steps on a `TermHash` object.
- `Pagination` holds `scrape_term`: the page loop and the record loop as
  methods over the database. Each is proved against a function of the pages.
- `Pipeline` holds the top-level loop over the listing. It proves the write
  order: every term row comes before its councillors' rows.

Where the code and its documentation disagree, the model follows the code:

- A missing `birthDate`, or one that is neither a string nor an array,
  aborts the run (`nil.slice!`, line 43), although a birth date is
  documented as optional.
- A term's `start_date <= end_date` is documented as an invariant. Nothing
  in the code checks it, so the model does not assume it.
- The `terms` table is documented as holding `id`, `start_date` and
  `end_date`. Line 80 saves the whole normalised hash, so every other field
  of the upstream term is saved too.
- A term that has not started yet is documented as not scraped (so does
  the comment on line 22). The code skips only the term with id 50, and so
  does the model.

## Model

| member | source | states |
|---|---|---|
| Members.GenderFrom | scraper.rb:14-19 | no gender exactly for a falsy code; a gender exactly for "m" or "f"; any other value raises an unknown-gender error naming it |
| Members.GenderRoundTrip | scraper.rb:14-19 | decoding the code of a gender gives that gender back, and only that gender's code decodes to it |
| RubyStrings.Slice | scraper.rb:57 | `slice(0, n)` is a prefix of the string whose length is the smaller of n and the string's length |
| RubyStrings.Less | scraper.rb:58-63 | Ruby's `<` on strings (line 63), and `>` with the operands swapped (line 58); its meaning is stated by the four lemmas below |
| RubyStrings.LessIsFirstDifference | scraper.rb:58 | string `<` holds exactly when there is a first position where the left string has ended or holds the smaller character |
| RubyStrings.LessIrreflexive | scraper.rb:58 | no date is later than itself, so an entry date equal to the term start is dropped |
| RubyStrings.LessTrichotomy | scraper.rb:58 | of two different strings exactly one is the smaller |
| RubyStrings.LessTransitive | scraper.rb:58 | string `<` is transitive |
| Members.MembershipRow | scraper.rb:36-65 | a row is built exactly when every field scrape_person indexes has the kind it needs; the row's name forms, ids, term, gender and the abbreviation/id pairs come from the record; the birth date is the record's, cut to 10 characters; start_date is present iff the entry date is truthy and later than the term start, end_date iff the leaving date is truthy and earlier than the term end, each holding the cut date |
| Store.Database.SaveMembership | scraper.rb:66 | the memberships table maps (id, term) to the row, the terms table is unchanged, and the tables stay the replay of the save log |
| Store.Database.SaveTerm | scraper.rb:80 | the terms table maps the term's id to the whole hash, the memberships table is unchanged, and the tables stay the replay of the save log |
| Store.Upserts | scraper.rb:66 | save_sqlite's insert-or-update, applied pair by pair; its meaning is stated by UpsertsLastWriteWins |
| Store.Apply | scraper.rb:80 | one save: a term row goes to the terms table under its id, a membership row to the memberships table under (id, term) (line 66) |
| Store.UpsertsLastWriteWins | scraper.rb:66 | after a sequence of upserts a key holds the value of its last upsert, or what it held before when none wrote it |
| Store.UpsertsIdempotent | scraper.rb:66 | upserting the same pairs again leaves the table unchanged |
| Store.UpsertsAppend | scraper.rb:66 | upserting a + b is upserting a, then b |
| Store.UpsertsOfAppend | scraper.rb:66 | the upserts of two consecutive logs are the upserts of each, in order, on both tables |
| Store.ReplayStep | scraper.rb:66 | replaying a log plus one save is applying that save to the replay of the log |
| Store.ReplayTwiceIsReplayOnce | scraper.rb:66 | writing the same saves twice leaves both tables as writing them once: a re-run over unchanged data duplicates and changes nothing |
| Store.MemberWritesArePerRow | scraper.rb:66 | one membership save per row, in the rows' order |
| Store.MemberWritesAppend | scraper.rb:66 | the saves of two runs of rows are the saves of each, in order |
| Pagination.ScrapeRecords | scraper.rb:29-31 | `mems.each { scrape_person }` stopping at the first record that raises; its meaning is stated by the four lemmas below |
| Pagination.ScrapeRecordsStopsAtFirstFailure | scraper.rb:29-31 | the rows are the records' rows in listing order up to the first record that raises, and that record's error is the one returned; without an error every record gives a row |
| Pagination.ScrapeRecordsAppend | scraper.rb:29-31 | scraping two runs of records is scraping the first and, unless it raised, the second |
| Pagination.ScrapeRecordsStopsAt | scraper.rb:29-31 | when the records before j scrape and record j raises, the rows are those before j and the error is record j's |
| Pagination.ScrapeRecordsGrows | scraper.rb:29-31 | when the records before j scrape and record j does too, its row and its save join the end |
| Pagination.HasMorePages | scraper.rb:32 | the last record's hasMorePages is truthy |
| Pagination.StopsAt | scraper.rb:32 | a page ends the loop: it is empty, so reading its flag fails, or its last record's flag is falsy |
| Pagination.WalkPages | scraper.rb:25-33 | the loop from a given page requests at least one page, and at most one past the last page served |
| Pagination.WalkRowsAreScraped | scraper.rb:29-31 | every row the page loop saves is the row of some record of some page |
| Pagination.FirstStop | scraper.rb:32 | the first stopping page lies between the start and the end of the pages |
| Pagination.FirstStopIsFirst | scraper.rb:32 | no page before the first stopping page stops the loop, and that page does unless every page asks for more |
| Pagination.ReadUpTo | scraper.rb:32 | the loop reads pages up to and including the first stopping page, within the pages served |
| Pagination.WalkReadsUpToFirstStop | scraper.rb:25-33 | the page loop saves exactly the rows of the records on the pages up to the first stopping page, in order, and ends at the first record that raises. Otherwise it ends cleanly at a page whose last record has no hasMorePages, fails on an empty page, or requests a page past the end. It requests pages 1 to LastRequested + 1 from the start, one each, and no others, so no page after the one holding a failing record is fetched |
| Pagination.LastRequested | scraper.rb:26-32 | the last page the loop requests is no later than the first stopping page |
| Pagination.LastRequestedIsFirst | scraper.rb:26-32 | every page before the last one requested scrapes cleanly and has hasMorePages on its last record; the last one raises or stops the loop, unless it is past the end |
| Pagination.WalkStopsAtThisPage | scraper.rb:25-33 | the same when the first page read stops the loop |
| Pagination.WalkMovesOn | scraper.rb:25-33 | the same when the first page asks for more, given it for the rest of the pages |
| Pagination.ScrapeFirstPageThenRest | scraper.rb:29-31 | scraping several pages' records is scraping the first page and then, unless it raised, the rest |
| Pagination.ScrapedTerm | scraper.rb:21-34 | term 50 requests no page and saves nothing; any other term requests between 1 and one past the last page; every saved row carries the term's id |
| Pagination.ScrapePerson | scraper.rb:36-67 | a record that scrapes is saved as its row and nothing else is saved; one that raises saves nothing and returns its error |
| Pagination.ScrapePage | scraper.rb:29-31 | the saves are the page's rows in listing order up to the first record that raises, and the error is that record's |
| Pagination.ScrapeNextPage | scraper.rb:27-32 | one turn of the page loop saves the page's rows; it goes on only when the page ended cleanly with hasMorePages, and then the rest of the loop is the loop from the next page; otherwise the loop ends with this page's rows and error |
| Pagination.ScrapeTerm | scraper.rb:21-34 | saves exactly the rows ScrapedTerm describes, in order, returns its error, and ends with its page counter at the number of pages requested |
| Terms.NormalisedTerm | scraper.rb:74-78 | normalising succeeds iff `from` and `to` are strings, and fails naming the first that is not; start_date and end_date hold the first 10 characters of `from` and `to` |
| Terms.NormalisedTermKeepsOtherFields | scraper.rb:74-78 | the normalised hash has the original keys less from, to, hasMorePages, updated and code, plus the two dates; every other field keeps its value |
| Terms.TermHash.constructor | scraper.rb:73 | the hash holds the listing's fields |
| Terms.TermHash.Delete | scraper.rb:74-78 | `delete` returns what the key held, nil if nothing, and removes the key |
| Terms.TermHash.Put | scraper.rb:74-75 | `[]=` sets the key to the value |
| Terms.DropTransportKeys | scraper.rb:76 | deleting the three transport fields one by one removes exactly those keys |
| Terms.Normalise | scraper.rb:74-78 | the in-place steps leave the hash equal to NormalisedTerm of the original, or return NormalisedTerm's error |
| Pipeline.TermStep | scraper.rb:74-81 | one element of the listing: normalised, saved, then its councillors scraped; its meaning is stated by TermStepIsBlock, TermStepSavesItsTerm and TermFiftyHasNoMembers |
| Pipeline.RunOutcome | scraper.rb:73-82 | the terms of the listing in order, stopping at the first failure; its meaning is stated by RunOutcomeAppend, TermRowPrecedesItsMembers and CleanRunSavesEveryTerm |
| Pipeline.TermFiftyHasNoMembers | scraper.rb:22 | term 50 saves its term row and nothing else, and ends cleanly |
| Pipeline.RunOutcomeAppend | scraper.rb:73-82 | running two runs of terms is running the first and, unless it failed, the second: terms are handled in listing order and the first failure ends the run |
| Pipeline.RunOutcomeNext | scraper.rb:73-82 | after a clean run of the terms before i, term i's saves and error follow |
| Pipeline.RunOutcomeStopsAt | scraper.rb:73-82 | a failure at term i ends the run there |
| Pipeline.EachMemberFollowsItsTerm | scraper.rb:80-81 | in an ordered log, the latest term saved before any membership row is that row's term |
| Pipeline.CurrentTermSkipsMembers | scraper.rb:80-81 | membership saves do not change which term was saved last |
| Pipeline.CurrentTermAfterTerm | scraper.rb:80-81 | right after a term row and its membership rows, that term is the last saved |
| Pipeline.FollowAfterTermBlock | scraper.rb:80-81 | saving a term row and then rows of that term keeps the log ordered |
| Pipeline.BlocksKeepMembersAfterTheirTerm | scraper.rb:73-82 | when each term saves its row and then rows of that term only, the whole run's log has every membership row after its own term's row with no other term in between |
| Pipeline.TermRowPrecedesItsMembers | scraper.rb:80-81 | in every run, each membership row is saved after its own term's row, with no other term saved in between |
| Pipeline.TermStepIsBlock | scraper.rb:74-81 | one term saves its normalised row followed by rows carrying its id, and saves nothing exactly when it is not a hash or fails to normalise |
| Pipeline.SavedTermsAppend | scraper.rb:80 | the term rows of two consecutive logs are those of each, in order |
| Pipeline.NoTermsAmongMembers | scraper.rb:66 | membership saves save no term row |
| Pipeline.TermStepSavesItsTerm | scraper.rb:73-80 | a term that ends cleanly was a hash that normalises and saved exactly one term row, its normalised self |
| Pipeline.CleanRunSavesEveryTerm | scraper.rb:73-80 | a run that ends cleanly saves every term of the listing, normalised, once each and in listing order, and no other term row |
| Pipeline.SaveTermAndMembers | scraper.rb:74-81 | one element of the listing saves its normalised row and then its councillors' rows, exactly as the one-term outcome describes, and returns its error |
| Pipeline.Run | scraper.rb:71-82 | the database's saves are the whole run's saves in order and the error is the one that ended the run |

## Left out

- `json_from` is not modelled: the HTTP request, the `Accept` header and JSON parsing. The listing is given as a sequence of parsed values. A term's councillor pages are given as a function from the term id to a finite sequence of parsed pages.
- A listing or a page that is not a JSON array is not modelled; both are taken as sequences.
- The page URL (`base % page`, line 23) is not modelled: page n is the n-th element of the term's pages.
- The endpoint serves a finite number of pages per term. A request past the last one is the `NoSuchPage` error. An upstream that always answers `hasMorePages` would make the live scraper loop forever; that is not modelled.
- `ScraperWiki.save_sqlite`'s SQLite internals (schema creation, column typing, transactions) are not modelled. Each table is a map from its key to the last row saved under it.
- `puts t` (line 79) is console output and is not modelled, nor are the unused `require` lines.
- Numbers are integers, so a float id such as `50.0`, which Ruby finds equal to `50`, is not modelled.
- Array-valued dates are not modelled. Ruby's `Array#slice!` accepts a `birthDate`, `from` or `to` that is a JSON array. The array is carried into the saved row (`birthDate`) or the term hash (`from`/`to`) and handed to `save_sqlite`. `from`/`to` then fail only when line 58 or 63 compares them with a string. The model fails on an array date at once.
- `slice!` also removes the date part from the raw strings (lines 43, 74, 75). Nothing reads those strings afterwards, so only the value it returns is modelled.
- Ruby's exception classes are merged into the `Error` values; only the fact that the run ends and which field caused it are kept.
- The other eras of the upstream service (the current term's flat records, pictures and biographies) are not part of this script, so they are not modelled.
- Terms.Normalise: after a failed normalisation the contents of the hash are not stated. The run ends there and never reads it again.
- Pagination.ScrapeTerm: returns the final value of its page counter rather than the list of requested URLs. Pages are requested from 1 upward, one at a time, so the counter determines that list.
