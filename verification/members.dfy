/** scrape_person and gender_from: one raw councillor record and its term
    become one canonical membership row. */
module Members {
  import opened Wrappers
  import opened JsonValues
  import opened Errors
  import opened RubyStrings

  datatype Gender = Male | Female

  /** The code the upstream uses for g. */
  function GenderCode(g: Gender): Json
  {
    match g
    case Male => Str("m")
    case Female => Str("f")
  }

  /** gender_from: nil (or false) gives no gender, "m" and "f" give male and
      female, and any other value raises. */
  function GenderFrom(code: Json): (r: Result<Option<Gender>, Error>)
    ensures r == Ok(None) <==> !Truthy(code)
    ensures r.Ok? <==> !Truthy(code) || code == Str("m") || code == Str("f")
    ensures r.Err? ==> r.error == UnknownGender(code)
  {
    if !Truthy(code) then Ok(None)
    else if code == Str("m") then Ok(Some(Male))
    else if code == Str("f") then Ok(Some(Female))
    else Err(UnknownGender(code))
  }

  /** GenderFrom decodes exactly the codes GenderCode produces. */
  lemma GenderRoundTrip(g: Gender, code: Json)
    ensures GenderFrom(GenderCode(g)) == Ok(Some(g))
    ensures GenderFrom(code) == Ok(Some(g)) ==> code == GenderCode(g)
  {
  }

  /** A term after the top-level loop has normalised it: its id and its
      10-character start and end dates. */
  datatype Term = Term(id: Json, startDate: string, endDate: string)

  /** The hash scrape_person saves. `startDate` and `endDate` are absent
      when the key is not set; every other key is always present, possibly
      holding nil. */
  datatype Row = Row(
    id: Json,
    name: string,
    sortName: string,
    givenName: string,
    familyName: string,
    birthDate: string,
    gender: Option<Gender>,
    area: Json,
    areaId: Json,
    council: Json,
    councilId: Json,
    party: Json,
    partyId: Json,
    faction: Json,
    factionId: Json,
    term: Json,
    startDate: Option<string>,
    endDate: Option<string>)

  /** The value at key, which a string operation is about to use. */
  function StrAt(fields: map<string, Json>, key: string): Result<string, Error>
  {
    match Get(fields, key)
    case Str(s) => Ok(s)
    case _ => Err(BadValue(key))
  }

  /** The nested object at key, which is about to be indexed. */
  function ObjAt(fields: map<string, Json>, key: string): Result<map<string, Json>, Error>
  {
    match Get(fields, key)
    case Obj(f) => Ok(f)
    case _ => Err(BadValue(key))
  }

  /** An optional date (lines 56-57, 61-62): a falsy value is skipped, a
      string is cut to its date part, anything else cannot be sliced and
      compared with a string. */
  function DateAt(fields: map<string, Json>, key: string): Result<Option<string>, Error>
  {
    var v := Get(fields, key);
    if !Truthy(v) then Ok(None)
    else if v.Str? then Ok(Some(Slice(v.s, DateLength)))
    else Err(BadValue(key))
  }

  /** A value DateAt accepts. */
  predicate DateOk(v: Json)
  {
    !Truthy(v) || v.Str?
  }

  /** The record can be indexed as scrape_person does: what every step of
      lines 37-64 needs of it, stated apart from the order of the steps. */
  ghost predicate Scrapable(mp: Json)
  {
    && mp.Obj?
    && Get(mp.fields, "firstName").Str?
    && Get(mp.fields, "lastName").Str?
    && Get(mp.fields, "birthDate").Str?
    && GenderFrom(Get(mp.fields, "gender")).Ok?
    && Get(mp.fields, "canton").Obj?
    && Get(mp.fields, "council").Obj?
    && Get(mp.fields, "party").Obj?
    && Get(mp.fields, "faction").Obj?
    && Get(mp.fields, "membership").Obj?
    && DateOk(Get(Get(mp.fields, "membership").fields, "entryDate"))
    && DateOk(Get(Get(mp.fields, "membership").fields, "leavingDate"))
  }

  /** The nested object at key holds abbreviation and id. */
  ghost predicate Copied(fields: map<string, Json>, key: string, abbreviation: Json, id: Json)
  {
    && Get(fields, key).Obj?
    && abbreviation == Get(Get(fields, key).fields, "abbreviation")
    && id == Get(Get(fields, key).fields, "id")
  }

  /** The row scrape_person builds for mp under term, or the error it
      raises. The steps run in the order of lines 37-64. */
  function MembershipRow(mp: Json, term: Term): (r: Result<Row, Error>)
    ensures r.Ok? <==> Scrapable(mp)
    ensures r.Ok? ==>
      var row := r.value;
      && mp.Obj?
      && row.id == Get(mp.fields, "id")
      && row.givenName == Get(mp.fields, "firstName").s
      && row.familyName == Get(mp.fields, "lastName").s
      && row.name == row.givenName + " " + row.familyName
      && row.sortName == row.familyName + ", " + row.givenName
      && row.term == term.id
    ensures r.Ok? ==> Ok(r.value.gender) == GenderFrom(Get(mp.fields, "gender"))
    ensures r.Ok? ==>
      var row := r.value;
      && Copied(mp.fields, "canton", row.area, row.areaId)
      && Copied(mp.fields, "council", row.council, row.councilId)
      && Copied(mp.fields, "party", row.party, row.partyId)
      && Copied(mp.fields, "faction", row.faction, row.factionId)
    ensures r.Ok? ==> r.value.birthDate == Slice(Get(mp.fields, "birthDate").s, DateLength)
    ensures r.Ok? ==>
      var entry := Get(Get(mp.fields, "membership").fields, "entryDate");
      var start := r.value.startDate;
      && (start.Some? <==> Truthy(entry) && Less(term.startDate, Slice(entry.s, DateLength)))
      && (start.Some? ==> entry.Str? && start.value == Slice(entry.s, DateLength))
    ensures r.Ok? ==>
      var leaving := Get(Get(mp.fields, "membership").fields, "leavingDate");
      var end := r.value.endDate;
      && (end.Some? <==> Truthy(leaving) && Less(Slice(leaving.s, DateLength), term.endDate))
      && (end.Some? ==> leaving.Str? && end.value == Slice(leaving.s, DateLength))
  {
    if !mp.Obj? then Err(BadValue("record")) else
    var f := mp.fields;
    var first :- StrAt(f, "firstName");
    var last :- StrAt(f, "lastName");
    var birth :- StrAt(f, "birthDate");
    var gender :- GenderFrom(Get(f, "gender"));
    var canton :- ObjAt(f, "canton");
    var council :- ObjAt(f, "council");
    var party :- ObjAt(f, "party");
    var faction :- ObjAt(f, "faction");
    var membership :- ObjAt(f, "membership");
    var entry :- DateAt(membership, "entryDate");
    var leaving :- DateAt(membership, "leavingDate");
    Ok(Row(
      id := Get(f, "id"),
      name := first + " " + last,
      sortName := last + ", " + first,
      givenName := first,
      familyName := last,
      birthDate := Slice(birth, DateLength),
      gender := gender,
      area := Get(canton, "abbreviation"),
      areaId := Get(canton, "id"),
      council := Get(council, "abbreviation"),
      councilId := Get(council, "id"),
      party := Get(party, "abbreviation"),
      partyId := Get(party, "id"),
      faction := Get(faction, "abbreviation"),
      factionId := Get(faction, "id"),
      term := term.id,
      startDate := if entry.Some? && Less(term.startDate, entry.value) then entry else None,
      endDate := if leaving.Some? && Less(leaving.value, term.endDate) then leaving else None))
  }
}
