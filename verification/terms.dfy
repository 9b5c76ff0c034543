/** The legislative-period hashes as the top level reshapes them before
    saving (lines 74-78): `from` and `to` become 10-character `start_date`
    and `end_date`, and the upstream's paging and bookkeeping fields are
    dropped. */
module Terms {
  import opened Wrappers
  import opened JsonValues
  import opened Errors
  import opened RubyStrings

  /** The fields line 76 deletes, in the order it deletes them. */
  const TransportKeyOrder: seq<string> := ["hasMorePages", "updated", "code"]

  const TransportKeys: set<string> := {"hasMorePages", "updated", "code"}

  /** The term hash after lines 74-78, or the error that aborts the run
      when `from` or `to` is not a string (a missing one is nil). */
  function NormalisedTerm(t: map<string, Json>): (r: Result<map<string, Json>, Error>)
    ensures r.Ok? <==> Get(t, "from").Str? && Get(t, "to").Str?
    ensures r.Err? ==>
      r.error == if Get(t, "from").Str? then BadValue("to") else BadValue("from")
    ensures r.Ok? ==> TermDate(r.value, "start_date", Get(t, "from").s)
    ensures r.Ok? ==> TermDate(r.value, "end_date", Get(t, "to").s)
  {
    var from := Get(t, "from");
    if !from.Str? then Err(BadValue("from"))
    else
      var withStart := (t - {"from"})["start_date" := Str(Slice(from.s, DateLength))];
      var to := Get(withStart, "to");
      if !to.Str? then Err(BadValue("to"))
      else
        var withEnd := (withStart - {"to"})["end_date" := Str(Slice(to.s, DateLength))];
        Ok(withEnd - TransportKeys)
  }

  /** Field key of t holds the first ten characters of raw: a string no
      longer than ten that raw starts with, all of raw when it is shorter. */
  ghost predicate TermDate(t: map<string, Json>, key: string, raw: string)
  {
    && key in t
    && t[key].Str?
    && t[key].s <= raw
    && |t[key].s| == if |raw| < DateLength then |raw| else DateLength
  }

  /** Normalising keeps every other field as it was and adds none: the
      result has exactly the original keys less `from`, `to` and the three
      transport fields, plus the two dates. */
  lemma NormalisedTermKeepsOtherFields(t: map<string, Json>)
    requires NormalisedTerm(t).Ok?
    ensures var n := NormalisedTerm(t).value;
      && n.Keys == t.Keys - {"from", "to"} - TransportKeys + {"start_date", "end_date"}
      && forall k :: k in n && k != "start_date" && k != "end_date" ==> k in t && n[k] == t[k]
  {
  }

  /** A term hash from the legislative-periods listing, changed in place. */
  class TermHash {
    var entries: map<string, Json>

    constructor (fields: map<string, Json>)
      ensures entries == fields
    {
      entries := fields;
    }

    /** Hash#delete: remove key and return what it held, nil if nothing. */
    method Delete(key: string) returns (v: Json)
      modifies this
      ensures v == Get(old(entries), key)
      ensures entries == old(entries) - {key}
    {
      v := Get(entries, key);
      entries := entries - {key};
    }

    /** Hash#[]=. */
    method Put(key: string, v: Json)
      modifies this
      ensures entries == old(entries)[key := v]
    {
      entries := entries[key := v];
    }
  }

  /** m with the keys of ks deleted one after the other. */
  function Deleted(m: map<string, Json>, ks: seq<string>): map<string, Json>
    decreases |ks|
  {
    if ks == [] then m else Deleted(m, ks[..|ks| - 1]) - {ks[|ks| - 1]}
  }

  /** Line 76: delete each field of TransportKeyOrder in turn. */
  method DropTransportKeys(t: TermHash)
    modifies t
    ensures t.entries == old(t.entries) - TransportKeys
  {
    for n := 0 to |TransportKeyOrder|
      invariant t.entries == Deleted(old(t.entries), TransportKeyOrder[..n])
    {
      assert TransportKeyOrder[..n + 1][..n] == TransportKeyOrder[..n];
      var gone := t.Delete(TransportKeyOrder[n]);
    }
    assert TransportKeyOrder[..3] == TransportKeyOrder;
    assert TransportKeyOrder[..2] == ["hasMorePages", "updated"];
    assert TransportKeyOrder[..1] == ["hasMorePages"];
  }

  /** Lines 74-78 on t: the dates first, then the three fields of line 76,
      then the two repeated deletes of lines 77-78, which find nothing. */
  method Normalise(t: TermHash) returns (err: Option<Error>)
    modifies t
    ensures NormalisedTerm(old(t.entries)).Ok? ==>
      err == None && t.entries == NormalisedTerm(old(t.entries)).value
    ensures NormalisedTerm(old(t.entries)).Err? ==>
      err == Some(NormalisedTerm(old(t.entries)).error)
  {
    var from := t.Delete("from");
    if !from.Str? {
      return Some(BadValue("from"));
    }
    t.Put("start_date", Str(Slice(from.s, DateLength)));
    var to := t.Delete("to");
    if !to.Str? {
      return Some(BadValue("to"));
    }
    t.Put("end_date", Str(Slice(to.s, DateLength)));
    DropTransportKeys(t);
    ghost var dropped := t.entries;
    var gone := t.Delete("hasMorePages");
    gone := t.Delete("updated");
    assert t.entries == dropped;
    return None;
  }
}
