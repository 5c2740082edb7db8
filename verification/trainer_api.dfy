/**
 * The trainer endpoints of the client's API slice: the profile query, the
 * profile deletion and the search query, whose URL carries the search
 * parameters as a query string.
 */
module TrainerApi {
  import opened Js
  import opened FormUrlEncoded

  datatype HttpMethod = GET | DELETE

  datatype Request = Request(url: string, verb: HttpMethod)

  datatype TrainerEndpoint = GetTrainerProfile | DeleteTrainerProfile

  /** The request each endpoint sends: a bare URL is a GET. */
  function RequestOf(e: TrainerEndpoint): (r: Request)
    ensures r.url == "/trainer"
    ensures r.verb == GET <==> e == GetTrainerProfile
  {
    match e
    case GetTrainerProfile => Request("/trainer", GET)
    case DeleteTrainerProfile => Request("/trainer", DELETE)
  }

  const SearchPath: string := "/trainer/search"

  /** `val !== undefined && val !== null && val !== ""`: `0` and `false`
      stay. */
  predicate Kept(v: JsValue) {
    !v.Undefined? && !v.Null? && v != Str("")
  }

  /** The pairs `queryParams.append(key, String(val))` adds, in the object's
      key order. */
  function KeptPairs(params: Obj): (r: seq<(string, string)>)
    ensures |r| <= |params|
    ensures forall p :: p in r <==>
              exists i :: 0 <= i < |params| && Kept(params[i].1) && p == (params[i].0, ToJsString(params[i].1))
  {
    if params == [] then []
    else
      var init, last := params[..|params| - 1], params[|params| - 1];
      assert forall i :: 0 <= i < |init| ==> init[i] == params[i];
      KeptPairs(init) + (if Kept(last.1) then [(last.0, ToJsString(last.1))] else [])
  }

  /** Entries keep their relative order: the pairs of two parts of an
      object are the pairs of the first part followed by those of the
      second. */
  lemma {:induction false} KeptPairsAppend(a: Obj, b: Obj)
    ensures KeptPairs(a + b) == KeptPairs(a) + KeptPairs(b)
    decreases |b|
  {
    if b != [] {
      var init := b[..|b| - 1];
      assert (a + b)[..|a + b| - 1] == a + init;
      assert (a + b)[|a + b| - 1] == b[|b| - 1];
      KeptPairsAppend(a, init);
    } else {
      assert a + b == a;
    }
  }

  /** Falsy values other than the empty string are sent. */
  lemma FalsyButKept(k1: string, k2: string)
    ensures KeptPairs([(k1, Number(Num(0))), (k2, Bool(false))]) == [(k1, "0"), (k2, "false")]
    ensures KeptPairs([(k1, Str("")), (k2, Null)]) == []
  {
    var o := [(k1, Number(Num(0))), (k2, Bool(false))];
    assert o[..1] == [(k1, Number(Num(0)))];
    assert NatDigits(0) == "0";
    var e := [(k1, Str("")), (k2, Null)];
    assert e[..1] == [(k1, Str(""))];
  }

  /** `searchTrainers`' `query(params)`: the URL of a search. */
  method SearchUrl(params: Option<Obj>) returns (url: string)
    ensures params.None? ==> url == SearchPath
    ensures params.Some? && KeptPairs(params.value) == [] ==> url == SearchPath
    ensures params.Some? && KeptPairs(params.value) != [] ==>
              url == SearchPath + "?" + Serialize(KeptPairs(params.value))
  {
    if params.None? {
      return SearchPath;
    }
    var entries := params.value;
    var queryParams: seq<(string, string)> := [];
    var i := 0;
    while i < |entries|
      invariant 0 <= i <= |entries|
      invariant queryParams == KeptPairs(entries[..i])
    {
      var (key, val) := entries[i];
      assert entries[..i + 1][..i] == entries[..i];
      if Kept(val) {
        queryParams := queryParams + [(key, ToJsString(val))];
      }
      i := i + 1;
    }
    assert entries[..i] == entries;
    var qs := Serialize(queryParams);
    SerializeEmptyIff(queryParams);
    url := SearchPath + (if qs != "" then "?" + qs else "");
  }

  /** The server reads back from the query string exactly the kept
      entries, as strings and in order. */
  lemma SearchQueryReadsBack(params: Obj)
    requires KeptPairs(params) != []
    ensures Parse(Serialize(KeptPairs(params))) == Some(KeptPairs(params))
    ensures Serialize(KeptPairs(params)) != ""
  {
    SerializeRoundTrip(KeptPairs(params));
    SerializeEmptyIff(KeptPairs(params));
  }
}
