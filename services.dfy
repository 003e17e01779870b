/** The bot's side of its web-service calls (`get_agent_by_phone`, `get_store_id_by_name`,
    `check_coordinates`, `save_post_data`, `save_file_to_post`): the phone-number
    normalisation it applies before a lookup, how it maps each HTTP answer to the value
    the handlers test, and the fields it sends. The HTTP exchange itself is an input. */
module Services {
  import opened Values
  import opened Text

  /** `if not phone.startswith("+"): phone = "+" + phone`. */
  function NormalizePhone(phone: string): (r: string)
    ensures StartsWith(r, "+")
    ensures StartsWith(phone, "+") ==> r == phone
    ensures !StartsWith(phone, "+") ==> r == "+" + phone
  {
    if StartsWith(phone, "+") then phone else "+" + phone
  }

  /** Normalising a normalised number changes nothing. */
  lemma NormalizePhoneIdempotent(phone: string)
    ensures NormalizePhone(NormalizePhone(phone)) == NormalizePhone(phone)
  {
  }

  /** Two numbers that differ only in a leading "+" normalise to the same number. */
  lemma NormalizePhoneMerges(digits: string)
    requires !StartsWith(digits, "+")
    ensures NormalizePhone(digits) == NormalizePhone("+" + digits)
  {
    assert StartsWith("+" + digits, "+");
  }

  /** The answer to a GET request: a status and the body parsed as a JSON object (None
      when it is not JSON), or a request that raised. */
  datatype HttpAnswer =
    | Response(status: int, body: Option<map<string, Value>>)
    | Unreachable

  /** What `get_agent_by_phone` returns: the body on 200, `[]` on another status, None
      when the request or the decoding raised. */
  datatype AgentLookup = AgentBody(body: map<string, Value>) | EmptyList | NoAnswer

  /** Python truthiness of the lookup result: only a non-empty body is true. */
  predicate AgentFound(a: AgentLookup) {
    a.AgentBody? && a.body != map[]
  }

  function GetAgentByPhone(answer: HttpAnswer): (a: AgentLookup)
    ensures a.AgentBody? <==> answer.Response? && answer.status == 200 && answer.body.Some?
    ensures a.AgentBody? ==> a.body == answer.body.value
    ensures a == EmptyList <==> answer.Response? && answer.status != 200
  {
    match answer
    case Response(status, body) =>
      if status == 200 then (if body.Some? then AgentBody(body.value) else NoAnswer)
      else EmptyList
    case Unreachable => NoAnswer
  }

  /** `get_store_id_by_name`: the body on 200, None otherwise. */
  function GetStoreIdByName(answer: HttpAnswer): (s: Option<map<string, Value>>)
    ensures s.Some? <==> answer.Response? && answer.status == 200 && answer.body.Some?
    ensures s.Some? ==> s.value == answer.body.value
  {
    match answer
    case Response(status, body) => if status == 200 then body else None
    case Unreachable => None
  }

  /** `check_coordinates`: true only for a 200 answer whose JSON has a truthy "success";
      another status, a non-JSON body, a missing key or a failed request all give false. */
  function CheckCoordinates(answer: HttpAnswer): (pass: bool)
    ensures pass ==> answer.Response? && answer.status == 200 && answer.body.Some?
    ensures pass <==> answer.Response? && answer.status == 200 && answer.body.Some?
                      && "success" in answer.body.value && Truthy(answer.body.value["success"])
  {
    match answer
    case Response(status, body) =>
      status == 200 && body.Some? && "success" in body.value && Truthy(body.value["success"])
    case Unreachable => false
  }

  /** The answer to a POST to the photo-post endpoint. */
  datatype PostAnswer =
    | Posted(status: int, text: string, textIsJson: bool)
    | PostRaised(error: string)

  /** The dictionary `save_post_data` and `save_file_to_post` return. */
  datatype PostResult =
    | Created                              // {"success": True, "data": ...}
    | Rejected(status: int, error: string)   // {"success": False, "status": ..., "error": ...}
    | Failed(error: string)                 // {"success": False, "error": str(e)}

  /** The result of a POST: success on 201 (the body is decoded, and a body that is not
      JSON raises into the failure branch), the status and text on any other status, the
      error when the request raised. */
  function PostOutcome(answer: PostAnswer): (r: PostResult)
    ensures r.Created? ==> answer.Posted? && answer.status == 201
    ensures answer.Posted? && answer.status != 201 ==> r == Rejected(answer.status, answer.text)
    ensures answer.Posted? && answer.status == 201 && (answer.text == "" || answer.textIsJson) ==> r.Created?
    ensures answer.PostRaised? ==> r == Failed(answer.error)
  {
    match answer
    case Posted(status, text, isJson) =>
      if status == 201 then (if text == "" || isJson then Created else Failed("response is not JSON"))
      else Rejected(status, text)
    case PostRaised(error) => Failed(error)
  }

  /** A request body or form: field names with their values, in insertion order. */
  type Fields = seq<(string, Value)>

  /** The entries whose value is not None, in their original order
      (`{k: v for k, v in data.items() if v is not None}`). */
  function DropNone(entries: Fields): (r: Fields)
    ensures |r| <= |entries|
    ensures forall i :: 0 <= i < |r| ==> r[i].1 != Null
    ensures forall e :: e in r <==> e in entries && e.1 != Null
  {
    if entries == [] then []
    else if entries[0].1 == Null then DropNone(entries[1..])
    else [entries[0]] + DropNone(entries[1..])
  }

  /** The value stored under key k, the first entry with that name. */
  function Lookup(fields: Fields, k: string): Option<Value> {
    if fields == [] then None
    else if fields[0].0 == k then Some(fields[0].1)
    else Lookup(fields[1..], k)
  }

  predicate DistinctKeys(fields: Fields) {
    forall i, j :: 0 <= i < j < |fields| ==> fields[i].0 != fields[j].0
  }

  /** In a list with distinct names, looking a name up finds the entry that holds it. */
  lemma {:induction false} LookupFinds(fields: Fields, k: string, v: Value)
    requires DistinctKeys(fields)
    ensures Lookup(fields, k) == Some(v) <==> (k, v) in fields
  {
    if fields != [] {
      assert DistinctKeys(fields[1..]) by {
        forall i, j | 0 <= i < j < |fields[1..]|
          ensures fields[1..][i].0 != fields[1..][j].0
        {
          assert fields[1..][i] == fields[i + 1] && fields[1..][j] == fields[j + 1];
        }
      }
      LookupFinds(fields[1..], k, v);
      if fields[0].0 == k {
        forall e | e in fields[1..]
          ensures e.0 != k
        {
          var i :| 0 <= i < |fields[1..]| && fields[1..][i] == e;
          assert fields[i + 1] == e;
        }
      }
    }
  }

  /** Dropping entries keeps names distinct. */
  lemma {:induction false} DropNoneKeepsDistinct(entries: Fields)
    requires DistinctKeys(entries)
    ensures DistinctKeys(DropNone(entries))
  {
    if entries != [] {
      assert DistinctKeys(entries[1..]) by {
        forall i, j | 0 <= i < j < |entries[1..]|
          ensures entries[1..][i].0 != entries[1..][j].0
        {
          assert entries[1..][i] == entries[i + 1] && entries[1..][j] == entries[j + 1];
        }
      }
      DropNoneKeepsDistinct(entries[1..]);
      var rest := DropNone(entries[1..]);
      if entries[0].1 != Null {
        forall j | 0 <= j < |rest|
          ensures rest[j].0 != entries[0].0
        {
          assert rest[j] in entries[1..];
          var i :| 0 <= i < |entries[1..]| && entries[1..][i] == rest[j];
          assert entries[i + 1] == rest[j];
        }
      }
    }
  }

  /** The JSON body `save_post_data` sends: the brand goes under "dmp_type" and the count
      under "dmp_count", and None values are left out. */
  function PostDataFields(agent: Value, store: Value, latitude: Value, longitude: Value,
                          postType: Value, brandName: Value, dmpCount: Value): (r: Fields)
    ensures forall i :: 0 <= i < |r| ==> r[i].1 != Null
  {
    DropNone(PostDataEntries(agent, store, latitude, longitude, postType, brandName, dmpCount))
  }

  /** The form fields `save_file_to_post` sends beside the image: no count, and None
      values are left out. */
  function PhotoFormFields(agent: Value, store: Value, latitude: Value, longitude: Value,
                           postType: Value, dmpType: Value): (r: Fields)
    ensures forall i :: 0 <= i < |r| ==> r[i].1 != Null
  {
    DropNone([("agent", agent), ("store", store), ("post_type", postType), ("latitude", latitude),
              ("longitude", longitude), ("dmp_type", dmpType)])
  }

  /** Looking a name up after dropping the None entries finds the original value when
      it is not None, and nothing otherwise. */
  lemma {:induction false} LookupDropNone(entries: Fields, k: string)
    requires DistinctKeys(entries)
    ensures Lookup(DropNone(entries), k)
      == (if Lookup(entries, k) == Some(Null) then None else Lookup(entries, k))
  {
    if entries != [] {
      assert DistinctKeys(entries[1..]) by {
        forall i, j | 0 <= i < j < |entries[1..]|
          ensures entries[1..][i].0 != entries[1..][j].0
        {
          assert entries[1..][i] == entries[i + 1] && entries[1..][j] == entries[j + 1];
        }
      }
      LookupDropNone(entries[1..], k);
      if entries[0].0 == k {
        LookupAbsent(entries[1..], k);
        assert forall e :: e in entries[1..] ==> e.0 != k by {
          forall e | e in entries[1..]
            ensures e.0 != k
          {
            var i :| 0 <= i < |entries[1..]| && entries[1..][i] == e;
            assert entries[i + 1] == e;
          }
        }
      }
    }
  }

  /** A value as an optional field: None values are left out. */
  function NonNull(v: Value): (r: Option<Value>)
    ensures r.Some? <==> v != Null
  {
    if v == Null then None else Some(v)
  }

  /** The entries of the `save_post_data` body before None values are dropped. */
  function PostDataEntries(agent: Value, store: Value, latitude: Value, longitude: Value,
                           postType: Value, brandName: Value, dmpCount: Value): Fields
  {
    [("agent", agent), ("store", store), ("post_type", postType), ("latitude", latitude),
     ("longitude", longitude), ("dmp_type", brandName), ("dmp_count", dmpCount)]
  }

  /** In a list with distinct names, the entry (k, v) is what a lookup of k finds once
      None values are dropped. */
  lemma LookupAfterDrop(entries: Fields, k: string, v: Value)
    requires DistinctKeys(entries) && (k, v) in entries
    ensures Lookup(DropNone(entries), k) == NonNull(v)
  {
    LookupFinds(entries, k, v);
    LookupDropNone(entries, k);
  }

  /** What the count submission carries: the brand travels under "dmp_type" and the count
      under "dmp_count", each present exactly when it is not None. */
  lemma PostDataFieldsLookup(agent: Value, store: Value, latitude: Value, longitude: Value,
                             postType: Value, brandName: Value, dmpCount: Value)
    ensures var f := PostDataFields(agent, store, latitude, longitude, postType, brandName, dmpCount);
      Lookup(f, "dmp_type") == NonNull(brandName) && Lookup(f, "dmp_count") == NonNull(dmpCount)
  {
    var entries := PostDataEntries(agent, store, latitude, longitude, postType, brandName, dmpCount);
    assert DistinctKeys(entries);
    assert entries[5] == ("dmp_type", brandName);
    LookupAfterDrop(entries, "dmp_type", brandName);
    assert entries[6] == ("dmp_count", dmpCount);
    LookupAfterDrop(entries, "dmp_count", dmpCount);
  }

  /** No field of the count submission is called "brand_name": the handler's argument of
      that name is renamed on the way out. */
  lemma PostDataHasNoBrandNameField(agent: Value, store: Value, latitude: Value, longitude: Value,
                                    postType: Value, brandName: Value, dmpCount: Value)
    ensures Lookup(PostDataFields(agent, store, latitude, longitude, postType, brandName, dmpCount), "brand_name") == None
  {
    var entries := PostDataEntries(agent, store, latitude, longitude, postType, brandName, dmpCount);
    assert forall i :: 0 <= i < |entries| ==> entries[i].0 != [] && entries[i].0[0] != 'b';
    LookupNoneByIndex(entries, "brand_name");
    DropNoneKeepsMissing(entries, "brand_name");
  }

  /** A name that no entry holds is not found. */
  lemma {:induction false} LookupNoneByIndex(fields: Fields, k: string)
    requires forall i :: 0 <= i < |fields| ==> fields[i].0 != k
    ensures Lookup(fields, k) == None
  {
    if fields != [] {
      assert forall i :: 0 <= i < |fields[1..]| ==> fields[1..][i] == fields[i + 1];
      LookupNoneByIndex(fields[1..], k);
    }
  }

  /** Dropping the None entries does not make a missing name appear. */
  lemma {:induction false} DropNoneKeepsMissing(entries: Fields, k: string)
    requires Lookup(entries, k) == None
    ensures Lookup(DropNone(entries), k) == None
  {
    if entries != [] {
      DropNoneKeepsMissing(entries[1..], k);
    }
  }

  /** A name that no entry holds is not found; one that is found is held by an entry. */
  lemma {:induction false} LookupAbsent(fields: Fields, k: string)
    ensures Lookup(fields, k).None? <==> forall e :: e in fields ==> e.0 != k
    ensures Lookup(fields, k).Some? ==> (k, Lookup(fields, k).value) in fields
  {
    if fields != [] {
      LookupAbsent(fields[1..], k);
    }
  }
}
