/** The storage service client (`StorageClient`, base path `/storage`): the
    request each operation sends, and how its answer is read from the
    response by `??` chains over body paths.

    The reading of each answer is a function of the response (`UploadOf`,
    `UrlOf`, `ExistsOf`, `SizeOf`, `DeleteOf`); the class performs the call
    through the base client and is proved to return that function of the
    response the call received. Body paths are written as `Step` chains:
    `Step(Step(body, "data"), "url")` is `json('data.url')` (`JsonAtPair`). */
module Storage {
  import opened Wrappers
  import opened Json
  import opened Php
  import opened Http
  import opened Efihub
  import opened Decimal

  const UploadEndpoint: string := "/storage/upload"
  const UrlEndpoint: string := "/storage/url"
  const ExistsEndpoint: string := "/storage/exists"
  const SizeEndpoint: string := "/storage/size"
  const DeleteEndpoint: string := "/storage/delete"

  /** The options `['path' => path]` of the four queries. */
  function PathOption(path: string): (options: map<string, JValue>)
    ensures options.Keys == {"path"} && options["path"] == JString(path)
  {
    map["path" := JString(path)]
  }

  // ---------------------------------------------------------------------
  // upload

  /** The upload form: `path` first, then the extra fields, which win on a
      shared key (so an extra `path` replaces the destination). */
  function UploadFields(path: string, fields: map<string, JValue>): (form: map<string, JValue>)
    ensures form.Keys == {"path"} + fields.Keys
    ensures form["path"] == if "path" in fields then fields["path"] else JString(path)
    ensures forall k :: k in fields ==> form[k] == fields[k]
  {
    ArrayMerge(map["path" := JString(path)], fields)
  }

  /** The upload's answer: `false` (None) on a non-2xx status, otherwise the
      body's `data.url`, whatever is found there. */
  function UploadOf(r: Response): (url: Option<JValue>)
    ensures url.None? <==> !Successful(r)
  {
    if !Successful(r) then None else Some(Step(Step(r.body, "data"), "url"))
  }

  /** On 2xx the upload answers exactly `json('data.url')`. */
  lemma UploadReadsDataUrl(r: Response)
    ensures UploadOf(r) == if Successful(r) then Some(JsonAt(r.body, "data.url")) else None
  {
    assert "data.url" == "data" + "." + "url";
    JsonAtPair(r.body, "data", "url");
  }

  // ---------------------------------------------------------------------
  // url

  /** The three places a URL may be found, in the order they are tried:
      `data.url`, `url`, and `data` itself when it is a string. */
  function UrlCandidates(body: JValue): seq<JValue> {
    var data := Step(body, "data");
    [Step(data, "url"), Step(body, "url"), if data.JString? then data else JNull]
  }

  /** The url's answer: null on a non-2xx status; otherwise the first
      candidate that is found, with each one tried only when all before it
      are missing, and null when none is found. */
  function UrlOf(r: Response): (url: JValue)
    ensures !Successful(r) ==> url == JNull
    ensures url != JNull ==>
      var data := Step(r.body, "data");
      || url == Step(data, "url")
      || (Step(data, "url") == JNull && url == Step(r.body, "url"))
      || (Step(data, "url") == JNull && Step(r.body, "url") == JNull && url == data && data.JString?)
    ensures Successful(r) && url == JNull ==>
      var data := Step(r.body, "data");
      Step(data, "url") == JNull && Step(r.body, "url") == JNull && !data.JString?
  {
    if !Successful(r) then JNull
    else
      var c := UrlCandidates(r.body);
      CoalesceThree(c[0], c[1], c[2]);
      Coalesce(c)
  }

  /** On 2xx the url answers the `??` chain over `json('data.url')`,
      `json('url')` and `json('data')` when that is a string. */
  lemma UrlReadsChain(r: Response)
    requires Successful(r)
    ensures var data := JsonAt(r.body, "data");
      UrlOf(r) == Coalesce([JsonAt(r.body, "data.url"), JsonAt(r.body, "url"),
                            if data.JString? then data else JNull])
  {
    assert "data.url" == "data" + "." + "url";
    JsonAtPair(r.body, "data", "url");
    JsonAtKey(r.body, "url");
    JsonAtKey(r.body, "data");
  }

  /** A string under `data` is the URL only when neither `data.url` nor `url`
      is found; a string `data` has no `url` member of its own. */
  lemma UrlFromDataString(r: Response, u: string)
    requires Successful(r) && r.body.JObject?
    requires r.body.fields == map["data" := JString(u)]
    ensures UrlOf(r) == JString(u)
  {
    CoalesceAt(UrlCandidates(r.body), 2);
  }

  // ---------------------------------------------------------------------
  // exists

  /** The places the existence flag may be found: `exists`, `data.exists`, `data`. */
  function ExistsCandidates(body: JValue): seq<JValue> {
    [Step(body, "exists"), Step(Step(body, "data"), "exists"), Step(body, "data")]
  }

  /** The exists answer: false on 404 and on any other non-2xx status;
      otherwise the truthiness of the first candidate found. */
  function ExistsOf(r: Response): (found: bool)
    ensures r.status == 404 ==> !found
    ensures !Successful(r) ==> !found
    ensures found ==> exists i :: 0 <= i < 3 && Truthy(ExistsCandidates(r.body)[i])
  {
    if r.status == 404 then false
    else if !Successful(r) then false
    else Truthy(Coalesce(ExistsCandidates(r.body)))
  }

  /** On 2xx the exists answer is `(bool)` of the `??` chain over
      `json('exists')`, `json('data.exists')` and `json('data')`. */
  lemma ExistsReadsChain(r: Response)
    requires Successful(r)
    ensures ExistsOf(r) == Truthy(Coalesce([JsonAt(r.body, "exists"), JsonAt(r.body, "data.exists"),
                                            JsonAt(r.body, "data")]))
  {
    assert "data.exists" == "data" + "." + "exists";
    JsonAtPair(r.body, "data", "exists");
    JsonAtKey(r.body, "exists");
    JsonAtKey(r.body, "data");
  }

  /** A candidate that is present decides the answer, even when it is
      `false` or `0` and a later candidate is true. */
  lemma ExistsDecidedByFirstFound(r: Response, k: nat)
    requires Successful(r) && k < 3
    requires ExistsCandidates(r.body)[k] != JNull
    requires forall j :: 0 <= j < k ==> ExistsCandidates(r.body)[j] == JNull
    ensures ExistsOf(r) == Truthy(ExistsCandidates(r.body)[k])
  {
    CoalesceAt(ExistsCandidates(r.body), k);
  }

  /** `{"data": {"exists": true}}` on 2xx means the file exists. */
  lemma ExistsNested(r: Response)
    requires Successful(r)
    requires r.body == JObject(map["data" := JObject(map["exists" := JBool(true)])])
    ensures ExistsOf(r)
  {
    CoalesceAt(ExistsCandidates(r.body), 1);
  }

  // ---------------------------------------------------------------------
  // size

  /** The places the size may be found, in order: `data.size`,
      `data.bytes`, `size`, `bytes`, `data`. */
  function SizeCandidates(body: JValue): seq<JValue> {
    var data := Step(body, "data");
    [Step(data, "size"), Step(data, "bytes"), Step(body, "size"), Step(body, "bytes"), data]
  }

  /** The size answer: null (None) on a non-2xx status; otherwise the first
      candidate found, cast to an integer when it is numeric and null
      when it is not. */
  function SizeOf(r: Response): (size: Option<int>)
    ensures !Successful(r) ==> size.None?
    ensures size.Some? ==> exists i :: 0 <= i < 5 && IsNumeric(SizeCandidates(r.body)[i])
                                          && size.value == IntCast(SizeCandidates(r.body)[i])
  {
    if !Successful(r) then None
    else
      var v := Coalesce(SizeCandidates(r.body));
      if IsNumeric(v) then Some(IntCast(v)) else None
  }

  /** On 2xx the size answer is `is_numeric ? (int) : null` of the `??`
      chain over the five keys as they are written. */
  lemma SizeReadsChain(r: Response)
    requires Successful(r)
    ensures var v := Coalesce([JsonAt(r.body, "data.size"), JsonAt(r.body, "data.bytes"),
                               JsonAt(r.body, "size"), JsonAt(r.body, "bytes"), JsonAt(r.body, "data")]);
      SizeOf(r) == if IsNumeric(v) then Some(IntCast(v)) else None
  {
    assert "data.size" == "data" + "." + "size";
    assert "data.bytes" == "data" + "." + "bytes";
    JsonAtPair(r.body, "data", "size");
    JsonAtPair(r.body, "data", "bytes");
    JsonAtKey(r.body, "size");
    JsonAtKey(r.body, "bytes");
    JsonAtKey(r.body, "data");
  }

  /** The first candidate found decides the answer: a non-numeric value
      there gives null even when a later candidate is numeric. */
  lemma SizeDecidedByFirstFound(r: Response, k: nat)
    requires Successful(r) && k < 5
    requires SizeCandidates(r.body)[k] != JNull
    requires forall j :: 0 <= j < k ==> SizeCandidates(r.body)[j] == JNull
    ensures var v := SizeCandidates(r.body)[k];
      SizeOf(r) == if IsNumeric(v) then Some(IntCast(v)) else None
  {
    CoalesceAt(SizeCandidates(r.body), k);
  }

  /** A size written as a decimal string under `size` is read back as that
      number, for every 64-bit value. */
  lemma SizeReadsDecimalString(r: Response, n: int)
    requires Successful(r) && IntMin <= n <= IntMax
    requires r.body == JObject(map["size" := JString(ShowInt(n))])
    ensures SizeOf(r) == Some(n)
  {
    IntCastShowInt(n);
    CoalesceAt(SizeCandidates(r.body), 2);
  }

  /** `{"size": "1024"}` gives 1024. */
  lemma SizeExampleNumeric(r: Response)
    requires Successful(r) && r.body == JObject(map["size" := JString("1024")])
    ensures SizeOf(r) == Some(1024)
  {
    CoalesceAt(SizeCandidates(r.body), 2);
    assert "1024"[..3] == "102" && "102"[..2] == "10" && "10"[..1] == "1" && "1"[..0] == "";
    assert DigitsValue("1024") == 1024;
  }

  /** `{"size": "abc"}` gives null. */
  lemma SizeExampleNotNumeric(r: Response)
    requires Successful(r) && r.body == JObject(map["size" := JString("abc")])
    ensures SizeOf(r).None?
  {
    CoalesceAt(SizeCandidates(r.body), 2);
    assert !IsDigit("abc"[0]);
  }

  // ---------------------------------------------------------------------
  // delete

  /** The delete answer: false on a non-2xx status, otherwise the body's
      `success` when it is a boolean and true otherwise. */
  function DeleteOf(r: Response): (deleted: bool)
    ensures deleted <==> Successful(r) && Step(r.body, "success") != JBool(false)
  {
    SuccessFlag(r)
  }

  /** A 2xx delete whose body says nothing about `success` counts as done. */
  lemma DeleteDefaultsToTrue(r: Response)
    requires Successful(r) && !JsonAt(r.body, "success").JBool?
    ensures DeleteOf(r)
  {
    JsonAtKey(r.body, "success");
  }

  // ---------------------------------------------------------------------
  // The client object

  /** The storage client over one base client. */
  class StorageClient {
    const client: EfihubClient

    constructor (client: EfihubClient)
      ensures this.client == client
    {
      this.client := client;
    }

    /** `upload(file, path, fields)`: one multipart post to the upload
        endpoint with the merged form and the file under the part `file`. */
    method Upload(file: FileSpec, path: string, fields: map<string, JValue> := map[])
      returns (url: Option<JValue>)
      modifies client
      ensures var (s', response) := SendStep(client.env, old(client.Snapshot()),
                                             MultipartRequest(UploadEndpoint, UploadFields(path, fields), map["file" := file]));
        client.Snapshot() == s' && url == UploadOf(response)
    {
      var response := client.PostMultipart(UploadEndpoint, UploadFields(path, fields), map["file" := file]);
      url := UploadOf(response);
    }

    /** `url(path)`: one request protocol run of a GET to the url endpoint. */
    method Url(path: string) returns (url: Result<JValue, Error>)
      modifies client
      ensures var (s', response) := RequestStep(client.env, old(client.Snapshot()), Verb.Get,
                                                JoinUrl(client.env.config.apiBaseUrl, UrlEndpoint), PathOption(path));
        client.Snapshot() == s' && url == response.MapValue(UrlOf)
    {
      var response := client.Get(UrlEndpoint, PathOption(path));
      url := response.MapValue(UrlOf);
    }

    /** `exists(path)`: a GET to the exists endpoint. */
    method Exists(path: string) returns (found: Result<bool, Error>)
      modifies client
      ensures var (s', response) := RequestStep(client.env, old(client.Snapshot()), Verb.Get,
                                                JoinUrl(client.env.config.apiBaseUrl, ExistsEndpoint), PathOption(path));
        client.Snapshot() == s' && found == response.MapValue(ExistsOf)
    {
      var response := client.Get(ExistsEndpoint, PathOption(path));
      found := response.MapValue(ExistsOf);
    }

    /** `size(path)`: a GET to the size endpoint. */
    method Size(path: string) returns (size: Result<Option<int>, Error>)
      modifies client
      ensures var (s', response) := RequestStep(client.env, old(client.Snapshot()), Verb.Get,
                                                JoinUrl(client.env.config.apiBaseUrl, SizeEndpoint), PathOption(path));
        client.Snapshot() == s' && size == response.MapValue(SizeOf)
    {
      var response := client.Get(SizeEndpoint, PathOption(path));
      size := response.MapValue(SizeOf);
    }

    /** `delete(path)`: a DELETE to the delete endpoint. */
    method Delete(path: string) returns (deleted: Result<bool, Error>)
      modifies client
      ensures var (s', response) := RequestStep(client.env, old(client.Snapshot()), Verb.Delete,
                                                JoinUrl(client.env.config.apiBaseUrl, DeleteEndpoint), PathOption(path));
        client.Snapshot() == s' && deleted == response.MapValue(DeleteOf)
    {
      var response := client.Delete(DeleteEndpoint, PathOption(path));
      deleted := response.MapValue(DeleteOf);
    }
  }
}
