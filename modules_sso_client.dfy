/** The single sign-on client (`SSOClient`, base path `/sso`): the
    authorisation URL request and the user lookup after the callback. */
module Sso {
  import opened Wrappers
  import opened Json
  import opened Http
  import opened Efihub

  const AuthorizeEndpoint: string := "/sso/authorize"
  const UserEndpoint: string := "/sso/user"

  /** The login payload: only the configured client id. */
  function LoginPayload(config: Config): (payload: map<string, JValue>)
    ensures payload.Keys == {"client_id"} && payload["client_id"] == JString(config.clientId)
  {
    map["client_id" := JString(config.clientId)]
  }

  /** The login answer: `false` (None) on a non-2xx status; on 2xx the
      `authorization_url` member of `data` when `data` is an object with
      that member not null, and `false` otherwise. */
  function LoginOf(r: Response): (url: Option<JValue>)
    ensures url.Some? <==>
      Successful(r) && Step(r.body, "data").JObject?
      && "authorization_url" in Step(r.body, "data").fields
      && Step(r.body, "data").fields["authorization_url"] != JNull
    ensures url.Some? ==> url.value == Step(r.body, "data").fields["authorization_url"]
  {
    if !Successful(r) then None
    else match Step(r.body, "data")
      case JObject(m) =>
        if "authorization_url" in m && m["authorization_url"] != JNull then Some(m["authorization_url"]) else None
      case _ => None
  }

  /** The answer on 2xx is `json('data.authorization_url')` when that is
      found, and `false` when it is not: a `data` that is a string or a list
      has no such member. */
  lemma LoginReadsAuthorizationUrl(r: Response)
    ensures var url := JsonAt(r.body, "data.authorization_url");
      LoginOf(r) == if Successful(r) && url != JNull then Some(url) else None
  {
    assert "data.authorization_url" == "data" + "." + "authorization_url";
    JsonAtPair(r.body, "data", "authorization_url");
  }

  /** The user lookup's answer: `false` (None) on a non-2xx status, and on
      2xx the body's `data` as it is, whatever it holds. */
  function UserDataOf(r: Response): (user: Option<JValue>)
    ensures user.None? <==> !Successful(r)
    ensures user.Some? ==> user.value == Step(r.body, "data")
  {
    if !Successful(r) then None else Some(Step(r.body, "data"))
  }

  /** On 2xx the user is `json('data')`, with no check of its shape. */
  lemma UserDataReadsData(r: Response)
    ensures UserDataOf(r) == if Successful(r) then Some(JsonAt(r.body, "data")) else None
  {
    JsonAtKey(r.body, "data");
  }

  /** The single sign-on client over one base client. */
  class SSOClient {
    const client: EfihubClient

    constructor (client: EfihubClient)
      ensures this.client == client
    {
      this.client := client;
    }

    /** `login()`: a POST of the client id to the authorise endpoint. */
    method Login() returns (url: Result<Option<JValue>, Error>)
      modifies client
      ensures var (s', response) := RequestStep(client.env, old(client.Snapshot()), Verb.Post,
                                                JoinUrl(client.env.config.apiBaseUrl, AuthorizeEndpoint),
                                                LoginPayload(client.env.config));
        client.Snapshot() == s' && url == response.MapValue(LoginOf)
    {
      var response := client.Post(AuthorizeEndpoint, LoginPayload(client.env.config));
      url := response.MapValue(LoginOf);
    }

    /** `userData(redirectToken)`: a GET to the user endpoint with the token. */
    method UserData(redirectToken: string) returns (user: Result<Option<JValue>, Error>)
      modifies client
      ensures var (s', response) := RequestStep(client.env, old(client.Snapshot()), Verb.Get,
                                                JoinUrl(client.env.config.apiBaseUrl, UserEndpoint),
                                                map["redirect_token" := JString(redirectToken)]);
        client.Snapshot() == s' && user == response.MapValue(UserDataOf)
    {
      var response := client.Get(UserEndpoint, map["redirect_token" := JString(redirectToken)]);
      user := response.MapValue(UserDataOf);
    }
  }
}
