/** The websocket client of the `Modules` namespace
    (`Efihub\Modules\WebsocketClient`): the same payload and call as
    `Websocket.WebsocketClient`, but the response is turned into a boolean. */
module ModuleWebsocket {
  import opened Wrappers
  import opened Json
  import opened Http
  import opened Efihub
  import Websocket

  /** The dispatch answer: false on a non-2xx status; otherwise the body's
      `success` when it is a boolean and true when it is anything else. */
  function DispatchOf(r: Response): (ok: bool)
    ensures ok <==> Successful(r) && Step(r.body, "success") != JBool(false)
    ensures Successful(r) && Step(r.body, "success").JBool? ==> ok == Step(r.body, "success").b
  {
    SuccessFlag(r)
  }

  /** On 2xx the answer is `is_bool(json('success')) ? json('success') : true`. */
  lemma DispatchReadsSuccess(r: Response)
    requires Successful(r)
    ensures var success := JsonAt(r.body, "success");
      DispatchOf(r) == if success.JBool? then success.b else true
  {
    JsonAtKey(r.body, "success");
  }

  /** The websocket client over one base client. */
  class WebsocketClient {
    const client: EfihubClient

    constructor (client: EfihubClient)
      ensures this.client == client
    {
      this.client := client;
    }

    /** `dispatch(channel, event, data, extra)`: the POST of
        `Websocket.DispatchPayload` to the dispatch endpoint, read by `DispatchOf`. */
    method Dispatch(channel: string, event: string, data: JValue, extra: map<string, JValue> := map[])
      returns (ok: Result<bool, Error>)
      modifies client
      ensures var (s', response) := RequestStep(client.env, old(client.Snapshot()), Verb.Post,
                                                JoinUrl(client.env.config.apiBaseUrl, Websocket.DispatchEndpoint),
                                                Websocket.DispatchPayload(channel, event, data, extra));
        client.Snapshot() == s' && ok == response.MapValue(DispatchOf)
    {
      var response := client.Post(Websocket.DispatchEndpoint, Websocket.DispatchPayload(channel, event, data, extra));
      ok := response.MapValue(DispatchOf);
    }
  }
}
