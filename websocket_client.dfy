/** The websocket service client at the top of the package
    (`Efihub\WebsocketClient`, base path `/websocket`): it builds the event
    payload and hands the base client's response back as it is, with no
    status check. */
module Websocket {
  import opened Wrappers
  import opened Json
  import opened Php
  import opened Http
  import opened Efihub

  const DispatchEndpoint: string := "/websocket/dispatch"

  /** The event payload: `channel`, `event` and `data`, merged with the
      extra fields, which win on a shared key. */
  function DispatchPayload(channel: string, event: string, data: JValue, extra: map<string, JValue>)
    : (payload: map<string, JValue>)
    ensures payload.Keys == {"channel", "event", "data"} + extra.Keys
    ensures forall k :: k in extra ==> payload[k] == extra[k]
    ensures "channel" !in extra ==> payload["channel"] == JString(channel)
    ensures "event" !in extra ==> payload["event"] == JString(event)
    ensures "data" !in extra ==> payload["data"] == data
  {
    ArrayMerge(map["channel" := JString(channel), "event" := JString(event), "data" := data], extra)
  }

  /** With no extra fields the payload is exactly the three base keys. */
  lemma DispatchPayloadPlain(channel: string, event: string, data: JValue)
    ensures DispatchPayload(channel, event, data, map[]) ==
      map["channel" := JString(channel), "event" := JString(event), "data" := data]
  {
    var payload := DispatchPayload(channel, event, data, map[]);
    assert payload.Keys == {"channel", "event", "data"};
  }

  /** Any status comes back to the caller: a first answer that is neither
      2xx nor 401 is the result of the dispatch as it was received. */
  lemma DispatchKeepsFailures(env: Env, s: State, channel: string, event: string, data: JValue,
                              extra: map<string, JValue>)
    requires TokenStep(env, s).1.Ok?
    requires var first := FirstExchange(env, s, Verb.Post, JoinUrl(env.config.apiBaseUrl, DispatchEndpoint),
                                        DispatchPayload(channel, event, data, extra));
      first.response.status != 401
    ensures var first := FirstExchange(env, s, Verb.Post, JoinUrl(env.config.apiBaseUrl, DispatchEndpoint),
                                       DispatchPayload(channel, event, data, extra));
      RequestStep(env, s, Verb.Post, JoinUrl(env.config.apiBaseUrl, DispatchEndpoint),
                  DispatchPayload(channel, event, data, extra)).1 == Ok(first.response)
  {
    RequestWithout401(env, s, Verb.Post, JoinUrl(env.config.apiBaseUrl, DispatchEndpoint),
                      DispatchPayload(channel, event, data, extra));
  }

  /** The websocket client over one base client. */
  class WebsocketClient {
    const client: EfihubClient

    constructor (client: EfihubClient)
      ensures this.client == client
    {
      this.client := client;
    }

    /** `dispatch(channel, event, data, extra)`: one request protocol run of
        a POST of the payload to the dispatch endpoint; its response is the
        result, whatever its status. */
    method Dispatch(channel: string, event: string, data: JValue, extra: map<string, JValue> := map[])
      returns (response: Result<Response, Error>)
      modifies client
      ensures (client.Snapshot(), response) ==
        RequestStep(client.env, old(client.Snapshot()), Verb.Post,
                    JoinUrl(client.env.config.apiBaseUrl, DispatchEndpoint),
                    DispatchPayload(channel, event, data, extra))
    {
      response := client.Post(DispatchEndpoint, DispatchPayload(channel, event, data, extra));
    }
  }
}
