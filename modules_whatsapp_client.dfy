/** The WhatsApp client (`WhatsappClient`): text messages to a number or a
    group, and messages with an attachment. Every operation answers true
    exactly when the response is 2xx; the body is never read. */
module Whatsapp {
  import opened Wrappers
  import opened Json
  import opened Http
  import opened Efihub

  const MessageEndpoint: string := "/whatsapp/send_message"
  const GroupMessageEndpoint: string := "/whatsapp/group/send_message"
  const AttachmentEndpoint: string := "/whatsapp/send_message_with_attachment"
  const GroupAttachmentEndpoint: string := "/whatsapp/group/send_message_with_attachment"

  /** The text message payload: exactly the five keys, the two references
      as given (null when the caller leaves them out). */
  function MessagePayload(sender: string, to: string, message: string, refId: JValue, refUrl: JValue)
    : (payload: map<string, JValue>)
    ensures payload.Keys == {"sender", "to", "message", "ref_id", "ref_url"}
    ensures payload["sender"] == JString(sender) && payload["to"] == JString(to)
    ensures payload["message"] == JString(message)
    ensures payload["ref_id"] == refId && payload["ref_url"] == refUrl
  {
    map["sender" := JString(sender), "to" := JString(to), "message" := JString(message),
        "ref_id" := refId, "ref_url" := refUrl]
  }

  /** The attachment form fields: the three text keys and nothing else. */
  function AttachmentFields(sender: string, to: string, message: string): (fields: map<string, JValue>)
    ensures fields.Keys == {"sender", "to", "message"}
    ensures fields["sender"] == JString(sender) && fields["to"] == JString(to)
    ensures fields["message"] == JString(message)
  {
    map["sender" := JString(sender), "to" := JString(to), "message" := JString(message)]
  }

  /** The answer of every operation: the status alone decides. */
  function SentOf(r: Response): (sent: bool)
    ensures sent <==> 200 <= r.status < 300
  {
    Successful(r)
  }

  /** Two responses with the same status give the same answer, whatever
      their bodies. */
  lemma SentIgnoresBody(r: Response, body: JValue)
    ensures SentOf(r.(body := body)) == SentOf(r)
  {
  }

  /** The attachment fields are the message payload without its two references. */
  lemma AttachmentFieldsAreMessageText(sender: string, to: string, message: string, refId: JValue, refUrl: JValue)
    ensures AttachmentFields(sender, to, message) ==
      MessagePayload(sender, to, message, refId, refUrl) - {"ref_id", "ref_url"}
  {
    var rest := MessagePayload(sender, to, message, refId, refUrl) - {"ref_id", "ref_url"};
    assert rest.Keys == {"sender", "to", "message"};
  }

  /** The WhatsApp client over one base client. */
  class WhatsappClient {
    const client: EfihubClient

    constructor (client: EfihubClient)
      ensures this.client == client
    {
      this.client := client;
    }

    /** `sendMessage(sender, to, message, ref_id, ref_url)`: a POST of the
        payload to the message endpoint. */
    method SendMessage(sender: string, to: string, message: string, refId: JValue := JNull, refUrl: JValue := JNull)
      returns (sent: Result<bool, Error>)
      modifies client
      ensures var (s', response) := RequestStep(client.env, old(client.Snapshot()), Verb.Post,
                                                JoinUrl(client.env.config.apiBaseUrl, MessageEndpoint),
                                                MessagePayload(sender, to, message, refId, refUrl));
        client.Snapshot() == s' && sent == response.MapValue(SentOf)
    {
      var response := client.Post(MessageEndpoint, MessagePayload(sender, to, message, refId, refUrl));
      sent := response.MapValue(SentOf);
    }

    /** `sendGroupMessage(...)`: the same payload, posted to the group endpoint. */
    method SendGroupMessage(sender: string, to: string, message: string, refId: JValue := JNull, refUrl: JValue := JNull)
      returns (sent: Result<bool, Error>)
      modifies client
      ensures var (s', response) := RequestStep(client.env, old(client.Snapshot()), Verb.Post,
                                                JoinUrl(client.env.config.apiBaseUrl, GroupMessageEndpoint),
                                                MessagePayload(sender, to, message, refId, refUrl));
        client.Snapshot() == s' && sent == response.MapValue(SentOf)
    {
      var response := client.Post(GroupMessageEndpoint, MessagePayload(sender, to, message, refId, refUrl));
      sent := response.MapValue(SentOf);
    }

    /** `sendAttachment(sender, to, message, attachment)`: one multipart post
        with the file under the part `attachment`. */
    method SendAttachment(sender: string, to: string, message: string, attachment: FileSpec)
      returns (sent: bool)
      modifies client
      ensures var (s', response) := SendStep(client.env, old(client.Snapshot()),
                                             MultipartRequest(AttachmentEndpoint, AttachmentFields(sender, to, message),
                                                              map["attachment" := attachment]));
        client.Snapshot() == s' && sent == SentOf(response)
    {
      var response := client.PostMultipart(AttachmentEndpoint, AttachmentFields(sender, to, message),
                                           map["attachment" := attachment]);
      sent := SentOf(response);
    }

    /** `sendGroupAttachment(...)`: the same, to the group endpoint. */
    method SendGroupAttachment(sender: string, to: string, message: string, attachment: FileSpec)
      returns (sent: bool)
      modifies client
      ensures var (s', response) := SendStep(client.env, old(client.Snapshot()),
                                             MultipartRequest(GroupAttachmentEndpoint, AttachmentFields(sender, to, message),
                                                              map["attachment" := attachment]));
        client.Snapshot() == s' && sent == SentOf(response)
    {
      var response := client.PostMultipart(GroupAttachmentEndpoint, AttachmentFields(sender, to, message),
                                           map["attachment" := attachment]);
      sent := SentOf(response);
    }
  }
}
