/** Messages passed between agents through the orchestrator. */
module Messages {
  import opened Common
  import opened Json

  /** The five kinds of message. */
  datatype MessageType = Request | Response | Notification | Event | ErrorReport

  datatype Message = Message(
    messageId: string,
    messageType: MessageType,
    senderAgent: string,
    recipientAgent: Option<string>,
    subject: string,
    body: Object,
    correlationId: Option<string>,
    createdAt: int,
    expiresAt: Option<int>,
    metadata: Object)

  /** A message without a recipient is a broadcast. */
  predicate IsBroadcast(m: Message) {
    m.recipientAgent.None?
  }

  /**
   * Constructing an `AgentMessage`: message_id, sender_agent and subject must
   * not be blank, and are stored as given (not stripped).
   */
  function NewMessage(messageId: string, messageType: MessageType, senderAgent: string,
                      recipientAgent: Option<string>, subject: string, body: Object,
                      correlationId: Option<string>, createdAt: int, expiresAt: Option<int>, metadata: Object)
    : (r: Result<Message, seq<string>>)
    ensures r.Ok? <==> !IsBlank(messageId) && !IsBlank(senderAgent) && !IsBlank(subject)
    ensures r.Ok? ==> r.value == Message(messageId, messageType, senderAgent, recipientAgent, subject,
                                         body, correlationId, createdAt, expiresAt, metadata)
    ensures r.Err? ==> (|r.error| ==
      (if IsBlank(messageId) then 1 else 0) + (if IsBlank(senderAgent) then 1 else 0) + (if IsBlank(subject) then 1 else 0))
  {
    var errors :=
      (if IsBlank(messageId) then ["message_id must not be empty"] else []) +
      (if IsBlank(senderAgent) then ["sender_agent must not be empty"] else []) +
      (if IsBlank(subject) then ["subject must not be empty"] else []);
    if errors == [] then
      Ok(Message(messageId, messageType, senderAgent, recipientAgent, subject, body,
                 correlationId, createdAt, expiresAt, metadata))
    else Err(errors)
  }

  /** `AgentMessage(message_id=..., message_type=..., sender_agent=..., subject=..., created_at=...)`. */
  function DefaultMessage(messageId: string, messageType: MessageType, senderAgent: string,
                          subject: string, createdAt: int): Result<Message, seq<string>> {
    NewMessage(messageId, messageType, senderAgent, None, subject, map[], None, createdAt, None, map[])
  }

  /** Defaults: broadcast, empty body and metadata, no correlation id, no expiry. */
  lemma DefaultMessageFields(messageId: string, messageType: MessageType, senderAgent: string,
                             subject: string, createdAt: int)
    requires !IsBlank(messageId) && !IsBlank(senderAgent) && !IsBlank(subject)
    ensures var r := DefaultMessage(messageId, messageType, senderAgent, subject, createdAt);
      r.Ok? && IsBroadcast(r.value) && r.value.body == map[] && r.value.metadata == map[]
      && r.value.correlationId.None? && r.value.expiresAt.None?
  {
  }
}
