/** The conversation entities shared by the front end: who wrote a message, a
    citation attached to it, and the message itself. */
module Types {

  datatype Option<+T> = None | Some(value: T)

  /** A message identifier. The front end derives one from the clock with a prefix;
      here every identifier is a number handed out once. */
  type MessageId = nat

  /** Who a conversation entry belongs to. */
  datatype Role = User | Model | Error

  /** A citation returned with a grounded reply. */
  datatype Source = Source(uri: string, title: string)

  /** One entry of the conversation log; `sources` and `imageUrl` are optional. */
  datatype Message = Message(
    id: MessageId,
    role: Role,
    content: string,
    sources: Option<seq<Source>>,
    imageUrl: Option<string>)

  /** A message without citations or image. */
  function Plain(id: MessageId, role: Role, content: string): (m: Message)
    ensures m.id == id && m.role == role && m.content == content
    ensures m.sources == None && m.imageUrl == None
  {
    Message(id, role, content, None, None)
  }

  /** A thrown value as the front end's catch blocks see it: an Error object
      with a message, or anything else. */
  datatype Failure = ErrorObject(message: string) | OtherThrown

  /** `e instanceof Error ? e.message : fallback` */
  function FailureText(f: Failure, fallback: string): (t: string)
    ensures f.ErrorObject? ==> t == f.message
    ensures f.OtherThrown? ==> t == fallback
  {
    match f
    case ErrorObject(msg) => msg
    case OtherThrown => fallback
  }
}
