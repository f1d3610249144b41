/** The values that travel through the extension's background service workers. */
module Messages {

  /** The identity of one connected port. The workers compare ports by identity only. */
  type PortId = int

  datatype Option<T> = None | Some(value: T)

  /**
   * A runtime message as the popup and the side panel send it: `{ type, text, timestamp }`.
   * The timestamp is an opaque integer taken from the sender's clock.
   */
  datatype Message = Message(msgType: string, text: string, timestamp: int)

  /** The message types the workers look at. Any other string is ignored. */
  const NewMessage: string := "NEW_MESSAGE"
  const GetMessages: string := "GET_MESSAGES"
  const Init: string := "INIT"

  /**
   * What a worker posts to a port on its own account: `{ type: 'MESSAGE_HISTORY', history }`.
   * The history is a value: the host copies a posted object, so later appends are not seen.
   */
  datatype Outbound = MessageHistory(history: seq<Message>)
}
