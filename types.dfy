/** The records exchanged between the chat, the version history and the generator. */
module Types {
  import opened Wrappers

  /** `ChatMessage.role`: the three authors of a chat entry. */
  datatype Role = User | Assistant | System

  /** A chat entry, immutable once created. */
  datatype ChatMessage = ChatMessage(id: string, role: Role, content: string, timestamp: int)

  /** The structured description returned by the generator, carried around unread. */
  datatype Blueprint = Blueprint(json: string)

  /** One generation result; `blueprint` may be null in a stored version. */
  datatype CodeVersion = CodeVersion(
    id: string,
    code: string,
    blueprint: Option<Blueprint>,
    prompt: string,
    explanation: string,
    timestamp: int)

  /** The request sent to the generator; both context fields are nullable. */
  datatype GenerateRequest = GenerateRequest(
    prompt: string,
    currentCode: Option<string>,
    currentBlueprint: Option<Blueprint>)

  /** A successful response: the blueprint is always an object, the violations an ordered list. */
  datatype GenerateResponse = GenerateResponse(
    code: string,
    blueprint: Blueprint,
    explanation: string,
    violations: seq<string>)

  /**
   * How the generation call settles: a response, or a thrown value. A thrown
   * `Error` carries its `message`; anything else thrown carries none.
   */
  datatype GenerateOutcome =
    | Generated(response: GenerateResponse)
    | Failed(message: Option<string>)

  /** A fresh identifier and a clock reading, supplied by the caller. */
  datatype Stamp = Stamp(id: string, time: int)
}
