/** The chat-completion boundary: an ordered list of role-tagged turns. */
module Chat {

  /** Who speaks a turn: "system", "user" or "assistant" on the wire. */
  datatype Role = System | User | Assistant

  datatype Message = Message(role: Role, content: string)
}
