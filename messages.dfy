/** Conversation messages as the program passes them around: a role and its text. */
module Messages {

  /** The three roles the program uses ('system', 'user', 'assistant'). */
  datatype Role = System | User | Assistant

  /** A `{"role": ..., "content": ...}` entry. */
  datatype Message = Message(role: Role, content: string)
}
