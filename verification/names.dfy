/** Names shared by the token stores, and the stock Option datatype. */
module Names {
  type UserId = string
  type ClientId = string
  type FamilyId = string
  type Scope = string
  type Code = string

  /** A token stands for the SHA-256 digest under which it is stored. */
  type Token = string

  datatype Option<+T> = None | Some(value: T)
}

/** What both models of the authorization-code store hold under a code. */
module AuthCodes {

  /** Five minutes, in seconds. */
  const CODE_TTL: nat := 300

  datatype CodeEntry<+S> = CodeEntry(sess: S, exp: nat)
}
