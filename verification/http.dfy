/** What a handler answers, and the session the token middleware establishes. */
module Http {
  import opened Values

  /** A document identifier (an `ObjectId`), already parsed. */
  type Id = nat

  /** The outcome of `verifyToken`: no cookie, a token that fails signature
      or expiry checks, or the decoded payload's `email` claim. */
  datatype Session = NoToken | InvalidToken | Verified(email: Value)

  const UnauthorizedAccess := "unauthorized access"

  /** The body and status a handler sends. */
  datatype Response<D> =
    | Message(status: nat, message: string)                // `{ message }` with a status
    | ErrorDetail(status: nat, message: string, error: string)  // `{ message, error }`
    | Inserted(insertedId: Id)                              // an `insertOne` acknowledgement
    | Updated(matched: nat, modified: nat)                  // an `updateOne` acknowledgement
    | Found(doc: D)                                         // a stored document
    | ClientSecret(secret: string)                          // `{ clientSecret }`
    | Unhandled                                             // the handler threw before replying

  /** A handler's answer together with the collection it leaves behind. */
  datatype Reply<D> = Reply(response: Response<D>, store: seq<D>)
}
