/** The replies the controllers send: a status code and the JSON body. */
module Http {
  /** The body of a reply, by what it carries. */
  datatype Body =
    | Text(key: string, text: string)        // `{ <key>: '<fixed text>' }`
    | DatabaseText(key: string, prefix: string) // `{ <key>: prefix + the database's own message }`
    | Capacity(capacity: int)                // `{ capacity: n }`
    | Rows                                   // the rows the database returns
    | NoContent                              // `send()` with no body

  datatype Reply = Reply(status: int, body: Body)
}
