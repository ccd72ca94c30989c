/** The records the storage collaborator hands to the web layer, its errors,
    and the calls the web layer makes on it. Storage itself (SQL, password
    hashing) lies outside the model: handlers receive its answers as
    function parameters and report the calls they made. */
module Models {

  /** A stored snippet; timestamps are kept as opaque numbers. */
  datatype Snippet = Snippet(id: int, title: string, content: string, created: int, expires: int)

  /** A user account as the authentication step sees it. */
  datatype User = User(id: int, name: string, email: string, hashedPassword: seq<bv8>, created: int, active: bool)

  /** Errors the storage layer reports: the sentinel "no matching record"
      error, or any other failure (described by its text). */
  datatype StoreError = ErrNoRecord | ErrOther(text: string)

  /** A call made on the storage collaborator during one request. */
  datatype StoreCall =
    | GetUser(userId: int)
    | GetSnippet(snippetId: int)
    | InsertSnippet(title: string, content: string, expires: string)
}
