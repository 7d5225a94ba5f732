/** The status codes, the user record and the JSON bodies that the handlers answer with. */
module Http {
  const StatusOK: int := 200
  const StatusSeeOther: int := 303
  const StatusUnauthorized: int := 401
  const StatusInternalServerError: int := 500

  /** The stored account (`User` in cmd/server/main.go); the gorm bookkeeping is reduced to its ID. */
  datatype User = User(id: nat, username: string, password: string, age: nat)

  /** What a JSON answer carries: `gin.H{}` or a user record (password hash included). */
  datatype JsonBody = EmptyObject | UserObject(user: User)

  datatype JsonReply = JsonReply(status: int, body: JsonBody)
}
