/** The user payload (internal/userpayload/userpayload.go, repeated in main.go):
    a user together with a role the render hook assigns. */
module UserPayloads {
  import opened Results
  import opened Users

  const Collaborator := "collaborator"

  class UserPayload {
    /** The embedded user; the payload never changes it. */
    var user: User
    var role: string

    /** `NewUserPayloadResponse(u)`: exactly `u`, with no role yet. */
    constructor (u: User)
      ensures user == u && role == ""
    {
      user := u;
      role := "";
    }

    /** `Bind`: the post-decode hook does nothing and reports no error. */
    method Bind() returns (err: Option<string>)
      ensures err == None
    {
      err := None;
    }

    /** `Render`: sets the role to "collaborator" whatever it was, so a second
        render changes nothing, and leaves the user alone. */
    method Render() returns (err: Option<string>)
      modifies this
      ensures role == Collaborator && user == old(user) && err == None
    {
      role := Collaborator;
      err := None;
    }
  }
}
