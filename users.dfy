/** The read-only user fixture and its lookup: internal/user/user.go, repeated as
    `dbGetUser` in main.go. */
module Users {
  import opened Results
  import opened Search

  datatype User = User(id: int, name: string)

  function IdOf(u: User): int { u.id }

  /** The seeded users. */
  const Fixture: seq<User> := [User(100, "Peter"), User(200, "Julia")]

  const UserNotFound := "user not found."

  /** The first user of `users` whose ID is `id`, or the "user not found." error
      when there is none. */
  function FindUser(users: seq<User>, id: int): (r: Result<User>)
    ensures r.Ok? ==> exists i :: 0 <= i < |users| && users[i] == r.value && r.value.id == id
                                  && forall j :: 0 <= j < i ==> users[j].id != id
    ensures r.Err? ==> r.error == UserNotFound && forall j :: 0 <= j < |users| ==> users[j].id != id
  {
    var i := FirstIndex(users, IdOf, id);
    if i < |users| then Ok(users[i]) else Err(UserNotFound)
  }

  /** `DBGetUser(id)`: the lookup over the fixture. */
  function DBGetUser(id: int): (r: Result<User>)
    ensures r.Ok? <==> id == 100 || id == 200
    ensures r.Ok? ==> r.value.id == id
  {
    FindUser(Fixture, id)
  }

  /** The fixture maps 100 to Peter and 200 to Julia; the authors 0, 300, 400 and
      500 are not found. */
  lemma FixtureLookups()
    ensures DBGetUser(100) == Ok(User(100, "Peter"))
    ensures DBGetUser(200) == Ok(User(200, "Julia"))
    ensures forall id :: id in {0, 300, 400, 500} ==> DBGetUser(id) == Err(UserNotFound)
  {
  }
}
