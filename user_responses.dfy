/** The user DTO mapping: the stored user record and the public view of it
    that the API returns, which leaves the password behind. */
module UserResponses {

  /** Go's uint on a 64-bit platform. */
  newtype Uint = x: int | 0 <= x < 0x1_0000_0000_0000_0000

  /** A time.Time, copied as a whole: wall clock, monotonic reading, location. */
  datatype Time = Time(wall: int, monotonic: int, location: string)

  /** models.User. */
  datatype User = User(id: Uint, username: string, email: string, password: string,
                       createdAt: Time, updatedAt: Time)

  /** responses.UserResponse: the same fields without the password. */
  datatype UserResponse = UserResponse(id: Uint, username: string, email: string,
                                       createdAt: Time, updatedAt: Time)

  function FromUser(user: User): (r: UserResponse)
    ensures r.id == user.id && r.username == user.username && r.email == user.email
    ensures r.createdAt == user.createdAt && r.updatedAt == user.updatedAt
  {
    UserResponse(user.id, user.username, user.email, user.createdAt, user.updatedAt)
  }

  /** Two users map to the same response exactly when they agree on every
      field but the password: the password has no influence on the result. */
  lemma FromUserForgetsOnlyPassword(a: User, b: User)
    ensures FromUser(a) == FromUser(b) <==> a.(password := b.password) == b
  {
    if FromUser(a) == FromUser(b) {
      assert a.id == FromUser(a).id == FromUser(b).id == b.id;
    }
  }

  /** A response determines the user up to the password: every response is
      the image of some user with any password. */
  lemma FromUserOnto(r: UserResponse, password: string)
    ensures FromUser(User(r.id, r.username, r.email, password, r.createdAt, r.updatedAt)) == r
  {
  }

  /** FromUsers: a result of the same length, filled index by index. */
  method FromUsers(users: seq<User>) returns (responses: seq<UserResponse>)
    ensures |responses| == |users|
    ensures forall i :: 0 <= i < |users| ==> responses[i] == FromUser(users[i])
  {
    var a := new UserResponse[|users|];
    for i := 0 to |users|
      invariant forall j :: 0 <= j < i ==> a[j] == FromUser(users[j])
    {
      a[i] := FromUser(users[i]);
    }
    responses := a[..];
  }
}
