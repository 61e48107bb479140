/** Package auth: the in-memory credential map `AuthMemStorage`, a login to
    password map updated in place by `Register`. */
module Auth {
  import opened Base

  class AuthMemStorage {
    var data: map<GoString, GoString>

    /** `NewMemStorage`: an empty map. */
    constructor NewMemStorage()
      ensures data == map[]
    {
      data := map[];
    }

    /** A taken login is refused and never overwritten; otherwise exactly
        that entry is added, and can be read back. */
    method Register(login: GoString, password: GoString) returns (err: Outcome)
      modifies this
      ensures login in old(data) ==> err == Fail(UsernameIsTaken) && data == old(data)
      ensures login !in old(data) ==> err == Pass && data == old(data)[login := password]
      ensures err == Pass ==> GetPass(login) == Ok(password) && VerifyCredentials(login, password) == Pass
    {
      if login in data {
        return Fail(UsernameIsTaken);
      }
      data := data[login := password];
      return Pass;
    }

    /** Accepts exactly a registered login with its own password. */
    function VerifyCredentials(login: GoString, password: GoString): (err: Outcome)
      reads this
      ensures err == Pass <==> login in data && data[login] == password
      ensures err != Pass ==> err == Fail(WrongPassword)
    {
      if login in data && data[login] == password then Pass
      else Fail(WrongPassword)
    }

    /** The stored password of a registered login; `ErrUserNotFound`
        otherwise. */
    function GetPass(username: GoString): (r: Result<GoString>)
      reads this
      ensures r.Ok? <==> username in data
      ensures r.Ok? ==> r.value == data[username]
      ensures r.Err? ==> r.error == UserNotFound
    {
      if username !in data then Err(UserNotFound)
      else Ok(data[username])
    }
  }

  /** Registering two different logins on a fresh map keeps both, and a
      second registration of a login is refused without changing its
      password. */
  method RegisterTwice(a: GoString, b: GoString, p: GoString, q: GoString)
    returns (first: Outcome, second: Outcome, again: Outcome, pa: Result<GoString>, pb: Result<GoString>)
    requires a != b
    ensures first == Pass && second == Pass && again == Fail(UsernameIsTaken)
    ensures pa == Ok(p) && pb == Ok(q)
  {
    var s := new AuthMemStorage.NewMemStorage();
    first := s.Register(a, p);
    second := s.Register(b, q);
    again := s.Register(a, q);
    pa := s.GetPass(a);
    pb := s.GetPass(b);
  }
}
