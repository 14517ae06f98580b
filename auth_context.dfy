/**
 * The session (src/contexts/AuthContext.tsx): the token, role and name kept in component
 * state and in the browser's storage, the login that checks a password hash against the
 * stored employees and issues a signed token, the logout, and the `useAuth` accessor.
 */
module AuthContext {
  import opened Js
  import opened Types

  const EmployeesLoadError := "Error al cargar los empleados"
  const InvalidCredentialsError := "Credenciales inválidas"
  const OutsideProviderError := "useAuth must be used within an AuthProvider"

  /** Seconds between a token's `iat` and its `exp`. */
  const TokenLifetime := 60 * 60

  predicate IsDigit(c: char) {
    '0' <= c <= '9'
  }

  /** The decimal digits of `n`, most significant first, without leading zeros. */
  function NatToString(n: nat): (s: string)
    ensures |s| >= 1 && forall i :: 0 <= i < |s| ==> IsDigit(s[i])
    ensures |s| == 1 <==> n < 10
    decreases n
  {
    if n < 10 then ["0123456789"[n]]
    else NatToString(n / 10) + ["0123456789"[n % 10]]
  }

  /** `String(id)` for an integer id. */
  function IntToString(i: int): (s: string)
    ensures |s| >= 1
    ensures i < 0 <==> s[0] == '-'
  {
    if i < 0 then "-" + NatToString(-i) else NatToString(i)
  }

  lemma {:induction false} NatToStringInjective(a: nat, b: nat)
    requires NatToString(a) == NatToString(b)
    ensures a == b
    decreases a
  {
    if 10 <= a {
      var sa, sb := NatToString(a), NatToString(b);
      assert sa[..|sa| - 1] == NatToString(a / 10);
      assert sb[..|sb| - 1] == NatToString(b / 10);
      NatToStringInjective(a / 10, b / 10);
      assert "0123456789"[a % 10] == "0123456789"[b % 10];
    }
  }

  /** Different employee ids give different token subjects. */
  lemma SubjectsAreDistinct(a: int, b: int)
    requires a != b
    ensures IntToString(a) != IntToString(b)
  {
    var sa, sb := IntToString(a), IntToString(b);
    if a < 0 && b < 0 {
      if sa == sb {
        assert sa[1..] == NatToString(-a);
        assert sb[1..] == NatToString(-b);
        NatToStringInjective(-a, -b);
      }
    } else if 0 <= a && 0 <= b {
      if sa == sb {
        NatToStringInjective(a, b);
      }
    } else {
      assert sa[0] != sb[0];
    }
  }

  /** The token payload. */
  datatype Claims = Claims(sub: string, name: string, role: string, iat: int, exp: int)

  /** The payload for `user` at `now` milliseconds since the epoch: the id as a string, the
      username (not the display name), the role, and an hour of validity from the current
      second. */
  function ClaimsFor(user: Employee, now: nat): (c: Claims)
    ensures c.sub == IntToString(user.id) && c.name == user.username && c.role == user.role
    ensures c.iat * 1000 <= now < (c.iat + 1) * 1000
    ensures c.exp == c.iat + TokenLifetime
  {
    Claims(IntToString(user.id), user.username, user.role, now / 1000, now / 1000 + TokenLifetime)
  }

  /** `employees.find(emp => emp.username === username)`. */
  function FindUser(employees: seq<Employee>, username: string): (r: Option<Employee>)
    ensures r.Some? ==> r.value in employees && r.value.username == username
  {
    Find(employees, (e: Employee) => e.username == username)
  }

  /** The credential check: the first employee with the username, provided its stored
      password equals the hash of the typed one (`sha256` stands for crypto-js). */
  function Authenticate(employees: seq<Employee>, username: string, password: string, sha256: string -> string): (r: Option<Employee>)
    ensures r.Some? ==> r.value in employees && r.value.username == username && r.value.password == sha256(password)
  {
    var found := FindUser(employees, username);
    if found.None? || found.value.password != sha256(password) then None else found
  }

  /** Login succeeds for exactly one employee: the FIRST with the username, and only when
      its hash matches. A later employee with the same username and a matching hash is
      never reached. */
  lemma AuthenticateFirstMatch(employees: seq<Employee>, username: string, password: string, sha256: string -> string, i: int)
    requires 0 <= i < |employees| && employees[i].username == username
    requires forall j :: 0 <= j < i ==> employees[j].username != username
    ensures Authenticate(employees, username, password, sha256) ==
      if employees[i].password == sha256(password) then Some(employees[i]) else None
  {
    var p := (e: Employee) => e.username == username;
    FindFirst(employees, p);
    assert p(employees[i]);
    var k :| 0 <= k < |employees| && employees[k] == Find(employees, p).value && forall j :: 0 <= j < k ==> !p(employees[j]);
    assert k == i;
  }

  /** Login fails whenever no employee has the username. */
  lemma AuthenticateUnknownUser(employees: seq<Employee>, username: string, password: string, sha256: string -> string)
    requires forall j :: 0 <= j < |employees| ==> employees[j].username != username
    ensures Authenticate(employees, username, password, sha256) == None
  {
    FindFirst(employees, (e: Employee) => e.username == username);
  }

  /** `localStorage.getItem(key)`: the stored string, or null. */
  function GetItem(storage: map<string, string>, key: string): (r: Option<string>)
    ensures r.Some? <==> key in storage
    ensures r.Some? ==> r.value == storage[key]
  {
    if key in storage then Some(storage[key]) else None
  }

  /** The storage after a login: token, role and name are written, every other key kept. */
  function StorageAfterLogin(storage: map<string, string>, token: string, role: string, name: string): (r: map<string, string>)
    ensures GetItem(r, "token") == Some(token) && GetItem(r, "role") == Some(role) && GetItem(r, "name") == Some(name)
    ensures forall k :: k != "token" && k != "role" && k != "name" ==> GetItem(r, k) == GetItem(storage, k)
  {
    storage["token" := token]["role" := role]["name" := name]
  }

  /** The storage after a logout: token and role are removed and every other key is kept,
      the user's name included. */
  function StorageAfterLogout(storage: map<string, string>): (r: map<string, string>)
    ensures GetItem(r, "token") == None && GetItem(r, "role") == None
    ensures forall k :: k != "token" && k != "role" ==> GetItem(r, k) == GetItem(storage, k)
  {
    storage - {"token", "role"}
  }

  /** After a login and a logout the storage still names the user who left, so the response
      form (which reads the name from storage) would sign with it; only a new login
      replaces it. */
  lemma LogoutLeavesName(storage: map<string, string>, token: string, role: string, name: string)
    ensures GetItem(StorageAfterLogout(StorageAfterLogin(storage, token, role, name)), "name") == Some(name)
    ensures GetItem(StorageAfterLogout(StorageAfterLogin(storage, token, role, name)), "token") == None
  {
  }

  /** What the provider hands to its children. */
  datatype AuthValue = AuthValue(token: Option<string>, role: Option<string>, name: Option<string>)

  /** The members of the context value, `login` and `logout` included. */
  predicate HasMember(key: string) {
    key in {"token", "role", "name", "login", "logout"}
  }

  /** Destructuring `user` from the context value: it has no such member, so `user` is
      `undefined` (None) whatever the session holds. */
  function UserMember(context: AuthValue): (r: Option<AuthValue>)
    ensures r.None?
  {
    if HasMember("user") then Some(context) else None
  }

  /** `useAuth()`: the context value; outside a provider it throws. */
  function UseAuth(context: Option<AuthValue>): (r: Settled<AuthValue>)
    ensures r.Thrown? <==> context.None?
    ensures r.Thrown? ==> r.message == OutsideProviderError
    ensures context.Some? ==> r == Value(context.value)
  {
    match context
    case None => Thrown(OutsideProviderError)
    case Some(value) => Value(value)
  }

  /** The provider's state and the browser storage it writes. */
  class AuthProvider {
    var token: Option<string>
    var role: Option<string>
    var name: Option<string>
    var storage: map<string, string>

    /** A provider starts from whatever the storage holds. */
    constructor (storage: map<string, string>)
      ensures token == GetItem(storage, "token") && role == GetItem(storage, "role") && name == GetItem(storage, "name")
      ensures this.storage == storage
    {
      this.storage := storage;
      token := GetItem(storage, "token");
      role := GetItem(storage, "role");
      name := GetItem(storage, "name");
    }

    /** The context value. */
    function Context(): (v: AuthValue)
      reads this
      ensures v.token == token && v.role == role && v.name == name
    {
      AuthValue(token, role, name)
    }

    /** `login(username, password)`. The employees are fetched: a non-ok response rejects
        with 'Error al cargar los empleados' and a rejected fetch with its own error. An
        unknown username or a wrong password rejects with 'Credenciales inválidas'.
        Otherwise the claims are signed (`sign` stands for HS256 signing with the fixed
        secret), and token, role and name go to the storage and to the state. A rejection
        changes nothing. */
    method Login(username: string, password: string, response: Response<seq<Employee>>,
                 sha256: string -> string, sign: Claims -> string, now: nat) returns (outcome: Settled<()>)
      modifies this
      ensures response.NotOk? ==> outcome == Thrown(EmployeesLoadError)
      ensures response.Rejected? ==> outcome == Thrown(response.message)
      ensures response.Ok? && Authenticate(response.record, username, password, sha256).None? ==>
        outcome == Thrown(InvalidCredentialsError)
      ensures outcome.Thrown? <==> !(response.Ok? && Authenticate(response.record, username, password, sha256).Some?)
      ensures outcome.Thrown? ==>
        token == old(token) && role == old(role) && name == old(name) && storage == old(storage)
      ensures !outcome.Thrown? ==> (
        response.Ok? && outcome == Value(()) &&
        var user := Authenticate(response.record, username, password, sha256).value;
        var signed := sign(ClaimsFor(user, now));
        token == Some(signed) && role == Some(user.role) && name == Some(user.name) &&
        storage == StorageAfterLogin(old(storage), signed, user.role, user.name))
    {
      match response {
        case NotOk =>
          return Thrown(EmployeesLoadError);
        case Rejected(message) =>
          return Thrown(message);
        case Ok(employees) =>
          var foundUser := FindUser(employees, username);
          var hashedPassword := sha256(password);
          if foundUser.None? || foundUser.value.password != hashedPassword {
            return Thrown(InvalidCredentialsError);
          }
          var user := foundUser.value;
          var signed := sign(ClaimsFor(user, now));
          storage := StorageAfterLogin(storage, signed, user.role, user.name);
          token := Some(signed);
          role := Some(user.role);
          name := Some(user.name);
          outcome := Value(());
      }
    }

    /** `logout()`: the state is cleared, token and role leave the storage, the name stays. */
    method Logout()
      modifies this
      ensures token == None && role == None && name == None
      ensures storage == StorageAfterLogout(old(storage))
    {
      storage := StorageAfterLogout(storage);
      token := None;
      role := None;
      name := None;
    }
  }
}
