/** The reference backend: bearer-token authentication, signup and login
    over an in-memory user list, and the owner-scoped list, create and soft
    delete of transactions over an in-memory list of JSON objects. The JWT
    and bcrypt libraries are parameters (`verify`, `sign`, `hash`,
    `compare`); ids come from the fresh-id oracle. */
module Server {
  import opened Base
  import opened Text
  import opened Types

  /** A JSON value of a request body or a stored record. */
  datatype Value = Str(s: string) | Bool(b: bool) | Num(n: real) | Null
                 | Arr(items: seq<Value>) | Obj(fields: map<string, Value>)

  /** A JSON object: the request body or a stored transaction. */
  type Record = map<string, Value>

  /** JavaScript truthiness of a JSON value. */
  predicate Truthy(v: Value)
  {
    match v
    case Str(s) => s != ""
    case Bool(b) => b
    case Num(n) => n != 0.0
    case Null => false
    case Arr(_) => true
    case Obj(_) => true
  }

  /** `r[key]` is truthy; an absent key reads as `undefined`. */
  predicate Flag(r: Record, key: string)
  {
    key in r && Truthy(r[key])
  }

  // ---------------------------------------------------------------------
  // authenticateToken

  /** `authHeader && authHeader.split(' ')[1]`, kept only when truthy. */
  function BearerToken(header: Option<string>): (token: Option<string>)
    ensures token.Some? ==> token.value != "" && ' ' !in token.value
  {
    match header
    case None => None
    case Some(h) =>
      var words := SplitOn(h, ' ');
      if |words| >= 2 && words[1] != "" then Some(words[1]) else None
  }

  /** `Bearer <t>` yields `t` for a non-empty token without spaces. */
  lemma BearerTokenOfHeader(scheme: string, t: string)
    requires ' ' !in scheme && ' ' !in t && t != ""
    ensures BearerToken(Some(scheme + " " + t)) == Some(t)
  {
    JoinSplit([scheme, t], ' ');
    assert JoinWith([scheme, t], ' ') == scheme + " " + t by {
      assert [scheme, t][1..] == [t];
    }
  }

  /** A header with no space carries no token. */
  lemma BearerTokenNeedsSpace(h: string)
    requires ' ' !in h
    ensures BearerToken(Some(h)) == None
  {
    JoinSplit([h], ' ');
  }

  /** The claims a token carries: `{ id, email }`. */
  datatype Claims = Claims(id: string, email: string)

  datatype AuthOutcome = Reject(status: int) | Accept(user: Claims)

  /** The middleware's decision; `verify` stands for `jwt.verify` with the
      server secret (`None` is an error). */
  function Authenticate(header: Option<string>, verify: string -> Option<Claims>): (r: AuthOutcome)
    ensures BearerToken(header).None? ==> r == Reject(401)
    ensures BearerToken(header).Some? && verify(BearerToken(header).value).None? ==> r == Reject(403)
    ensures r.Accept? <==> BearerToken(header).Some? && verify(BearerToken(header).value).Some?
    ensures r.Accept? ==> r.user == verify(BearerToken(header).value).value
  {
    match BearerToken(header)
    case None => Reject(401)
    case Some(token) =>
      match verify(token)
      case None => Reject(403)
      case Some(claims) => Accept(claims)
  }

  // ---------------------------------------------------------------------
  // users

  /** `{ id, email, password: hashedPassword, name }`. */
  datatype StoredUser = StoredUser(id: string, email: string, passwordHash: string, name: string)

  /** `{ id, name, email }`: the user in a response; it has no hash. */
  datatype PublicUser = PublicUser(id: string, name: string, email: string)

  datatype AuthReply = AuthReply(token: string, user: PublicUser)

  datatype LoginOutcome = InvalidCredentials | LoggedIn(reply: AuthReply)

  /** The ids of the stored users. */
  function UserIds(us: seq<StoredUser>): seq<string>
  {
    KeysOf(us, (u: StoredUser) => u.id)
  }

  /** `users.find(u => u.email === email)`. */
  function FindUserByEmail(us: seq<StoredUser>, email: string): Option<StoredUser>
  {
    FindFirst(us, (u: StoredUser) => u.email == email)
  }

  /** The public view of a stored user. */
  function Public(u: StoredUser): (p: PublicUser)
    ensures p.id == u.id && p.name == u.name && p.email == u.email
  {
    PublicUser(u.id, u.name, u.email)
  }

  // ---------------------------------------------------------------------
  // transactions

  /** `t.userId === uid`. */
  predicate OwnedBy(r: Record, uid: string)
  {
    "userId" in r && r["userId"] == Str(uid)
  }

  /** `t.id === id`. */
  predicate HasId(r: Record, id: string)
  {
    "id" in r && r["id"] == Str(id)
  }

  /** What GET returns to `uid`. */
  predicate Visible(r: Record, uid: string)
  {
    OwnedBy(r, uid) && !Flag(r, "deleted")
  }

  /** The ids the stored transactions hold as strings. */
  function RecordIds(s: seq<Record>): (r: seq<string>)
    ensures |r| == |s|
    ensures forall i :: 0 <= i < |s| && "id" in s[i] && s[i]["id"].Str? ==> r[i] == s[i]["id"].s
  {
    seq(|s|, i requires 0 <= i < |s| => if "id" in s[i] && s[i]["id"].Str? then s[i]["id"].s else "")
  }

  /** `transactions.find(t => t.id === id && t.userId === uid)`, as an index. */
  function FirstOwned(s: seq<Record>, uid: string, id: string): (k: int)
    ensures -1 <= k < |s|
    ensures k == -1 <==> forall i :: 0 <= i < |s| ==> !(HasId(s[i], id) && OwnedBy(s[i], uid))
    ensures 0 <= k ==> (HasId(s[k], id) && OwnedBy(s[k], uid) &&
      forall i :: 0 <= i < k ==> !(HasId(s[i], id) && OwnedBy(s[i], uid)))
  {
    if s == [] then -1
    else if HasId(s[0], id) && OwnedBy(s[0], uid) then 0
    else
      var k := FirstOwned(s[1..], uid, id);
      assert forall i :: 1 <= i < |s| ==> s[i] == s[1..][i - 1];
      if k == -1 then -1 else k + 1
  }

  /** The transaction list after `if (tx) tx.deleted = true`: only the
      first record of the caller with that id changes, and it stops being
      listed; every other record, and so every record of another user, is
      as it was. */
  function OwnedDeleted(s: seq<Record>, uid: string, id: string): (r: seq<Record>)
    ensures |r| == |s|
    ensures forall i :: 0 <= i < |s| && i != FirstOwned(s, uid, id) ==> r[i] == s[i]
    ensures forall i :: 0 <= i < |s| && !OwnedBy(s[i], uid) ==> r[i] == s[i]
    ensures 0 <= FirstOwned(s, uid, id) ==> var k := FirstOwned(s, uid, id);
      r[k] == s[k]["deleted" := Bool(true)] && HasId(r[k], id) && !Visible(r[k], uid)
  {
    var k := FirstOwned(s, uid, id);
    if k == -1 then s else s[k := s[k]["deleted" := Bool(true)]]
  }

  /** Deleting twice is deleting once. */
  lemma OwnedDeletedIdempotent(s: seq<Record>, uid: string, id: string)
    ensures OwnedDeleted(OwnedDeleted(s, uid, id), uid, id) == OwnedDeleted(s, uid, id)
  {
    var k := FirstOwned(s, uid, id);
    if 0 <= k {
      var r := OwnedDeleted(s, uid, id);
      assert forall i :: 0 <= i < |s| ==> (HasId(r[i], id) && OwnedBy(r[i], uid)) == (HasId(s[i], id) && OwnedBy(s[i], uid));
      assert FirstOwned(r, uid, id) == k;
      assert r[k]["deleted" := Bool(true)] == r[k];
    }
  }

  /** The object POST builds: the body, then `id`, `userId` and `createdAt`
      written over it. */
  function NewRecord(body: Record, id: string, uid: string, now: string): (r: Record)
    ensures "id" in r && "userId" in r && "createdAt" in r
    ensures r["id"] == Str(id) && r["userId"] == Str(uid) && r["createdAt"] == Str(now)
    ensures forall k :: k != "id" && k != "userId" && k != "createdAt" ==>
      (k in r <==> k in body) && (k in body ==> r[k] == body[k])
  {
    body + map["id" := Str(id), "userId" := Str(uid), "createdAt" := Str(now)]
  }

  /** The reference server's in-memory database. */
  class Backend {
    var users: seq<StoredUser>
    var transactions: seq<Record>

    /** The server starts with empty arrays. */
    constructor ()
      ensures users == [] && transactions == []
    {
      users := [];
      transactions := [];
    }

    /** `POST /api/auth/signup`; `hash` stands for `bcrypt.hash(_, 10)` and
        `sign` for `jwt.sign(_, SECRET)`. No check for an existing email. */
    method Signup(email: string, password: string, name: string,
                  hash: string -> string, sign: Claims -> string) returns (reply: AuthReply)
      modifies this
      ensures reply.user.id !in UserIds(old(users))
      ensures users == old(users) + [StoredUser(reply.user.id, email, hash(password), name)]
      ensures reply == AuthReply(sign(Claims(reply.user.id, email)), PublicUser(reply.user.id, name, email))
      ensures transactions == old(transactions)
    {
      var id := FreshId(UserIds(users));
      var user := StoredUser(id, email, hash(password), name);
      users := users + [user];
      reply := AuthReply(sign(Claims(user.id, user.email)), Public(user));
    }

    /** `POST /api/auth/login`: 400 unless the first user with that email
        passes `compare` (standing for `bcrypt.compare`). */
    function Login(email: string, password: string, compare: (string, string) -> bool,
                   sign: Claims -> string): (r: LoginOutcome)
      reads this
      ensures r.InvalidCredentials? <==>
        FindUserByEmail(users, email).None? || !compare(password, FindUserByEmail(users, email).value.passwordHash)
      ensures r.LoggedIn? ==> var u := FindUserByEmail(users, email).value;
        r.reply == AuthReply(sign(Claims(u.id, u.email)), Public(u))
    {
      match FindUserByEmail(users, email)
      case None => InvalidCredentials
      case Some(u) =>
        if !compare(password, u.passwordHash) then InvalidCredentials
        else LoggedIn(AuthReply(sign(Claims(u.id, u.email)), Public(u)))
    }

    /** `GET /api/transactions` for an authenticated `uid`. */
    function ListFor(uid: string): (r: seq<Record>)
      reads this
      ensures forall t :: t in r <==> t in transactions && Visible(t, uid)
      ensures forall t {:trigger multiset(r)[t]} :: multiset(r)[t] == if Visible(t, uid) then multiset(transactions)[t] else 0
      ensures IsSubsequence(r, transactions)
    {
      FilterIsSubsequence((t: Record) => Visible(t, uid), transactions);
      Filter((t: Record) => Visible(t, uid), transactions)
    }

    /** `POST /api/transactions` for an authenticated `uid` at time `now`. */
    method Create(uid: string, body: Record, now: string) returns (status: int, tx: Record)
      modifies this
      ensures status == 201
      ensures exists id :: id !in RecordIds(old(transactions)) && tx == NewRecord(body, id, uid, now)
      ensures transactions == old(transactions) + [tx]
      ensures users == old(users)
    {
      var id := FreshId(RecordIds(transactions));
      tx := NewRecord(body, id, uid, now);
      transactions := transactions + [tx];
      status := 201;
    }

    /** `transactions.find(...)` over the stored list. */
    method FindOwned(uid: string, id: string) returns (k: int)
      ensures k == FirstOwned(transactions, uid, id)
    {
      k := 0;
      while k < |transactions|
        invariant 0 <= k <= |transactions|
        invariant forall i :: 0 <= i < k ==> !(HasId(transactions[i], id) && OwnedBy(transactions[i], uid))
      {
        if HasId(transactions[k], id) && OwnedBy(transactions[k], uid) {
          return;
        }
        k := k + 1;
      }
      k := -1;
    }

    /** `DELETE /api/transactions/:id` for an authenticated `uid`: 200
        whether or not a record matched. */
    method Delete(uid: string, id: string) returns (status: int)
      modifies this
      ensures status == 200
      ensures transactions == OwnedDeleted(old(transactions), uid, id)
      ensures users == old(users)
    {
      var k := FindOwned(uid, id);
      if k != -1 {
        transactions := transactions[k := transactions[k]["deleted" := Bool(true)]];
      }
      status := 200;
    }

    /** GET behind the middleware: a rejected request gets the rejection's
        status and no list. */
    method GetRoute(header: Option<string>, verify: string -> Option<Claims>) returns (status: int, body: Option<seq<Record>>)
      ensures Authenticate(header, verify).Reject? ==> status == Authenticate(header, verify).status && body.None?
      ensures Authenticate(header, verify).Accept? ==>
        status == 200 && body == Some(ListFor(Authenticate(header, verify).user.id))
    {
      match Authenticate(header, verify)
      case Reject(code) =>
        status, body := code, None;
      case Accept(claims) =>
        status, body := 200, Some(ListFor(claims.id));
    }

    /** POST behind the middleware: a rejected request changes nothing. */
    method PostRoute(header: Option<string>, verify: string -> Option<Claims>, body: Record, now: string)
      returns (status: int, tx: Option<Record>)
      modifies this
      ensures Authenticate(header, verify).Reject? ==>
        status == Authenticate(header, verify).status && tx.None? && transactions == old(transactions)
      ensures Authenticate(header, verify).Accept? ==> (status == 201 && tx.Some? &&
        transactions == old(transactions) + [tx.value] && OwnedBy(tx.value, Authenticate(header, verify).user.id))
      ensures users == old(users)
    {
      match Authenticate(header, verify)
      case Reject(code) =>
        status, tx := code, None;
      case Accept(claims) =>
        var created;
        status, created := Create(claims.id, body, now);
        tx := Some(created);
    }

    /** DELETE behind the middleware: a rejected request changes nothing. */
    method DeleteRoute(header: Option<string>, verify: string -> Option<Claims>, id: string) returns (status: int)
      modifies this
      ensures Authenticate(header, verify).Reject? ==>
        status == Authenticate(header, verify).status && transactions == old(transactions)
      ensures Authenticate(header, verify).Accept? ==>
        status == 200 && transactions == OwnedDeleted(old(transactions), Authenticate(header, verify).user.id, id)
      ensures users == old(users)
    {
      match Authenticate(header, verify)
      case Reject(code) =>
        status := code;
      case Accept(claims) =>
        status := Delete(claims.id, id);
    }
  }

  /** A record POSTed without a truthy `deleted` is listed to its creator;
      a body carrying `deleted: true` is stored but never listed. */
  lemma CreatedIsListed(s: seq<Record>, body: Record, id: string, uid: string, now: string)
    ensures NewRecord(body, id, uid, now) in Filter((t: Record) => Visible(t, uid), s + [NewRecord(body, id, uid, now)]) <==>
      !Flag(body, "deleted")
  {
    var r := NewRecord(body, id, uid, now);
    assert r in s + [r];
    assert Flag(r, "deleted") == Flag(body, "deleted");
  }
}
