/** The blog server: one document with the collections `users`, `posts` and
    `tokens`, a bearer-token gate in front of every mutating handler, the
    create/update/delete handlers for users and posts, and login. */
module Server {
  import opened JsValues

  // ---------------------------------------------------------------------------
  // Auth gate
  // ---------------------------------------------------------------------------

  /** `s.split(sep)` for a one-character separator: the pieces between
      separators, with empty pieces kept. */
  function Split(s: string, sep: char): (fields: seq<string>)
    ensures |fields| >= 1
    ensures forall i :: 0 <= i < |fields| ==> sep !in fields[i]
    ensures sep in s ==> |fields| >= 2
  {
    if s == [] then [[]]
    else if s[0] == sep then [[]] + Split(s[1..], sep)
    else
      var rest := Split(s[1..], sep);
      [[s[0]] + rest[0]] + rest[1..]
  }

  /** `fields.join(sep)`. */
  function Join(fields: seq<string>, sep: char): string
    requires |fields| >= 1
  {
    if |fields| == 1 then fields[0] else fields[0] + [sep] + Join(fields[1..], sep)
  }

  /** Splitting and joining again gives back the string. */
  lemma {:induction false} JoinSplit(s: string, sep: char)
    ensures Join(Split(s, sep), sep) == s
  {
    if s != [] {
      JoinSplit(s[1..], sep);
      if s[0] != sep {
        var rest := Split(s[1..], sep);
        if |rest| > 1 {
          assert Join(rest, sep) == rest[0] + [sep] + Join(rest[1..], sep);
          assert ([[s[0]] + rest[0]] + rest[1..])[1..] == rest[1..];
        }
      }
    }
  }

  /** A word without separators, then a separator: the word is the first piece. */
  lemma {:induction false} SplitAfterWord(w: string, sep: char, t: string)
    requires sep !in w
    ensures Split(w + [sep] + t, sep) == [w] + Split(t, sep)
  {
    if w == [] {
      assert w + [sep] + t == [sep] + t;
      assert ([sep] + t)[1..] == t;
    } else {
      assert (w + [sep] + t)[1..] == w[1..] + [sep] + t;
      SplitAfterWord(w[1..], sep, t);
      assert [w[0]] + w[1..] == w;
    }
  }

  const BearerPrefix: string := "Bearer "

  predicate HasBearerPrefix(header: string) {
    BearerPrefix <= header
  }

  /** `header.split(" ")[1]` for a header that starts with `"Bearer "`. */
  function BearerToken(header: string): (token: string)
    requires HasBearerPrefix(header)
    ensures ' ' !in token
  {
    assert header[6] == ' ';
    Split(header, ' ')[1]
  }

  /** The token of `"Bearer " + t` is `t` up to its first space. */
  lemma BearerTokenOf(t: string)
    ensures BearerToken(BearerPrefix + t) == Split(t, ' ')[0]
    ensures ' ' !in t ==> BearerToken(BearerPrefix + t) == t
  {
    assert BearerPrefix + t == "Bearer" + [' '] + t;
    SplitAfterWord("Bearer", ' ', t);
    if ' ' !in t {
      JoinSplit(t, ' ');
      assert |Split(t, ' ')| == 1;
    }
  }

  datatype AuthResult = NoToken | InvalidToken | Authorized

  /** `authMiddleware`: a missing header, or one without the `"Bearer "`
      prefix, is `NoToken`; a token that was never issued is `InvalidToken`. */
  function Authorize(header: Option<string>, tokens: seq<string>): (r: AuthResult)
    ensures r == NoToken <==> header.None? || !HasBearerPrefix(header.value)
    ensures r == Authorized <==>
      header.Some? && HasBearerPrefix(header.value) &&
      Split(header.value[|BearerPrefix|..], ' ')[0] in tokens
  {
    if header.None? || !HasBearerPrefix(header.value) then NoToken
    else
      var rest := header.value[|BearerPrefix|..];
      assert header.value == BearerPrefix + rest;
      BearerTokenOf(rest);
      if BearerToken(header.value) !in tokens then InvalidToken
      else Authorized
  }

  /** A header of the form `"Bearer " + t` passes the gate exactly when the
      part of `t` before its first space is a stored token. */
  lemma AuthorizeBearer(t: string, tokens: seq<string>)
    ensures Authorize(Some(BearerPrefix + t), tokens) == Authorized <==> Split(t, ' ')[0] in tokens
    ensures Authorize(Some(BearerPrefix + t), tokens) != NoToken
  {
  }

  /** A header that does not start with `"Bearer "` never passes, whatever the tokens. */
  lemma AuthorizeNeedsPrefix(header: string, tokens: seq<string>)
    requires !HasBearerPrefix(header)
    ensures Authorize(Some(header), tokens) == NoToken
  {
  }

  /** Tokens only accumulate, so a header that passed keeps passing after a
      token is appended. */
  lemma AuthorizeMonotone(header: Option<string>, tokens: seq<string>, t: string)
    ensures Authorize(header, tokens) == Authorized ==> Authorize(header, tokens + [t]) == Authorized
  {
  }

  /** An issued token passes as `"Bearer " + t`. Login's base-36 tokens
      contain no space. */
  lemma IssuedTokenAuthorizes(tokens: seq<string>, t: string)
    requires ' ' !in t
    ensures Authorize(Some(BearerPrefix + t), tokens + [t]) == Authorized
  {
    BearerTokenOf(t);
  }

  // ---------------------------------------------------------------------------
  // Collections: id assignment, lookup, filter, merge
  // ---------------------------------------------------------------------------

  /** `parseInt(r.id) || 0`. */
  function ParsedId(r: Record): int {
    ParseIntOrZero(Get(r, "id"))
  }

  /** `Math.max(...coll.map(r => parseInt(r.id) || 0))` for a non-empty collection. */
  function MaxParsedId(coll: seq<Record>): (m: int)
    requires |coll| > 0
    ensures forall i :: 0 <= i < |coll| ==> ParsedId(coll[i]) <= m
    ensures exists i :: 0 <= i < |coll| && ParsedId(coll[i]) == m
  {
    if |coll| == 1 then ParsedId(coll[0])
    else
      var m := MaxParsedId(coll[1..]);
      assert forall i :: 1 <= i < |coll| ==> coll[i] == coll[1..][i - 1];
      if ParsedId(coll[0]) >= m then ParsedId(coll[0]) else m
  }

  /** The number the next record is given: one more than the largest parsed
      id, and 1 for an empty collection. */
  function NextIdNumber(coll: seq<Record>): (n: int)
    ensures forall i :: 0 <= i < |coll| ==> ParsedId(coll[i]) < n
    ensures |coll| == 0 ==> n == 1
    ensures |coll| > 0 ==> exists i :: 0 <= i < |coll| && ParsedId(coll[i]) == n - 1
  {
    (if |coll| > 0 then MaxParsedId(coll) else 0) + 1
  }

  /** `String(maxId + 1)`. */
  function NextId(coll: seq<Record>): (id: string)
    ensures ParseIntOrZero(Some(Str(id))) == NextIdNumber(coll)
  {
    ParseIntOrZeroOfString(NextIdNumber(coll));
    IntToString(NextIdNumber(coll))
  }

  /** `{ id: String(maxId + 1), ...body }`: the body is spread after the id. */
  function NewRecord(coll: seq<Record>, body: Record): (r: Record)
    ensures r.Keys == body.Keys + {"id"}
    ensures forall k :: k in body ==> r[k] == body[k]
    ensures "id" !in body ==> r["id"] == Str(NextId(coll))
  {
    map["id" := Str(NextId(coll))] + body
  }

  /** `{ ...old, ...body }`: fields of the body win, absent fields are kept. */
  function ShallowMerge(current: Record, body: Record): (r: Record)
    ensures r.Keys == current.Keys + body.Keys
    ensures forall k :: k in body ==> r[k] == body[k]
    ensures forall k :: k in current && k !in body ==> r[k] == current[k]
  {
    current + body
  }

  /** `r[key] == param` for a route parameter (always a string); an
      `undefined` field equals nothing. */
  predicate Matches(r: Record, key: string, param: string) {
    key in r && LooseEq(r[key], Str(param))
  }

  /** `arr.findIndex(p)`: the first index where `p` holds, or -1. */
  function FindFirst<T>(s: seq<T>, p: T -> bool): (i: int)
    ensures -1 <= i < |s|
    ensures i >= 0 ==> p(s[i]) && forall j :: 0 <= j < i ==> !p(s[j])
    ensures i == -1 <==> forall j :: 0 <= j < |s| ==> !p(s[j])
  {
    if s == [] then -1
    else if p(s[0]) then 0
    else
      var j := FindFirst(s[1..], p);
      assert forall k :: 1 <= k < |s| ==> s[k] == s[1..][k - 1];
      if j == -1 then -1 else j + 1
  }

  /** `coll.findIndex(r => r[key] == param)`. */
  function FindIndex(coll: seq<Record>, key: string, param: string): (i: int)
    ensures -1 <= i < |coll|
    ensures i >= 0 ==> Matches(coll[i], key, param) && forall j :: 0 <= j < i ==> !Matches(coll[j], key, param)
    ensures i == -1 <==> forall j :: 0 <= j < |coll| ==> !Matches(coll[j], key, param)
  {
    FindFirst(coll, (r: Record) => Matches(r, key, param))
  }

  /** `coll.filter(r => r[key] != param)`. */
  function RemoveMatching(coll: seq<Record>, key: string, param: string): (rest: seq<Record>)
    ensures forall i :: 0 <= i < |rest| ==> !Matches(rest[i], key, param)
    ensures forall r :: multiset(rest)[r] == if Matches(r, key, param) then 0 else multiset(coll)[r]
    ensures (forall i :: 0 <= i < |coll| ==> !Matches(coll[i], key, param)) ==> rest == coll
  {
    if coll == [] then []
    else
      var tail := RemoveMatching(coll[1..], key, param);
      assert coll == [coll[0]] + coll[1..];
      assert forall i :: 1 <= i < |coll| ==> coll[i] == coll[1..][i - 1];
      if Matches(coll[0], key, param) then tail else [coll[0]] + tail
  }

  /** `users.find(u => u.email === email && u.password === password)`, as an index. */
  function FindCredentials(users: seq<Record>, email: Option<JsVal>, password: Option<JsVal>): (i: int)
    ensures -1 <= i < |users|
    ensures i >= 0 ==> Get(users[i], "email") == email && Get(users[i], "password") == password
    ensures i >= 0 ==> forall j :: 0 <= j < i ==> !(Get(users[j], "email") == email && Get(users[j], "password") == password)
    ensures i == -1 <==> forall j :: 0 <= j < |users| ==> !(Get(users[j], "email") == email && Get(users[j], "password") == password)
  {
    FindFirst(users, (u: Record) => Get(u, "email") == email && Get(u, "password") == password)
  }

  /** `{ id: user.id, name: user.name, email: user.email }` as JSON sends it:
      fields the user lacks are omitted. */
  function PublicUser(user: Record): (view: Record)
    ensures view.Keys == user.Keys * {"id", "name", "email"}
    ensures forall k :: k in view ==> view[k] == user[k]
  {
    map k | k in user.Keys && k in {"id", "name", "email"} :: user[k]
  }

  // ---------------------------------------------------------------------------
  // Properties of the collection operations
  // ---------------------------------------------------------------------------

  /** An empty collection gets `"1"`; after one record without its own id is
      created there, the next is `"2"`. */
  lemma FirstIds(body: Record)
    requires "id" !in body
    ensures NextId([]) == "1"
    ensures NextId([NewRecord([], body)]) == "2"
  {
  }

  /** No existing record's id is loosely equal to the assigned id. */
  lemma NextIdIsFresh(coll: seq<Record>)
    ensures forall i :: 0 <= i < |coll| ==> !Matches(coll[i], "id", NextId(coll))
  {
  }

  /** A record created without an id of its own is the one a later lookup
      by the assigned id finds. */
  lemma CreatedIsFoundById(coll: seq<Record>, body: Record)
    requires "id" !in body
    ensures FindIndex(coll + [NewRecord(coll, body)], "id", NextId(coll)) == |coll|
  {
    NextIdIsFresh(coll);
    var s := coll + [NewRecord(coll, body)];
    assert forall i :: 0 <= i < |coll| ==> s[i] == coll[i];
    assert Matches(s[|coll|], "id", NextId(coll));
  }

  /** After the records matching a parameter are removed, a lookup by that
      parameter finds nothing, so a second delete reports not found. */
  lemma RemovedIsNotFound(coll: seq<Record>, key: string, param: string)
    ensures FindIndex(RemoveMatching(coll, key, param), key, param) == -1
  {
  }

  /** The cascade of a user delete keeps every post without a `userId`
      field (posts that carry only an `author` name) with its multiplicity. */
  lemma CascadeKeepsUnlinkedPosts(posts: seq<Record>, id: string)
    ensures forall p :: "userId" !in p ==>
      multiset(RemoveMatching(posts, "userId", id))[p] == multiset(posts)[p]
  {
  }

  /** When some user has exactly the given e-mail and password, login finds
      the first such user, and that user has those credentials. */
  lemma LoginFindsStoredCredentials(users: seq<Record>, email: Option<JsVal>, password: Option<JsVal>, k: nat)
    requires k < |users| && Get(users[k], "email") == email && Get(users[k], "password") == password
    ensures 0 <= FindCredentials(users, email, password) <= k
    ensures var i := FindCredentials(users, email, password);
      Get(users[i], "email") == email && Get(users[i], "password") == password
  {
  }

  /** Removing twice removes nothing more. */
  lemma RemoveMatchingIdempotent(coll: seq<Record>, key: string, param: string)
    ensures RemoveMatching(RemoveMatching(coll, key, param), key, param) == RemoveMatching(coll, key, param)
  {
  }

  /** Merging the same body twice is the same as merging it once. */
  lemma ShallowMergeIdempotent(current: Record, body: Record)
    ensures ShallowMerge(ShallowMerge(current, body), body) == ShallowMerge(current, body)
  {
  }

  // ---------------------------------------------------------------------------
  // The document and its handlers
  // ---------------------------------------------------------------------------

  datatype Response =
    | Unauthorized
    | Forbidden
    | NotFound
    | InvalidCredentials
    | Created(record: Record)
    | Ok(record: Record)
    | UserDeleted(deletedUser: Record, users: seq<Record>)
    | PostDeleted(deletedPost: Record, posts: seq<Record>)
    | LoggedIn(token: string, user: Record)

  /** The response of the gate when it stops a request. */
  function Denied(gate: AuthResult): Response
    requires gate != Authorized
  {
    if gate == NoToken then Unauthorized else Forbidden
  }

  /** The whole persisted document, changed in place by each handler. */
  class Store {
    var users: seq<Record>
    var posts: seq<Record>
    var tokens: seq<string>

    /** The document `getData` returns when the file is missing or empty. */
    constructor ()
      ensures users == [] && posts == [] && tokens == []
    {
      users, posts, tokens := [], [], [];
    }

    /** `POST /api/users`. */
    method CreateUser(authorization: Option<string>, body: Record) returns (r: Response)
      modifies this
      ensures Authorize(authorization, old(tokens)) != Authorized ==>
        r == Denied(Authorize(authorization, old(tokens))) && unchanged(this)
      ensures Authorize(authorization, old(tokens)) == Authorized ==>
        && r == Created(NewRecord(old(users), body))
        && users == old(users) + [r.record]
        && posts == old(posts) && tokens == old(tokens)
    {
      var gate := Authorize(authorization, tokens);
      if gate != Authorized {
        return Denied(gate);
      }
      var newUser := NewRecord(users, body);
      users := users + [newUser];
      r := Created(newUser);
    }

    /** `PUT /api/users/:id`. */
    method UpdateUser(authorization: Option<string>, id: string, body: Record) returns (r: Response)
      modifies this
      ensures Authorize(authorization, old(tokens)) != Authorized ==>
        r == Denied(Authorize(authorization, old(tokens))) && unchanged(this)
      ensures Authorize(authorization, old(tokens)) == Authorized && FindIndex(old(users), "id", id) == -1 ==>
        r == NotFound && unchanged(this)
      ensures Authorize(authorization, old(tokens)) == Authorized && FindIndex(old(users), "id", id) >= 0 ==>
        var i := FindIndex(old(users), "id", id);
        && users == old(users)[i := ShallowMerge(old(users)[i], body)]
        && r == Ok(users[i])
        && posts == old(posts) && tokens == old(tokens)
    {
      var gate := Authorize(authorization, tokens);
      if gate != Authorized {
        return Denied(gate);
      }
      var index := FindIndex(users, "id", id);
      if index == -1 {
        return NotFound;
      }
      users := users[index := ShallowMerge(users[index], body)];
      r := Ok(users[index]);
    }

    /** `DELETE /api/users/:id`: removes every matching user and, by cascade,
        every post whose `userId` matches. */
    method DeleteUser(authorization: Option<string>, id: string) returns (r: Response)
      modifies this
      ensures Authorize(authorization, old(tokens)) != Authorized ==>
        r == Denied(Authorize(authorization, old(tokens))) && unchanged(this)
      ensures Authorize(authorization, old(tokens)) == Authorized && FindIndex(old(users), "id", id) == -1 ==>
        r == NotFound && unchanged(this)
      ensures Authorize(authorization, old(tokens)) == Authorized && FindIndex(old(users), "id", id) >= 0 ==>
        && users == RemoveMatching(old(users), "id", id)
        && posts == RemoveMatching(old(posts), "userId", id)
        && tokens == old(tokens)
        && r == UserDeleted(old(users)[FindIndex(old(users), "id", id)], users)
    {
      var gate := Authorize(authorization, tokens);
      if gate != Authorized {
        return Denied(gate);
      }
      var userIndex := FindIndex(users, "id", id);
      if userIndex == -1 {
        return NotFound;
      }
      var userToDelete := users[userIndex];
      posts := RemoveMatching(posts, "userId", id);
      users := RemoveMatching(users, "id", id);
      r := UserDeleted(userToDelete, users);
    }

    /** `POST /api/posts`. */
    method CreatePost(authorization: Option<string>, body: Record) returns (r: Response)
      modifies this
      ensures Authorize(authorization, old(tokens)) != Authorized ==>
        r == Denied(Authorize(authorization, old(tokens))) && unchanged(this)
      ensures Authorize(authorization, old(tokens)) == Authorized ==>
        && r == Created(NewRecord(old(posts), body))
        && posts == old(posts) + [r.record]
        && users == old(users) && tokens == old(tokens)
    {
      var gate := Authorize(authorization, tokens);
      if gate != Authorized {
        return Denied(gate);
      }
      var newPost := NewRecord(posts, body);
      posts := posts + [newPost];
      r := Created(newPost);
    }

    /** `PUT /api/posts/:id`. */
    method UpdatePost(authorization: Option<string>, id: string, body: Record) returns (r: Response)
      modifies this
      ensures Authorize(authorization, old(tokens)) != Authorized ==>
        r == Denied(Authorize(authorization, old(tokens))) && unchanged(this)
      ensures Authorize(authorization, old(tokens)) == Authorized && FindIndex(old(posts), "id", id) == -1 ==>
        r == NotFound && unchanged(this)
      ensures Authorize(authorization, old(tokens)) == Authorized && FindIndex(old(posts), "id", id) >= 0 ==>
        var i := FindIndex(old(posts), "id", id);
        && posts == old(posts)[i := ShallowMerge(old(posts)[i], body)]
        && r == Ok(posts[i])
        && users == old(users) && tokens == old(tokens)
    {
      var gate := Authorize(authorization, tokens);
      if gate != Authorized {
        return Denied(gate);
      }
      var index := FindIndex(posts, "id", id);
      if index == -1 {
        return NotFound;
      }
      posts := posts[index := ShallowMerge(posts[index], body)];
      r := Ok(posts[index]);
    }

    /** `DELETE /api/posts/:id`: removes every matching post; no cascade. */
    method DeletePost(authorization: Option<string>, id: string) returns (r: Response)
      modifies this
      ensures Authorize(authorization, old(tokens)) != Authorized ==>
        r == Denied(Authorize(authorization, old(tokens))) && unchanged(this)
      ensures Authorize(authorization, old(tokens)) == Authorized && FindIndex(old(posts), "id", id) == -1 ==>
        r == NotFound && unchanged(this)
      ensures Authorize(authorization, old(tokens)) == Authorized && FindIndex(old(posts), "id", id) >= 0 ==>
        && posts == RemoveMatching(old(posts), "id", id)
        && users == old(users) && tokens == old(tokens)
        && r == PostDeleted(old(posts)[FindIndex(old(posts), "id", id)], posts)
    {
      var gate := Authorize(authorization, tokens);
      if gate != Authorized {
        return Denied(gate);
      }
      var postIndex := FindIndex(posts, "id", id);
      if postIndex == -1 {
        return NotFound;
      }
      var postToDelete := posts[postIndex];
      posts := RemoveMatching(posts, "id", id);
      r := PostDeleted(postToDelete, posts);
    }

    /** `POST /api/login`. `freshToken` stands for the random string the
        server generates. */
    method Login(body: Record, freshToken: string) returns (r: Response)
      modifies this
      ensures FindCredentials(old(users), Get(body, "email"), Get(body, "password")) == -1 ==>
        r == InvalidCredentials && unchanged(this)
      ensures FindCredentials(old(users), Get(body, "email"), Get(body, "password")) >= 0 ==>
        var i := FindCredentials(old(users), Get(body, "email"), Get(body, "password"));
        && tokens == old(tokens) + [freshToken]
        && users == old(users) && posts == old(posts)
        && r == LoggedIn(freshToken, PublicUser(old(users)[i]))
    {
      var email, password := Get(body, "email"), Get(body, "password");
      var index := FindCredentials(users, email, password);
      if index == -1 {
        return InvalidCredentials;
      }
      var user := users[index];
      tokens := tokens + [freshToken];
      r := LoggedIn(freshToken, PublicUser(user));
    }
  }
}
