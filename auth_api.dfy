/** The auth service's handling of responses (src/features/auth/services/auth.api.ts): where the
    token and the user are read from, and when they are kept in the session storage. */
module AuthApi {
  import opened Js

  /** `toRecord(payload).data`: the `data` member of an object response. */
  function DataOf(payload: Value): Value
  {
    Get(payload, "data")
  }

  /** extractUser: `data.user ?? body.user`, kept only when it is an object. */
  function ExtractUser(payload: Value): (r: Option<Value>)
    ensures r.Some? <==> IsObject(Coalesce(Get(DataOf(payload), "user"), Get(payload, "user")))
    ensures r.Some? ==> r.value == Coalesce(Get(DataOf(payload), "user"), Get(payload, "user"))
  {
    var user := Coalesce(Get(DataOf(payload), "user"), Get(payload, "user"));
    if Truthy(user) && IsObject(user) then Some(user) else None
  }

  /** The user under `data` wins over the one at the top level. */
  lemma NestedUserFirst(payload: Value)
    requires IsObject(Get(DataOf(payload), "user"))
    ensures ExtractUser(payload) == Some(Get(DataOf(payload), "user"))
  {
  }

  /** A nested user that is present but not an object hides the top-level one: `??` only
      skips null and undefined. */
  lemma NestedNonObjectHides(payload: Value)
    requires !Nullish(Get(DataOf(payload), "user")) && !IsObject(Get(DataOf(payload), "user"))
    ensures ExtractUser(payload).None?
  {
  }

  /** The places extractToken looks, in its order. */
  function TokenCandidates(payload: Value): (r: seq<Value>)
    ensures |r| == 6
  {
    var data := DataOf(payload);
    [Get(payload, "token"), Get(data, "token"), Get(data, "accessToken"),
     Get(payload, "accessToken"), Get(payload, "jwt"), Get(data, "jwt")]
  }

  /** The first of `values` that is neither null nor undefined (`a ?? b ?? …`). */
  function FirstPresent(values: seq<Value>): (r: Value)
    ensures (forall i :: 0 <= i < |values| ==> Nullish(values[i])) ==> Nullish(r)
    ensures !Nullish(r) ==> r in values
    ensures forall i :: 0 <= i < |values| && !Nullish(values[i]) && (forall j :: 0 <= j < i ==> Nullish(values[j]))
              ==> r == values[i]
  {
    if values == [] then Undefined
    else if !Nullish(values[0]) then values[0]
    else
      var r := FirstPresent(values[1..]);
      assert forall i :: 1 <= i < |values| ==> values[1..][i - 1] == values[i];
      r
  }

  /** extractToken: the first present candidate, when it is a non-empty string. */
  function ExtractToken(payload: Value): (r: Option<string>)
    ensures r.Some? ==> r.value != ""
    ensures r.Some? <==> FirstPresent(TokenCandidates(payload)).Str? && FirstPresent(TokenCandidates(payload)).s != ""
    ensures r.Some? ==> Str(r.value) in TokenCandidates(payload)
  {
    var token := FirstPresent(TokenCandidates(payload));
    assert token.Str? ==> token in TokenCandidates(payload);
    if token.Str? && token.s != "" then Some(token.s) else None
  }

  /** `body.token` is looked at first. */
  lemma TopLevelTokenFirst(payload: Value, token: string)
    requires Get(payload, "token") == Str(token) && token != ""
    ensures ExtractToken(payload) == Some(token)
  {
    assert TokenCandidates(payload)[0] == Str(token);
  }

  /** `data.accessToken` is used when neither token field is present. */
  lemma NestedAccessToken(payload: Value, token: string)
    requires Nullish(Get(payload, "token")) && Nullish(Get(DataOf(payload), "token"))
    requires Get(DataOf(payload), "accessToken") == Str(token) && token != ""
    ensures ExtractToken(payload) == Some(token)
  {
    var c := TokenCandidates(payload);
    assert Nullish(c[0]) && Nullish(c[1]) && c[2] == Str(token);
  }

  /** A present token that is not a usable string (an empty string, a number) yields none,
      even when a later field holds a good one. */
  lemma PresentBadTokenHides(payload: Value)
    requires !Nullish(Get(payload, "token"))
    requires !(Get(payload, "token").Str? && Get(payload, "token").s != "")
    ensures ExtractToken(payload).None?
  {
    assert TokenCandidates(payload)[0] == Get(payload, "token");
  }

  /** The session storage the service writes: the token and the user. */
  class Session {
    var token: Option<string>
    var user: Option<Value>

    constructor (token: Option<string>, user: Option<Value>)
      ensures this.token == token && this.user == user
    {
      this.token := token;
      this.user := user;
    }

    /** `if (user) setUser(user)`. */
    method StoreUser(data: Value) returns (u: Option<Value>)
      modifies this
      ensures u == ExtractUser(data)
      ensures u.Some? ==> user == u
      ensures u.None? ==> user == old(user)
      ensures token == old(token)
    {
      u := ExtractUser(data);
      if u.Some? {
        user := u;
      }
    }

    /** login and register after their request: keep the token and the user that the
        response carries, leave the stored ones otherwise, and return the user. */
    method SignedIn(data: Value) returns (u: Option<Value>)
      modifies this
      ensures u == ExtractUser(data)
      ensures ExtractToken(data).Some? ==> token == ExtractToken(data)
      ensures ExtractToken(data).None? ==> token == old(token)
      ensures u.Some? ==> user == u
      ensures u.None? ==> user == old(user)
    {
      var t := ExtractToken(data);
      if t.Some? {
        token := t;
      }
      u := StoreUser(data);
    }

    /** me and updateMe after their request: only the user is kept. */
    method Refreshed(data: Value) returns (u: Option<Value>)
      modifies this
      ensures u == ExtractUser(data)
      ensures u.Some? ==> user == u
      ensures u.None? ==> user == old(user)
      ensures token == old(token)
    {
      u := StoreUser(data);
    }

    /** logout clears the session whether the request succeeded or not. */
    method LoggedOut(outcome: Outcome<Value>)
      modifies this
      ensures token.None? && user.None?
    {
      token := None;
      user := None;
    }

    /** deleteAccount clears the session only after the request succeeded. */
    method AccountDeleted(outcome: Outcome<Value>)
      modifies this
      ensures outcome.Returned? ==> token.None? && user.None?
      ensures outcome.Threw? ==> token == old(token) && user == old(user)
    {
      if outcome.Returned? {
        token := None;
        user := None;
      }
    }
  }
}
