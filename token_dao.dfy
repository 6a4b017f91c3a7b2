/**
 * `TokenDAO`: the two lookups of a live (non-revoked) token by its string, and the
 * token table. Both queries return an `Optional` through Hibernate's single-result
 * rule: no row is empty, rows that are all the same entity are that entity, and
 * rows naming two different entities are an error of the data layer
 * (`IncorrectResultSizeDataAccessException`).
 */
module TokenDao {
  import opened Wrappers
  import opened Domain
  import opened Lists
  import opened Entities

  /** The outcome of a single-result query: no row, one row, or more than one. */
  datatype Lookup<T> = NoMatch | Unique(value: T) | NotUnique

  function Single<T>(s: seq<T>): (r: Lookup<T>)
    ensures r.NoMatch? <==> s == []
    ensures r.Unique? <==> |s| == 1
    ensures r.Unique? ==> r.value == s[0]
  {
    if |s| == 0 then NoMatch else if |s| == 1 then Unique(s[0]) else NotUnique
  }

  /**
   * Hibernate's single result over result rows that are entities: the row when all
   * rows are the same entity, an error when two rows differ.
   */
  function SameEntity<T(==)>(s: seq<T>): (r: Lookup<T>)
    ensures r.NoMatch? <==> s == []
    ensures r.Unique? <==> s != [] && forall x :: x in s ==> x == s[0]
    ensures r.Unique? ==> r.value == s[0]
    ensures r.NotUnique? <==> exists x, y :: x in s && y in s && x != y
  {
    if s == [] then NoMatch
    else if forall x :: x in s ==> x == s[0] then Unique(s[0])
    else
      assert s[0] in s;
      NotUnique
  }

  /** `WHERE ut.token = :token AND ut.revoked = false`, in table order. */
  function LiveMatches(ts: seq<UserToken>, token: string): (r: seq<UserToken>)
    reads ts
    ensures |r| <= |ts|
    ensures forall t :: t in r ==> t in ts && t.token == token && !t.revoked
    ensures forall t :: t in ts && t.token == token && !t.revoked ==> t in r
  {
    if ts == [] then []
    else
      assert ts == [ts[0]] + ts[1..];
      (if ts[0].token == token && !ts[0].revoked then [ts[0]] else []) + LiveMatches(ts[1..], token)
  }

  /** Filtering a table of distinct tokens gives distinct tokens. */
  lemma {:induction false} LiveMatchesNoDup(ts: seq<UserToken>, token: string)
    requires NoDup(ts)
    ensures NoDup(LiveMatches(ts, token))
    decreases |ts|
  {
    if ts != [] {
      NoDupTail(ts);
      LiveMatchesNoDup(ts[1..], token);
      var rest := LiveMatches(ts[1..], token);
      if ts[0].token == token && !ts[0].revoked {
        assert ts[0] !in rest;
        assert LiveMatches(ts, token) == [ts[0]] + rest;
        forall i, j | 0 <= i < j < |[ts[0]] + rest|
          ensures ([ts[0]] + rest)[i] != ([ts[0]] + rest)[j]
        {
          if i > 0 {
            assert ([ts[0]] + rest)[i] == rest[i - 1];
          } else {
            assert ([ts[0]] + rest)[j] in rest;
          }
        }
      } else {
        assert LiveMatches(ts, token) == rest;
      }
    }
  }

  /**
   * `SELECT ut.user ... WHERE ut.token = :token AND ut.revoked = false`: the owners
   * of the live matches, in table order. The path expression is an inner join, so
   * a token without owner contributes no row.
   */
  function LiveOwners(ts: seq<UserToken>, token: string): (r: seq<User>)
    reads ts
    ensures |r| <= |ts|
    ensures forall u :: u in r ==> exists t :: t in ts && t.token == token && !t.revoked && t.user == u
    ensures forall t :: t in ts && t.token == token && !t.revoked && t.user != null ==> t.user in r
  {
    if ts == [] then []
    else
      assert ts == [ts[0]] + ts[1..];
      (if ts[0].token == token && !ts[0].revoked && ts[0].user != null then [ts[0].user] else [])
      + LiveOwners(ts[1..], token)
  }

  /** `t` is a live token with this string that has an owner. */
  predicate OwnsLive(ts: seq<UserToken>, token: string, t: UserToken)
    reads t
  {
    t in ts && t.token == token && !t.revoked && t.user != null
  }

  /** `t` is a live owned token with this string, and every such token has `t`'s owner. */
  predicate SoleOwner(ts: seq<UserToken>, token: string, t: UserToken)
    reads ts, t
  {
    && OwnsLive(ts, token, t)
    && (forall x :: x in ts && OwnsLive(ts, token, x) ==> x.user == t.user)
  }

  /** No live token with this string has an owner. */
  predicate Unowned(ts: seq<UserToken>, token: string)
    reads ts
  {
    forall t :: t in ts && t.token == token && !t.revoked ==> t.user == null
  }

  /** Every live token with this string that has an owner has `owner`. */
  predicate OwnedOnlyBy(ts: seq<UserToken>, token: string, owner: User)
    reads ts
  {
    forall x :: x in ts && x.token == token && !x.revoked && x.user != null ==> x.user == owner
  }

  /** Two live tokens with this string have different owners. */
  predicate RivalOwners(ts: seq<UserToken>, token: string)
    reads ts
  {
    exists t1, t2 :: t1 in ts && t2 in ts && OwnsLive(ts, token, t1) && OwnsLive(ts, token, t2) && t1.user != t2.user
  }

  /** When the owner rows all name one user, a live token of that user owns all of them. */
  lemma OwnerOfAll(ts: seq<UserToken>, token: string)
    requires LiveOwners(ts, token) != []
    requires forall o :: o in LiveOwners(ts, token) ==> o == LiveOwners(ts, token)[0]
    ensures exists t :: t in ts && SoleOwner(ts, token, t) && t.user == LiveOwners(ts, token)[0]
  {
    var owners := LiveOwners(ts, token);
    assert owners[0] in owners;
    var t :| t in ts && t.token == token && !t.revoked && t.user == owners[0];
    assert SoleOwner(ts, token, t);
  }

  /** Appending a token adds its owner at the end exactly when it is a live match with an owner. */
  lemma {:induction false} LiveOwnersAppend(ts: seq<UserToken>, t: UserToken, token: string)
    ensures LiveOwners(ts + [t], token)
         == LiveOwners(ts, token) + (if t.token == token && !t.revoked && t.user != null then [t.user] else [])
    decreases |ts|
  {
    if ts == [] {
      assert [t][1..] == [];
    } else {
      assert (ts + [t])[1..] == ts[1..] + [t];
      LiveOwnersAppend(ts[1..], t, token);
    }
  }

  /** Without a live matching token that has an owner, the owner query finds no row. */
  lemma {:induction false} NoLiveOwner(ts: seq<UserToken>, token: string)
    requires forall x :: x in ts && x.token == token ==> x.revoked || x.user == null
    ensures LiveOwners(ts, token) == []
    decreases |ts|
  {
    if ts != [] {
      assert ts[0] in ts;
      NoLiveOwner(ts[1..], token);
    }
  }

  class TokenStore {
    var rows: seq<UserToken>
    var nextId: nat

    /** Saved tokens are distinct and have distinct ids below the id counter. */
    ghost predicate Valid()
      reads this, rows
    {
      && NoDup(rows)
      && (forall x :: x in rows ==> x.id.Some? && x.id.value < nextId)
      && (forall x, y :: x in rows && y in rows && x != y ==> x.id != y.id)
    }

    constructor ()
      ensures Valid() && rows == []
    {
      rows := [];
      nextId := 0;
    }

    /**
     * `findByToken`: the live token with this string. A unique answer matches and is
     * not revoked; no answer means every stored token with this string is revoked.
     * Stored tokens are distinct entities, so all rows being the same entity is
     * exactly one row.
     */
    function FindByToken(token: string): (r: Lookup<UserToken>)
      reads this, rows
      ensures r.Unique? ==> r.value in rows && r.value.token == token && !r.value.revoked
      ensures r.NoMatch? <==> forall t :: t in rows && t.token == token ==> t.revoked
      ensures r.Unique? <==> |LiveMatches(rows, token)| == 1
      ensures r.Unique? ==> LiveMatches(rows, token) == [r.value]
      ensures r.NotUnique? <==> |LiveMatches(rows, token)| > 1
    {
      var m := LiveMatches(rows, token);
      assert m != [] ==> m[0] in m;
      Single(m)
    }

    /** In a valid table, a single stored live token with this string is the answer. */
    lemma OneLiveTokenFound(t: UserToken, token: string)
      requires Valid()
      requires t in rows && t.token == token && !t.revoked
      requires forall x :: x in rows && x.token == token && !x.revoked ==> x == t
      ensures FindByToken(token) == Unique(t)
    {
      var m := LiveMatches(rows, token);
      LiveMatchesNoDup(rows, token);
      NoDupAllSame(m, t);
    }

    /**
     * `findUserByToken`: the owner of the live tokens with this string. No answer
     * iff no live matching token has an owner; the owner when every live matching
     * token with an owner has that same owner (several rows naming one user are one
     * result); the non-unique error iff two live matching tokens have different owners.
     */
    function FindUserByToken(token: string): (r: Lookup<User>)
      reads this, rows
      ensures r.NoMatch? <==> Unowned(rows, token)
      ensures r.Unique? ==> exists t {:trigger SoleOwner(rows, token, t)} :: t in rows && SoleOwner(rows, token, t) && t.user == r.value
      ensures forall t {:trigger SoleOwner(rows, token, t)} :: t in rows && SoleOwner(rows, token, t) ==> r.Unique? && r.value == t.user
      ensures r.NotUnique? <==> RivalOwners(rows, token)
    {
      var owners := LiveOwners(rows, token);
      assert owners != [] ==> owners[0] in owners;
      if owners != [] && forall o :: o in owners ==> o == owners[0] then
        OwnerOfAll(rows, token);
        SameEntity(owners)
      else
        SameEntity(owners)
    }

    /**
     * A live token appended where every earlier live token with its string and an
     * owner has the same owner (none at all, or earlier logins of that user) resolves
     * to that owner.
     */
    lemma AppendedTokenResolves(before: seq<UserToken>, t: UserToken, owner: User, token: string)
      requires rows == before + [t]
      requires t.token == token && !t.revoked && t.user == owner
      requires OwnedOnlyBy(before, token, owner)
      ensures FindUserByToken(token) == Unique(owner)
    {
      assert t in rows;
      assert SoleOwner(rows, token, t);
    }

    /** `save`: a new token gets the next id and is appended; a stored one is left as it is. */
    method Save(t: UserToken)
      requires Valid()
      requires t in rows || t.id.None?
      modifies this, t
      ensures Valid()
      ensures rows == if t in old(rows) then old(rows) else old(rows) + [t]
      ensures t.id.Some? && (t in old(rows) ==> t.id == old(t.id))
      ensures t.user == old(t.user) && t.token == old(t.token) && t.revoked == old(t.revoked)
      ensures forall x :: x in old(rows) ==> x.id == old(x.id)
    {
      if t !in rows {
        t.id := Some(nextId);
        rows := rows + [t];
        nextId := nextId + 1;
      }
    }
  }

  /** Once every token with a string is revoked, neither lookup finds anything for it. */
  lemma RevokedIsNotFound(store: TokenStore, token: string)
    requires forall t :: t in store.rows && t.token == token ==> t.revoked
    ensures store.FindByToken(token) == NoMatch
    ensures store.FindUserByToken(token) == NoMatch
  {
  }
}

/** `UserDAO`: the user table and `findByEmail` over its unique email column. */
module UserDao {
  import opened Wrappers
  import opened Domain
  import opened Lists
  import opened Entities

  class UserStore {
    var rows: seq<User>
    var nextId: nat

    /** Saved users are distinct, with distinct ids below the id counter and distinct emails. */
    ghost predicate Valid()
      reads this, rows
    {
      && NoDup(rows)
      && (forall x :: x in rows ==> x.id.Some? && x.id.value < nextId)
      && (forall x, y :: x in rows && y in rows && x != y ==> x.id != y.id && x.email != y.email)
    }

    constructor ()
      ensures Valid() && rows == []
    {
      rows := [];
      nextId := 0;
    }

    /** `findByEmail`: the saved user with this email, if any. */
    function FindByEmail(email: string): (r: Option<User>)
      reads this, rows
      ensures r.Some? ==> r.value in rows && r.value.email == email
      ensures r.None? <==> forall u :: u in rows ==> u.email != email
    {
      FindEmail(rows, email)
    }

    static function FindEmail(us: seq<User>, email: string): (r: Option<User>)
      reads us
      ensures r.Some? ==> r.value in us && r.value.email == email
      ensures r.None? <==> forall u :: u in us ==> u.email != email
    {
      if us == [] then None
      else if us[0].email == email then Some(us[0])
      else
        assert us == [us[0]] + us[1..];
        FindEmail(us[1..], email)
    }

    /** `findById` (what `getUserById` returns, null as None): the saved user with this id, if any. */
    function FindById(id: Uuid): (r: Option<User>)
      reads this, rows
      ensures r.Some? ==> r.value in rows && r.value.id == Some(id)
      ensures r.None? <==> forall u :: u in rows ==> u.id != Some(id)
    {
      FindId(rows, id)
    }

    static function FindId(us: seq<User>, id: Uuid): (r: Option<User>)
      reads us
      ensures r.Some? ==> r.value in us && r.value.id == Some(id)
      ensures r.None? <==> forall u :: u in us ==> u.id != Some(id)
    {
      if us == [] then None
      else if us[0].id == Some(id) then Some(us[0])
      else
        assert us == [us[0]] + us[1..];
        FindId(us[1..], id)
    }

    /** `save` of a new user: it gets the next id and is appended. */
    method Save(u: User)
      requires Valid()
      requires u !in rows && u.id.None? && FindByEmail(u.email).None?
      modifies this, u
      ensures Valid()
      ensures rows == old(rows) + [u]
      ensures u.id == Some(old(nextId))
      ensures u.Profile() == old(u.Profile()).(id := u.id)
      ensures u.sessions == old(u.sessions) && u.challenges == old(u.challenges)
      ensures u.createdChallenges == old(u.createdChallenges) && u.tokens == old(u.tokens)
      ensures forall x :: x in old(rows) ==> x.id == old(x.id)
    {
      u.id := Some(nextId);
      rows := rows + [u];
      nextId := nextId + 1;
    }
  }
}
