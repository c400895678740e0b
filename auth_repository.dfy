/** `src/auth/AuthRepository.ts`: the user table and the token blacklist. */
module AuthRepository {
  import opened Common
  import opened Types
  import opened Tables

  /** `SELECT * FROM blacklist WHERE token = (?)` finds a row. */
  predicate Blacklisted(blacklist: seq<BlacklistRow>, token: string) {
    exists k :: 0 <= k < |blacklist| && blacklist[k].token == token
  }

  /** Blacklist rows are only ever added: a token once blacklisted stays
      blacklisted, and the added token is blacklisted from then on. */
  lemma BlacklistStays(blacklist: seq<BlacklistRow>, row: BlacklistRow, token: string)
    ensures Blacklisted(blacklist + [row], row.token)
    ensures Blacklisted(blacklist, token) ==> Blacklisted(blacklist + [row], token)
    ensures token != row.token ==> (Blacklisted(blacklist + [row], token) <==> Blacklisted(blacklist, token))
  {
    var after := blacklist + [row];
    assert after[|blacklist|].token == row.token;
    if Blacklisted(blacklist, token) {
      var k :| 0 <= k < |blacklist| && blacklist[k].token == token;
      assert after[k].token == token;
    }
    if token != row.token && Blacklisted(after, token) {
      var k :| 0 <= k < |after| && after[k].token == token;
      assert blacklist[k].token == token;
    }
  }

  /** A user appended under a fresh name is the one a lookup by that name
      finds; lookups of other names are unaffected. */
  lemma {:induction false} FirstUserNamedAppend(users: seq<User>, u: User, username: string)
    requires FirstUserNamed(users, u.username).None?
    ensures FirstUserNamed(users + [u], u.username) == Some(u)
    ensures username != u.username ==> FirstUserNamed(users + [u], username) == FirstUserNamed(users, username)
  {
    if users == [] {
      assert (users + [u])[1..] == [];
    } else {
      assert (users + [u])[1..] == users[1..] + [u];
      FirstUserNamedAppend(users[1..], u, username);
    }
  }

  class AuthRepository {
    const db: Database

    constructor(db: Database)
      ensures this.db == db
    {
      this.db := db;
    }

    /** `getByUser(username)` */
    function GetByUser(username: string): (r: Option<User>)
      reads db`users
      ensures r.None? <==> forall k :: 0 <= k < |db.users| ==> db.users[k].username != username
      ensures r.Some? ==> r.value in db.users && r.value.username == username
    {
      FirstUserNamed(db.users, username)
    }

    /** `createUser(username, hash)`: the display name starts out as the
        username; the new id is returned. */
    method CreateUser(username: string, hash: string) returns (insertId: UserId)
      modifies db`users
      ensures forall k :: 0 <= k < |old(db.users)| ==> old(db.users)[k].id != insertId
      ensures db.users == old(db.users) + [User(insertId, username, username, hash)]
    {
      insertId := NextId(IdsOf(db.users, (u: User) => u.id));
      db.users := db.users + [User(insertId, username, username, hash)];
    }

    /** `blacklistToken(token)`, stamped with the clock reading `now`. */
    method BlacklistToken(token: string, now: int)
      modifies db`blacklist
      ensures db.blacklist == old(db.blacklist) + [BlacklistRow(token, now)]
      ensures IsTokenBlacklisted(token)
      ensures forall t :: old(IsTokenBlacklisted(t)) ==> IsTokenBlacklisted(t)
    {
      BlacklistStays(db.blacklist, BlacklistRow(token, now), token);
      forall t | old(Blacklisted(db.blacklist, t))
        ensures Blacklisted(db.blacklist + [BlacklistRow(token, now)], t)
      {
        BlacklistStays(db.blacklist, BlacklistRow(token, now), t);
      }
      db.blacklist := db.blacklist + [BlacklistRow(token, now)];
    }

    /** `isTokenBlacklisted(token)` */
    predicate IsTokenBlacklisted(token: string)
      reads db`blacklist
      ensures (forall k :: 0 <= k < |db.blacklist| ==> db.blacklist[k].token != token) ==> !IsTokenBlacklisted(token)
      ensures |db.blacklist| > 0 && db.blacklist[|db.blacklist| - 1].token == token ==> IsTokenBlacklisted(token)
    {
      Blacklisted(db.blacklist, token)
    }
  }
}
