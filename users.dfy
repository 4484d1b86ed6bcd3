/** The User entity: upsert by `userid`, and a lookup that never fails but
    answers an unknown userid with a sentinel. */
module Users {
  import opened Wrappers
  import opened Store
  import opened Entities

  ghost predicate UsersValid(t: seq<UserRow>) {
    Numbered(t, UserRowId) && UniqueKeys(t, UserKey)
  }

  /** What `User.new(dbl, userid)` yields for a userid nobody registered:
      nil id, userid and username, and privlevel nonexistent. */
  const Sentinel: User := User(None, None, Nonexistent, None)

  function Hydrate(r: UserRow): User {
    User(Some(r.id), Some(r.userid), r.privlevel, Some(r.username))
  }

  /** `User.new(dbl, userid)`: the stored user, or the sentinel. */
  function GetUser(t: seq<UserRow>, userid: int): (u: User)
    ensures u.id.None? <==> forall j :: 0 <= j < |t| ==> t[j].userid != userid
    ensures u.id.None? ==> u.userid.None? && u.privlevel == Nonexistent && u.username.None?
    ensures u.id.Some? ==>
      u.userid == Some(userid) && u.username.Some? &&
      UserRow(u.id.value, userid, u.privlevel, u.username.value) in t
  {
    match FindOne(t, UserKey, userid)
    case Some(r) => Hydrate(r)
    case None => Sentinel
  }

  /** `User.new(dbl, userid, privlevel, username)` on the `users` table: a new
      userid is inserted; a known one gets the new username, and keeps its id
      and the privlevel it was first stored with. */
  function PutUserRows(t: seq<UserRow>, userid: int, privlevel: UserState, username: string): seq<UserRow> {
    match IndexOfKey(t, UserKey, userid)
    case Some(i) => t[i := t[i].(username := username)]
    case None => t + [UserRow(|t| + 1, userid, privlevel, username)]
  }

  /** `user.is_priviledged`. */
  predicate IsPriviledged(u: User) {
    u.privlevel == Priviledged
  }

  /** After an upsert, the lookup of the same userid returns the new username,
      the first id, and the privlevel of the first registration. */
  lemma PutUserThenGet(t: seq<UserRow>, userid: int, privlevel: UserState, username: string)
    requires UsersValid(t)
    ensures var u := GetUser(PutUserRows(t, userid, privlevel, username), userid);
            var was := GetUser(t, userid);
            && u.userid == Some(userid)
            && u.username == Some(username)
            && (was.id.Some? ==> u.id == was.id && u.privlevel == was.privlevel)
            && (was.id.None? ==> u.id == Some(|t| + 1) && u.privlevel == privlevel)
  {
    PutUserFrame(t, userid, privlevel, username, userid);
  }

  /** An upsert keeps the table well formed, adds a row only for a new userid,
      and changes the lookup of no other userid. */
  lemma PutUserFrame(t: seq<UserRow>, userid: int, privlevel: UserState, username: string, other: int)
    requires UsersValid(t)
    ensures var r := PutUserRows(t, userid, privlevel, username);
            && UsersValid(r)
            && |r| == (if GetUser(t, userid).id.Some? then |t| else |t| + 1)
            && (other != userid ==> GetUser(r, other) == GetUser(t, other))
            && (other == userid ==> FindOne(r, UserKey, userid).Some?)
  {
    match IndexOfKey(t, UserKey, userid)
    case Some(i) =>
      FindOneAfterSet(t, UserKey, i, t[i].(username := username), other);
      FindOneAfterSet(t, UserKey, i, t[i].(username := username), userid);
    case None =>
      var x := UserRow(|t| + 1, userid, privlevel, username);
      FindOneAfterAppend(t, UserKey, x, other);
      FindOneAfterAppend(t, UserKey, x, userid);
  }

  /** A user is privileged exactly when the privlevel of its first
      registration was priviledged; an unknown user never is. */
  lemma PutUserPrivilege(t: seq<UserRow>, userid: int, privlevel: UserState, username: string)
    requires UsersValid(t)
    ensures IsPriviledged(GetUser(PutUserRows(t, userid, privlevel, username), userid))
        <==> (if GetUser(t, userid).id.Some? then IsPriviledged(GetUser(t, userid)) else privlevel == Priviledged)
    ensures GetUser(t, userid).id.None? ==> !IsPriviledged(GetUser(t, userid))
  {
    PutUserThenGet(t, userid, privlevel, username);
  }
}
