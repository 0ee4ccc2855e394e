/** The user half of internal/usecase/usecase/user.go as functions of the
    state it reads: what each cache-aside read, the nickname check and user
    creation answer, and the cache or table they leave. The methods of
    `Usecase.UserUsecase` are proved to follow these functions. */
module UserFlows {
  import opened Base
  import opened AppErrors
  import opened Entities
  import opened Pagination
  import Roles
  import US = UserStore
  import UC = UserCache

  /** A read of one user: the answer and the by-id cache afterwards. */
  datatype UserFetch = UserFetch(user: Option<User>, err: Option<AppError>, cache: map<Uuid, Option<User>>)

  /** A read of one page: the answer, whether the store panicked, and the
      page cache afterwards. */
  datatype PageFetch = PageFetch(page: Option<Users>, err: Option<AppError>, panicked: bool, cache: map<Query, Users>)

  /** `GetUser(id)`: a cache hit is decoded and returned; a cache miss (the
      not-found code) falls through to the store, whose not-found answer is
      a nil user; the store's user, nil or not, is then cached. Any other
      error of either read, or of the cache write, aborts. */
  function GetUserFlow(cache: map<Uuid, Option<User>>, cacheFaults: map<UC.CacheOp, string>,
                       rows: seq<User>, storeFault: Option<US.Fault>, id: Uuid): UserFetch
  {
    if UC.FindUserByUuidGet in cacheFaults then
      UserFetch(None, Some(Wrap(UserUsecaseGetUserFindUserByUUID,
                                UserRedisRepoFindUserByUUIDGet.AppendMessage(cacheFaults[UC.FindUserByUuidGet]))), cache)
    else if id in cache then
      UserFetch(Some(UC.CachedUser(cache[id])), None, cache)
    else if storeFault.Some? then
      UserFetch(None, Some(Wrap(UserUsecaseGetUserLoad,
                                UserRepoFindUserByUUIDGetContext.AppendMessage(storeFault.value.cause))), cache)
    else if UC.SetFindUserByUuidSet in cacheFaults then
      UserFetch(None, Some(Wrap(UserUsecaseGetUserSetFindUserByUUID,
                                UserRedisRepoSetFindUserByUUIDSet.AppendMessage(cacheFaults[UC.SetFindUserByUuidSet]))), cache)
    else
      var found := US.FirstWithId(rows, id);
      UserFetch(found, None, cache[id := found])
  }

  /** A hit is answered from the cache alone: the store's rows and faults
      do not matter and the cache is left as it was. */
  lemma GetUserHitSkipsStore(cache: map<Uuid, Option<User>>, cacheFaults: map<UC.CacheOp, string>,
                             rows: seq<User>, f: Option<US.Fault>, rows': seq<User>, f': Option<US.Fault>, id: Uuid)
    requires UC.FindUserByUuidGet !in cacheFaults && id in cache
    ensures GetUserFlow(cache, cacheFaults, rows, f, id) == GetUserFlow(cache, cacheFaults, rows', f', id)
    ensures GetUserFlow(cache, cacheFaults, rows, f, id) == UserFetch(Some(UC.CachedUser(cache[id])), None, cache)
  {
  }

  /** After a successful read the cache holds the id, agrees with the
      answer, and differs from before at most at that id. */
  lemma GetUserCoherent(cache: map<Uuid, Option<User>>, cacheFaults: map<UC.CacheOp, string>,
                        rows: seq<User>, f: Option<US.Fault>, id: Uuid)
    ensures var r := GetUserFlow(cache, cacheFaults, rows, f, id);
      (r.err.None? ==>
         id in r.cache
         && (r.user.Some? ==> r.user.value == UC.CachedUser(r.cache[id]))
         && (r.user.None? ==> r.cache[id].None?))
      && r.cache.Keys <= cache.Keys + {id}
      && (forall k :: k in cache && k != id ==> k in r.cache && r.cache[k] == cache[k])
      && (r.err.Some? ==> r.user.None? && r.cache == cache)
  {
  }

  /** `GetUser` answers nil without an error exactly when the user is in
      neither the cache nor the table and caching the nil succeeded. */
  lemma GetUserNilIffAbsent(cache: map<Uuid, Option<User>>, cacheFaults: map<UC.CacheOp, string>,
                            rows: seq<User>, f: Option<US.Fault>, id: Uuid)
    ensures var r := GetUserFlow(cache, cacheFaults, rows, f, id);
      (r.user.None? && r.err.None?) <==>
        (UC.FindUserByUuidGet !in cacheFaults && id !in cache && f.None?
         && UC.SetFindUserByUuidSet !in cacheFaults
         && forall i :: 0 <= i < |rows| ==> rows[i].userId != id)
  {
  }

  /** A miss loads the store's row, or nil, and caches it. */
  lemma GetUserMissLoads(cache: map<Uuid, Option<User>>, cacheFaults: map<UC.CacheOp, string>,
                         rows: seq<User>, id: Uuid)
    requires UC.FindUserByUuidGet !in cacheFaults && UC.SetFindUserByUuidSet !in cacheFaults && id !in cache
    ensures var r := GetUserFlow(cache, cacheFaults, rows, None, id);
      r.err.None? && r.user == US.FirstWithId(rows, id) && r.cache == cache[id := r.user]
      && (r.user.Some? ==> r.user.value in rows && r.user.value.userId == id)
  {
  }

  /** Reading a missing user twice: the first read caches nil and answers
      nil, the second decodes that nil into the zero user, whose id is the
      nil id rather than the one asked for. */
  lemma MissingUserReadTwice(cache: map<Uuid, Option<User>>, cacheFaults: map<UC.CacheOp, string>,
                             rows: seq<User>, id: Uuid)
    requires UC.FindUserByUuidGet !in cacheFaults && UC.SetFindUserByUuidSet !in cacheFaults && id !in cache
    requires forall i :: 0 <= i < |rows| ==> rows[i].userId != id
    ensures var first := GetUserFlow(cache, cacheFaults, rows, None, id);
      first.user.None? && first.err.None?
      && GetUserFlow(first.cache, cacheFaults, rows, None, id).user == Some(ZeroUser)
      && (id != NilUuid ==> ZeroUser.userId != id)
  {
    var first := GetUserFlow(cache, cacheFaults, rows, None, id);
    assert US.FirstWithId(rows, id).None?;
    assert first.cache[id] == None;
  }

  /** `GetUserFlow` with a decode that keeps a cached nil, as caching nil
      evidently intends. */
  function GetUserFlowIntended(cache: map<Uuid, Option<User>>, cacheFaults: map<UC.CacheOp, string>,
                               rows: seq<User>, storeFault: Option<US.Fault>, id: Uuid): UserFetch
  {
    if UC.FindUserByUuidGet in cacheFaults then
      UserFetch(None, Some(Wrap(UserUsecaseGetUserFindUserByUUID,
                                UserRedisRepoFindUserByUUIDGet.AppendMessage(cacheFaults[UC.FindUserByUuidGet]))), cache)
    else if id in cache then
      UserFetch(UC.CachedUserOrNil(cache[id]), None, cache)
    else if storeFault.Some? then
      UserFetch(None, Some(Wrap(UserUsecaseGetUserLoad,
                                UserRepoFindUserByUUIDGetContext.AppendMessage(storeFault.value.cause))), cache)
    else if UC.SetFindUserByUuidSet in cacheFaults then
      UserFetch(None, Some(Wrap(UserUsecaseGetUserSetFindUserByUUID,
                                UserRedisRepoSetFindUserByUUIDSet.AppendMessage(cacheFaults[UC.SetFindUserByUuidSet]))), cache)
    else
      var found := US.FirstWithId(rows, id);
      UserFetch(found, None, cache[id := found])
  }

  /** With the nil-keeping decode, a second read answers what the first
      did: reading through the cache is idempotent when nothing failed. */
  lemma GetUserIntendedIdempotent(cache: map<Uuid, Option<User>>, cacheFaults: map<UC.CacheOp, string>,
                                  rows: seq<User>, id: Uuid)
    requires UC.FindUserByUuidGet !in cacheFaults
    ensures var first := GetUserFlowIntended(cache, cacheFaults, rows, None, id);
      first.err.None? ==>
        var second := GetUserFlowIntended(first.cache, cacheFaults, rows, None, id);
        second.user == first.user && second.err.None? && second.cache == first.cache
  {
    var first := GetUserFlowIntended(cache, cacheFaults, rows, None, id);
    if first.err.None? && id !in cache {
      assert first.cache[id] == first.user;
    }
  }

  /** `GetUserByNickname(nickname)`: every cache error, not-found included,
      aborts; a hit is decoded and returned. The store is never read. */
  function GetUserByNicknameFlow(cache: map<string, Option<User>>, cacheFaults: map<UC.CacheOp, string>,
                                 nickname: string): (r: US.Answer<User>)
  {
    if UC.FindUserByNicknameGet in cacheFaults then
      US.Answer(None, Some(Wrap(UserUsecaseGetUserByNicknameUserRedisRepoFindUserByNickname,
                                UserRedisRepoFindUserByNicknameGet.AppendMessage(cacheFaults[UC.FindUserByNicknameGet]))))
    else if nickname !in cache then
      US.Answer(None, Some(Wrap(UserUsecaseGetUserByNicknameUserRedisRepoFindUserByNickname,
                                UserRedisRepoFindUserByNicknameGetDataNotFound.AppendMessage(UC.RedisNilText))))
    else
      US.Answer(Some(UC.CachedUser(cache[nickname])), None)
  }

  /** A user who was never cached by nickname cannot be found by nickname,
      whatever the table holds: the answer is an error naming the cache. */
  lemma NicknameMissNeverLoads(cache: map<string, Option<User>>, cacheFaults: map<UC.CacheOp, string>, nickname: string)
    requires nickname !in cache
    ensures var r := GetUserByNicknameFlow(cache, cacheFaults, nickname);
      r.value.None? && r.err.Some? && r.err.value.code == UserUsecaseGetUserByNicknameUserRedisRepoFindUserByNickname.code
  {
  }

  /** Success of a nickname read means a cache hit. */
  lemma NicknameFoundOnlyInCache(cache: map<string, Option<User>>, cacheFaults: map<UC.CacheOp, string>, nickname: string)
    ensures var r := GetUserByNicknameFlow(cache, cacheFaults, nickname);
      (r.err.None? <==> UC.FindUserByNicknameGet !in cacheFaults && nickname in cache)
      && (r.err.None? ==> r.value == Some(UC.CachedUser(cache[nickname])))
  {
  }

  /** `GetUsers(q)`: the cache-aside read of a page, as for one user, except
      that the store's page is never nil; a store panic ends the read with
      the cache untouched. */
  function GetUsersFlow(cache: map<Query, Users>, cacheFaults: map<UC.CacheOp, string>,
                        rows: seq<User>, f: Option<US.Fault>, rowsFault: Option<US.Fault>, q: Query): PageFetch
  {
    if UC.GetUsersGet in cacheFaults then
      PageFetch(None, Some(Wrap(UserUsecaseGetUsersUserRedisRepoGetUsers,
                                UserRedisRepoGetUsersGet.AppendMessage(cacheFaults[UC.GetUsersGet]))), false, cache)
    else if q in cache then
      PageFetch(Some(cache[q]), None, false, cache)
    else
      var stored := US.PageAnswer(rows, f, rowsFault, q);
      if stored.panicked then
        PageFetch(None, None, true, cache)
      else if stored.err.Some? then
        PageFetch(None, Some(Wrap(UserUsecaseGetUsers, stored.err.value)), false, cache)
      else if UC.SetGetUsersSet in cacheFaults then
        PageFetch(None, Some(Wrap(UserUsecaseGetUsersUserRedisRepoSetGetUsers,
                                  UserRedisRepoSetGetUsersSet.AppendMessage(cacheFaults[UC.SetGetUsersSet]))), false, cache)
      else
        PageFetch(stored.value, None, false, cache[q := stored.value.value])
  }

  /** A read panics exactly when a readable cache misses a query of
      negative size, and then answers nothing and caches nothing; otherwise
      exactly one of page and error comes back. A successful page read
      leaves that page cached under its query, and a cached page is
      returned as it is, without consulting the store. */
  lemma GetUsersCoherent(cache: map<Query, Users>, cacheFaults: map<UC.CacheOp, string>,
                         rows: seq<User>, f: Option<US.Fault>, rowsFault: Option<US.Fault>, q: Query)
    ensures var r := GetUsersFlow(cache, cacheFaults, rows, f, rowsFault, q);
      (r.panicked <==> UC.GetUsersGet !in cacheFaults && q !in cache && q.size < 0)
      && (r.panicked ==> r.page.None? && r.err.None? && r.cache == cache)
      && (!r.panicked ==> (r.err.None? <==> r.page.Some?))
      && (r.page.Some? ==> q in r.cache && r.page == Some(r.cache[q]))
      && (r.err.Some? ==> r.cache == cache)
      && (forall k :: k in cache && k != q ==> k in r.cache && r.cache[k] == cache[k])
      && (UC.GetUsersGet !in cacheFaults && q in cache ==> r == PageFetch(Some(cache[q]), None, false, cache))
  {
    US.PageAnswerShape(rows, f, rowsFault, q);
  }

  /** On a miss with a fault-free store and cache, the page answered and
      cached is the store's page for the query. */
  lemma GetUsersMissLoads(cache: map<Query, Users>, cacheFaults: map<UC.CacheOp, string>, rows: seq<User>, q: Query)
    requires UC.GetUsersGet !in cacheFaults && UC.SetGetUsersSet !in cacheFaults && q !in cache
    requires Offset(q) >= 0 && q.size > 0
    ensures var r := GetUsersFlow(cache, cacheFaults, rows, None, None, q);
      r.err.None? && !r.panicked && r.page.value.page == q.page
      && r.page.value.users == US.ListedAll(US.Window(rows, Offset(q), q.size))
      && r.cache == cache[q := r.page.value]
  {
    US.PageAnswerShape(rows, None, None, q);
  }

  /** What `CheckUserByNickname` answers: whether the nickname is free for
      the user, and the error. */
  datatype Check = Check(free: bool, err: Option<AppError>)

  /** `CheckUserByNickname(user)`: a lookup error other than not-found
      aborts; the first row holding the nickname makes it busy unless it
      is the user's own. */
  function CheckNicknameFlow(rows: seq<User>, f: Option<US.Fault>, user: User): Check
  {
    if f.Some? then
      Check(false, Some(Wrap(UserUsecaseCheckProfileByNick,
                             UserRepoFindUserByNicknameGetContext.AppendMessage(f.value.cause))))
    else
      match US.FirstWithNickname(rows, user.nickname)
      case Some(holder) =>
        if holder.userId != user.userId then Check(false, Some(UserUsecaseCheckProfileByNickBusy.AppendMessage(NilText)))
        else Check(true, None)
      case None => Check(true, None)
  }

  /** No two rows share a nickname. */
  ghost predicate NicknamesUnique(rows: seq<User>)
  {
    forall i, j :: 0 <= i < |rows| && 0 <= j < |rows| && rows[i].nickname == rows[j].nickname ==> i == j
  }

  /** When the lookup succeeds and nicknames are unique, the nickname is
      free for the user iff every row holding it is the user's own. */
  lemma CheckNicknameMeansFree(rows: seq<User>, user: User)
    requires NicknamesUnique(rows)
    ensures var c := CheckNicknameFlow(rows, None, user);
      (c.free <==> forall i :: 0 <= i < |rows| && rows[i].nickname == user.nickname ==> rows[i].userId == user.userId)
      && (c.free <==> c.err.None?)
  {
    var c := CheckNicknameFlow(rows, None, user);
    var first := US.FirstWithNickname(rows, user.nickname);
    if first.Some? {
      var k :| 0 <= k < |rows| && rows[k] == first.value;
      forall i | 0 <= i < |rows| && rows[i].nickname == user.nickname
        ensures rows[i] == first.value
      {
        assert i == k;
      }
    }
  }

  /** What `CreateUser` answers and the table it leaves. */
  datatype Creation = Creation(user: Option<User>, err: Option<AppError>, rows: seq<User>)

  /** The user `CreateUser` saves: stamped with the time and a fresh id,
      given the default role and the password's hash. */
  function Prepared(user: User, now: Time, freshId: Uuid, hash: string): (p: User)
    ensures p.userId == freshId && p.role == Roles.RoleUser && p.password == hash
    ensures p.created.createdAt == now && p.created.createdBy == user.created.createdBy
    ensures p.(userId := user.userId, role := user.role, password := user.password, created := user.created) == user
  {
    user.(created := user.created.(createdAt := now), userId := freshId, role := Roles.GetDefaultRole(), password := hash)
  }

  /** The answer of `bcrypt.GenerateFromPassword`. */
  datatype HashOutcome = Hashed(hash: string) | HashFailed(cause: string)

  /** `CreateUser(user)`: hash the password, look the nickname up (only a
      not-found answer lets it go on), return an existing holder of the
      nickname with the user-exists error, else save the prepared user. */
  function CreateUserFlow(rows: seq<User>, findFault: Option<US.Fault>, saveFault: Option<US.Fault>,
                          user: User, now: Time, freshId: Uuid, hash: HashOutcome): Creation
  {
    match hash
    case HashFailed(cause) =>
      Creation(None, Some(Wrap(UserUsecaseCreateUserHashPassword, UserHashPasswordGenerateFromPassword.AppendMessage(cause))), rows)
    case Hashed(h) =>
      var prepared := Prepared(user, now, freshId, h);
      if findFault.Some? then
        Creation(None, Some(Wrap(UserUsecaseCreateUserFindUserByNickname,
                                 UserRepoFindUserByNicknameGetContext.AppendMessage(findFault.value.cause))), rows)
      else
        match US.FirstWithNickname(rows, prepared.nickname)
        case Some(existing) => Creation(Some(existing), Some(UserUsecaseCreateUserUserExists.AppendMessage(NilText)), rows)
        case None =>
          if saveFault.Some? then
            Creation(None, Some(Wrap(UserUsecaseCreateUserSaveUser,
                                     UserRepoSaveUserQueryRowxContext.AppendMessage(saveFault.value.cause))), rows)
          else
            Creation(Some(prepared), None, rows + [US.Stored(prepared)])
  }

  /** A table row is added only on success, and then it is the prepared
      user: fresh id, role "user", the hash as password, no votes. */
  lemma CreateUserSavesPrepared(rows: seq<User>, findFault: Option<US.Fault>, saveFault: Option<US.Fault>,
                                user: User, now: Time, freshId: Uuid, hash: HashOutcome)
    ensures var c := CreateUserFlow(rows, findFault, saveFault, user, now, freshId, hash);
      (c.err.None? <==> c.rows != rows)
      && (c.err.Some? ==> c.rows == rows)
      && (c.err.None? ==>
            hash.Hashed? && c.user == Some(Prepared(user, now, freshId, hash.hash))
            && c.rows == rows + [US.Stored(c.user.value)]
            && c.user.value.role == Roles.RoleUser && c.user.value.userId == freshId
            && c.rows[|rows|].votes == [])
  {
  }

  /** A taken nickname is never saved twice: the holder comes back with the
      user-exists error and the table is unchanged. */
  lemma CreateUserRejectsTakenNickname(rows: seq<User>, saveFault: Option<US.Fault>,
                                       user: User, now: Time, freshId: Uuid, h: string, i: nat)
    requires i < |rows| && rows[i].nickname == user.nickname
    ensures var c := CreateUserFlow(rows, None, saveFault, user, now, freshId, Hashed(h));
      c.rows == rows && c.user.Some? && c.user.value in rows && c.user.value.nickname == user.nickname
      && c.err == Some(UserUsecaseCreateUserUserExists.AppendMessage(NilText))
  {
    assert US.FirstWithNickname(rows, user.nickname).Some?;
  }

  /** `CreateUser` keeps nicknames unique in the table. */
  lemma {:induction false} CreateUserKeepsNicknamesUnique(rows: seq<User>, findFault: Option<US.Fault>, saveFault: Option<US.Fault>,
                                                         user: User, now: Time, freshId: Uuid, hash: HashOutcome)
    requires NicknamesUnique(rows)
    ensures NicknamesUnique(CreateUserFlow(rows, findFault, saveFault, user, now, freshId, hash).rows)
  {
    var c := CreateUserFlow(rows, findFault, saveFault, user, now, freshId, hash);
    if c.rows != rows {
      var p := Prepared(user, now, freshId, hash.hash);
      assert US.FirstWithNickname(rows, p.nickname).None?;
      assert c.rows == rows + [US.Stored(p)];
      forall i, j | 0 <= i < |c.rows| && 0 <= j < |c.rows| && c.rows[i].nickname == c.rows[j].nickname
        ensures i == j
      {
        if i < |rows| && j < |rows| {
          assert rows[i] == c.rows[i] && rows[j] == c.rows[j];
        }
      }
    }
  }
}
