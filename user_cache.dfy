/** The user cache of internal/interface/repository/user_redis.go as three
    key-value maps: users by id, users by nickname, and pages by query (the
    query's JSON is the key, and distinct queries give distinct keys). A
    stored value is what was set; a stored nil user is JSON `null`. Redis
    failures are injected per operation: `faults[op]` is the error text. */
module UserCache {
  import opened Base
  import opened AppErrors
  import opened Entities
  import opened Pagination

  datatype CacheOp =
    | FindUserByUuidGet | SetFindUserByUuidSet | FindUserByNicknameGet
    | SetFindUserByNicknameSet | GetUsersGet | SetGetUsersSet

  /** The text of `redis.Nil`, the key-not-found reply. */
  const RedisNilText := "redis: nil"

  /** `json.Unmarshal` of a cached user into a fresh `&model.User{}`: the
      bytes `null` leave the zero user in place, so a cached nil comes back
      as a non-nil zero user. */
  function CachedUser(stored: Option<User>): (u: User)
    ensures stored.Some? ==> u == stored.value
    ensures stored.None? ==> u == ZeroUser
  {
    match stored
    case Some(v) => v
    case None => ZeroUser
  }

  /** Decoding into a pointer that can stay nil, as caching a nil user
      evidently intends. */
  function CachedUserOrNil(stored: Option<User>): Option<User>
  {
    stored
  }

  /** Caching nil and reading it back gives a user, not nil: the round trip
      through the cache fails for exactly the nil value. */
  lemma NilDoesNotRoundTrip()
    ensures CachedUser(None) == ZeroUser && ZeroUser.userId == NilUuid
    ensures forall u: User :: CachedUser(Some(u)) == u
  {
  }

  /** With a nil-preserving decode every cached value, nil included, reads
      back as it was set. */
  lemma NilRoundTrips(v: Option<User>)
    ensures CachedUserOrNil(v) == v
    ensures CachedUserOrNil(v).None? <==> v.None?
  {
  }

  class UserRedisRepo {
    var byId: map<Uuid, Option<User>>
    var byNickname: map<string, Option<User>>
    var byPage: map<Query, Users>
    var faults: map<CacheOp, string>

    constructor (faults: map<CacheOp, string>)
      ensures byId == map[] && byNickname == map[] && byPage == map[] && this.faults == faults
    {
      byId := map[];
      byNickname := map[];
      byPage := map[];
      this.faults := faults;
    }

    /** `FindUserByUUID`: a miss is data-not-found, another Redis error a
        get error, and a hit the decoded user. */
    method FindUserByUUID(userId: Uuid) returns (user: Option<User>, err: Option<AppError>)
      ensures FindUserByUuidGet in faults ==>
        user.None? && err == Some(UserRedisRepoFindUserByUUIDGet.AppendMessage(faults[FindUserByUuidGet]))
      ensures FindUserByUuidGet !in faults && userId !in byId ==>
        user.None? && err == Some(UserRedisRepoFindUserByUUIDGetDataNotFound.AppendMessage(RedisNilText))
      ensures FindUserByUuidGet !in faults && userId in byId ==>
        user == Some(CachedUser(byId[userId])) && err.None?
    {
      if FindUserByUuidGet in faults {
        return None, Some(UserRedisRepoFindUserByUUIDGet.AppendMessage(faults[FindUserByUuidGet]));
      }
      if userId !in byId {
        return None, Some(UserRedisRepoFindUserByUUIDGetDataNotFound.AppendMessage(RedisNilText));
      }
      return Some(CachedUser(byId[userId])), None;
    }

    method SetFindUserByUUID(userId: Uuid, user: Option<User>) returns (err: Option<AppError>)
      modifies this
      ensures faults == old(faults) && byNickname == old(byNickname) && byPage == old(byPage)
      ensures SetFindUserByUuidSet in faults ==>
        byId == old(byId) && err == Some(UserRedisRepoSetFindUserByUUIDSet.AppendMessage(faults[SetFindUserByUuidSet]))
      ensures SetFindUserByUuidSet !in faults ==> byId == old(byId)[userId := user] && err.None?
    {
      if SetFindUserByUuidSet in faults {
        return Some(UserRedisRepoSetFindUserByUUIDSet.AppendMessage(faults[SetFindUserByUuidSet]));
      }
      byId := byId[userId := user];
      return None;
    }

    method FindUserByNickname(nickname: string) returns (user: Option<User>, err: Option<AppError>)
      ensures FindUserByNicknameGet in faults ==>
        user.None? && err == Some(UserRedisRepoFindUserByNicknameGet.AppendMessage(faults[FindUserByNicknameGet]))
      ensures FindUserByNicknameGet !in faults && nickname !in byNickname ==>
        user.None? && err == Some(UserRedisRepoFindUserByNicknameGetDataNotFound.AppendMessage(RedisNilText))
      ensures FindUserByNicknameGet !in faults && nickname in byNickname ==>
        user == Some(CachedUser(byNickname[nickname])) && err.None?
    {
      if FindUserByNicknameGet in faults {
        return None, Some(UserRedisRepoFindUserByNicknameGet.AppendMessage(faults[FindUserByNicknameGet]));
      }
      if nickname !in byNickname {
        return None, Some(UserRedisRepoFindUserByNicknameGetDataNotFound.AppendMessage(RedisNilText));
      }
      return Some(CachedUser(byNickname[nickname])), None;
    }

    method SetFindUserByNickname(nickname: string, user: Option<User>) returns (err: Option<AppError>)
      modifies this
      ensures faults == old(faults) && byId == old(byId) && byPage == old(byPage)
      ensures SetFindUserByNicknameSet in faults ==>
        byNickname == old(byNickname)
        && err == Some(UserRedisRepoSetFindUserByNicknameSet.AppendMessage(faults[SetFindUserByNicknameSet]))
      ensures SetFindUserByNicknameSet !in faults ==> byNickname == old(byNickname)[nickname := user] && err.None?
    {
      if SetFindUserByNicknameSet in faults {
        return Some(UserRedisRepoSetFindUserByNicknameSet.AppendMessage(faults[SetFindUserByNicknameSet]));
      }
      byNickname := byNickname[nickname := user];
      return None;
    }

    method GetUsers(q: Query) returns (page: Option<Users>, err: Option<AppError>)
      ensures GetUsersGet in faults ==>
        page.None? && err == Some(UserRedisRepoGetUsersGet.AppendMessage(faults[GetUsersGet]))
      ensures GetUsersGet !in faults && q !in byPage ==>
        page.None? && err == Some(UserRedisRepoGetUsersGetDataNotFound.AppendMessage(RedisNilText))
      ensures GetUsersGet !in faults && q in byPage ==> page == Some(byPage[q]) && err.None?
    {
      if GetUsersGet in faults {
        return None, Some(UserRedisRepoGetUsersGet.AppendMessage(faults[GetUsersGet]));
      }
      if q !in byPage {
        return None, Some(UserRedisRepoGetUsersGetDataNotFound.AppendMessage(RedisNilText));
      }
      return Some(byPage[q]), None;
    }

    method SetGetUsers(q: Query, users: Users) returns (err: Option<AppError>)
      modifies this
      ensures faults == old(faults) && byId == old(byId) && byNickname == old(byNickname)
      ensures SetGetUsersSet in faults ==>
        byPage == old(byPage) && err == Some(UserRedisRepoSetGetUsersSet.AppendMessage(faults[SetGetUsersSet]))
      ensures SetGetUsersSet !in faults ==> byPage == old(byPage)[q := users] && err.None?
    {
      if SetGetUsersSet in faults {
        return Some(UserRedisRepoSetGetUsersSet.AppendMessage(faults[SetGetUsersSet]));
      }
      byPage := byPage[q := users];
      return None;
    }
  }
}
