/** The records of internal/domain/model: users, votes, the join row that
    ties a vote to the user it was cast for, and the request and response
    shapes the handlers exchange. */
module Entities {
  import opened Base

  /** A vote row: `vote` is +1, -1 (or any other int the store holds),
      `createdUserId` is the VOTER; `createdAt` is nil until the store stamps it. */
  datatype Vote = Vote(voteId: int, vote: int, createdUserId: Uuid, createdAt: Option<Time>)

  /** A join row: `userId` is the TARGET of the vote `voteId`. */
  datatype UserVote = UserVote(id: int, userId: Uuid, voteId: int)

  datatype Created = Created(createdBy: string, createdAt: Time)

  datatype User = User(
    userId: Uuid,
    nickname: string,
    firstName: string,
    lastName: string,
    email: string,
    password: string,
    isPublic: bool,
    role: string,
    created: Created,
    updatedAt: Option<Time>,
    deletedAt: Option<Time>,
    loginDate: Option<Time>,
    votes: seq<Vote>)

  /** One page of users. */
  datatype Users = Users(page: int, hasMore: bool, users: seq<User>)

  const ZeroVote: Vote := Vote(0, 0, NilUuid, None)
  const ZeroUserVote: UserVote := UserVote(0, NilUuid, 0)
  const ZeroUser: User := User(NilUuid, "", "", "", "", "", false, "", Created("", 0), None, None, None, [])

  datatype CreateUserRequest = CreateUserRequest(
    userId: Uuid, nickname: string, firstName: string, lastName: string,
    email: string, password: string, isPublic: bool, role: string)

  datatype UpdateUserRequest = UpdateUserRequest(
    nickname: string, firstName: string, lastName: string,
    email: string, password: string, isPublic: bool, role: string)

  /** `userId` is the TARGET of the vote. */
  datatype VoteUserRequest = VoteUserRequest(userId: Uuid, vote: int)

  /** The create and update responses have the same seven fields. */
  datatype UserResponse = UserResponse(
    userId: Uuid, nickname: string, firstName: string, lastName: string,
    email: string, isPublic: bool, role: string)

  datatype GetUserResponse = GetUserResponse(
    userId: Uuid, nickname: string, firstName: string, lastName: string,
    isPublic: bool, role: string, rate: int)

  datatype GetUsersResponse = GetUsersResponse(page: int, hasMore: bool, users: seq<GetUserResponse>)

  datatype VoteUserResponse = VoteUserResponse(voteId: int, voterUserId: Uuid, voteUserId: Uuid, vote: int)
}
