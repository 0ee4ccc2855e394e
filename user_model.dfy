/** The mappers and aggregations of internal/domain/model/user.go. The
    pointer-receiver request mappers return the updated user; the loops that
    sum a rating, collect ids and group votes are methods proved against the
    functions that specify them. */
module UserModel {
  import opened Base
  import opened Entities

  const UsualUser := "user"

  /** `(*User).MapCreateUserRequestToUserModel`: all eight request fields are
      copied, the id and the role included; nothing else changes. */
  function MapCreateUserRequestToUserModel(u: User, req: CreateUserRequest): (r: User)
    ensures r.userId == req.userId && r.nickname == req.nickname
    ensures r.firstName == req.firstName && r.lastName == req.lastName
    ensures r.email == req.email && r.password == req.password
    ensures r.isPublic == req.isPublic && r.role == req.role
    ensures r.created == u.created && r.updatedAt == u.updatedAt && r.deletedAt == u.deletedAt
    ensures r.loginDate == u.loginDate && r.votes == u.votes
  {
    u.(userId := req.userId, nickname := req.nickname, firstName := req.firstName,
       lastName := req.lastName, email := req.email, password := req.password,
       isPublic := req.isPublic, role := req.role)
  }

  /** `(*User).MapUpdateUserRequestToUserModel`: the seven editable fields are
      overwritten; the id, the creation stamp, the timestamps and the votes stay. */
  function MapUpdateUserRequestToUserModel(u: User, req: UpdateUserRequest): (r: User)
    ensures r.nickname == req.nickname && r.firstName == req.firstName
    ensures r.lastName == req.lastName && r.email == req.email
    ensures r.password == req.password && r.isPublic == req.isPublic && r.role == req.role
    ensures r.userId == u.userId && r.created == u.created
    ensures r.updatedAt == u.updatedAt && r.deletedAt == u.deletedAt && r.loginDate == u.loginDate
    ensures r.votes == u.votes
  {
    u.(nickname := req.nickname, firstName := req.firstName, lastName := req.lastName,
       email := req.email, password := req.password, isPublic := req.isPublic, role := req.role)
  }

  /** `MapUserModelToCreateUserResponse` and `MapUserModelToUpdateUserResponse`
      (identical bodies): the public fields, without the password. */
  function MapUserModelToUserResponse(u: User): (r: UserResponse)
    ensures r.userId == u.userId && r.nickname == u.nickname && r.role == u.role
    ensures r.firstName == u.firstName && r.lastName == u.lastName
    ensures r.email == u.email && r.isPublic == u.isPublic
  {
    UserResponse(u.userId, u.nickname, u.firstName, u.lastName, u.email, u.isPublic, u.role)
  }

  /** Two users get the same response exactly when they agree on the seven
      public fields: the password, the timestamps and the votes never show. */
  lemma ResponseShowsPublicFields(u: User, v: User)
    ensures MapUserModelToUserResponse(u) == MapUserModelToUserResponse(v) <==>
      (u.userId == v.userId && u.nickname == v.nickname && u.firstName == v.firstName
       && u.lastName == v.lastName && u.email == v.email && u.isPublic == v.isPublic && u.role == v.role)
  {
  }

  /** After an update request, the response shows the request's fields under
      the user's own id. */
  lemma UpdateRoundTrip(u: User, req: UpdateUserRequest)
    ensures MapUserModelToUserResponse(MapUpdateUserRequestToUserModel(u, req))
         == UserResponse(u.userId, req.nickname, req.firstName, req.lastName, req.email, req.isPublic, req.role)
  {
  }

  /** Applying an update request twice is the same as applying it once, and
      the latest request wins. */
  lemma UpdateMapperIdempotent(u: User, a: UpdateUserRequest, b: UpdateUserRequest)
    ensures MapUpdateUserRequestToUserModel(MapUpdateUserRequestToUserModel(u, a), a) == MapUpdateUserRequestToUserModel(u, a)
    ensures MapUpdateUserRequestToUserModel(MapUpdateUserRequestToUserModel(u, a), b) == MapUpdateUserRequestToUserModel(u, b)
  {
  }

  /** A create request survives the trip to the model and to the response,
      except for the password, which the response never carries. */
  lemma CreateRoundTrip(u: User, req: CreateUserRequest)
    ensures MapUserModelToUserResponse(MapCreateUserRequestToUserModel(u, req))
         == UserResponse(req.userId, req.nickname, req.firstName, req.lastName, req.email, req.isPublic, req.role)
  {
  }

  // ----- rating ---------------------------------------------------------

  /** Sum of the vote values, first to last. */
  function Rate(votes: seq<Vote>): int
  {
    if votes == [] then 0 else Rate(votes[..|votes| - 1]) + votes[|votes| - 1].vote
  }

  /** The rating is additive over concatenation. */
  lemma {:induction false} RateAppend(a: seq<Vote>, b: seq<Vote>)
    ensures Rate(a + b) == Rate(a) + Rate(b)
  {
    if b == [] {
      assert a + b == a;
    } else {
      assert (a + b)[..|a + b| - 1] == a + b[..|b| - 1];
      RateAppend(a, b[..|b| - 1]);
    }
  }

  /** A vote is +1 or -1 when the controller lets it through. */
  predicate AllUnit(votes: seq<Vote>)
  {
    forall i :: 0 <= i < |votes| ==> votes[i].vote == 1 || votes[i].vote == -1
  }

  /** With unit votes the rating stays within the number of votes and has the
      same parity. */
  lemma {:induction false} RateBounds(votes: seq<Vote>)
    requires AllUnit(votes)
    ensures -|votes| <= Rate(votes) <= |votes|
    ensures (Rate(votes) + |votes|) % 2 == 0
  {
    if votes != [] {
      var init := votes[..|votes| - 1];
      assert AllUnit(init) by {
        forall i | 0 <= i < |init| ensures init[i].vote == 1 || init[i].vote == -1 {
          assert init[i] == votes[i];
        }
      }
      RateBounds(init);
    }
  }

  /** Number of votes with the given value. */
  function CountValue(votes: seq<Vote>, value: int): nat
  {
    if votes == [] then 0
    else CountValue(votes[..|votes| - 1], value) + (if votes[|votes| - 1].vote == value then 1 else 0)
  }

  /** With unit votes the rating is the up-votes minus the down-votes. */
  lemma {:induction false} RateIsBalance(votes: seq<Vote>)
    requires AllUnit(votes)
    ensures Rate(votes) == CountValue(votes, 1) - CountValue(votes, -1)
  {
    if votes != [] {
      var init := votes[..|votes| - 1];
      assert AllUnit(init) by {
        forall i | 0 <= i < |init| ensures init[i].vote == 1 || init[i].vote == -1 {
          assert init[i] == votes[i];
        }
      }
      RateIsBalance(init);
    }
  }

  /** The get-user response: the public fields without email and password,
      and the rating of the attached votes. */
  function GetUserResponseOf(u: User): GetUserResponse
  {
    GetUserResponse(u.userId, u.nickname, u.firstName, u.lastName, u.isPublic, u.role, Rate(u.votes))
  }

  /** `(*User).MapUserModelToGetUserResponse`: the rate loop sums every vote;
      with no votes the rate is 0. */
  method MapUserModelToGetUserResponse(u: User) returns (r: GetUserResponse)
    ensures r == GetUserResponseOf(u)
    ensures u.votes == [] ==> r.rate == 0
  {
    r := GetUserResponse(u.userId, u.nickname, u.firstName, u.lastName, u.isPublic, u.role, 0);
    if |u.votes| > 0 {
      var rate := 0;
      var i := 0;
      while i < |u.votes|
        invariant 0 <= i <= |u.votes|
        invariant rate == Rate(u.votes[..i])
      {
        assert u.votes[..i + 1][..i] == u.votes[..i];
        rate := rate + u.votes[i].vote;
        i := i + 1;
      }
      assert u.votes[..|u.votes|] == u.votes;
      r := r.(rate := rate);
    } else {
      r := r.(rate := 0);
    }
  }

  /** `(*Users).MapUserModelToGetUserResponse`: page and has-more are copied
      and every user is mapped, in order. */
  method MapUsersToGetUsersResponse(us: Users) returns (r: GetUsersResponse)
    ensures r.page == us.page && r.hasMore == us.hasMore
    ensures |r.users| == |us.users|
    ensures forall i :: 0 <= i < |us.users| ==> r.users[i] == GetUserResponseOf(us.users[i])
  {
    var usersResponse: seq<GetUserResponse> := [];
    var i := 0;
    while i < |us.users|
      invariant 0 <= i <= |us.users|
      invariant |usersResponse| == i
      invariant forall k :: 0 <= k < i ==> usersResponse[k] == GetUserResponseOf(us.users[k])
    {
      var one := MapUserModelToGetUserResponse(us.users[i]);
      usersResponse := usersResponse + [one];
      i := i + 1;
    }
    r := GetUsersResponse(us.page, us.hasMore, usersResponse);
  }

  // ----- ids and grouping -----------------------------------------------

  /** `MapUsersToIDs`: the users' ids in input order. */
  method MapUsersToIDs(users: Users) returns (ids: seq<Uuid>)
    ensures |ids| == |users.users|
    ensures forall i :: 0 <= i < |ids| ==> ids[i] == users.users[i].userId
  {
    ids := [];
    var i := 0;
    while i < |users.users|
      invariant 0 <= i <= |users.users|
      invariant |ids| == i
      invariant forall k :: 0 <= k < i ==> ids[k] == users.users[k].userId
    {
      ids := ids + [users.users[i].userId];
      i := i + 1;
    }
  }

  /** The votes cast by `voter`, in input order. */
  function VotesBy(votes: seq<Vote>, voter: Uuid): seq<Vote>
  {
    if votes == [] then []
    else VotesBy(votes[..|votes| - 1], voter)
         + (if votes[|votes| - 1].createdUserId == voter then [votes[|votes| - 1]] else [])
  }

  /** The set of voters that occur in `votes`. */
  function Voters(votes: seq<Vote>): set<Uuid>
  {
    set v | v in votes :: v.createdUserId
  }

  lemma {:induction false} VotesByAbsent(votes: seq<Vote>, voter: Uuid)
    requires voter !in Voters(votes)
    ensures VotesBy(votes, voter) == []
  {
    if votes != [] {
      var init := votes[..|votes| - 1];
      assert votes[|votes| - 1] in votes;
      assert Voters(init) <= Voters(votes) by {
        forall v | v in init ensures v in votes { }
      }
      VotesByAbsent(init, voter);
    }
  }

  /** Voters of a sequence extended by one vote. */
  lemma VotersSnoc(votes: seq<Vote>, v: Vote)
    ensures Voters(votes + [v]) == Voters(votes) + {v.createdUserId}
  {
    forall x | x in votes + [v] ensures x in votes || x == v { }
  }

  /** `MapToVotesByUserID`: one group per voter present, each group the votes
      of that voter in input order. */
  method MapToVotesByUserID(votes: seq<Vote>) returns (m: map<Uuid, seq<Vote>>)
    ensures m.Keys == Voters(votes)
    ensures forall voter :: voter in m ==> m[voter] == VotesBy(votes, voter)
  {
    m := map[];
    var i := 0;
    while i < |votes|
      invariant 0 <= i <= |votes|
      invariant m.Keys == Voters(votes[..i])
      invariant forall voter :: voter in m ==> m[voter] == VotesBy(votes[..i], voter)
    {
      var v := votes[i];
      assert votes[..i + 1] == votes[..i] + [v];
      assert votes[..i + 1][..i] == votes[..i];
      VotersSnoc(votes[..i], v);
      if v.createdUserId !in m {
        VotesByAbsent(votes[..i], v.createdUserId);
      }
      var group := if v.createdUserId in m then m[v.createdUserId] else [];
      m := m[v.createdUserId := group + [v]];
      i := i + 1;
    }
    assert votes[..|votes|] == votes;
  }

  /** Grouping distributes over concatenation, so each group keeps input order. */
  lemma {:induction false} VotesByAppend(a: seq<Vote>, b: seq<Vote>, voter: Uuid)
    ensures VotesBy(a + b, voter) == VotesBy(a, voter) + VotesBy(b, voter)
  {
    if b == [] {
      assert a + b == a;
    } else {
      assert (a + b)[..|a + b| - 1] == a + b[..|b| - 1];
      VotesByAppend(a, b[..|b| - 1], voter);
    }
  }

  /** Every vote lands in its voter's group exactly as often as it occurs, and
      a group holds only that voter's votes: the groups partition the input. */
  lemma {:induction false} VotesByPartition(votes: seq<Vote>, voter: Uuid)
    ensures forall w :: w in VotesBy(votes, voter) ==> w.createdUserId == voter
    ensures forall w: Vote :: w.createdUserId == voter ==> multiset(VotesBy(votes, voter))[w] == multiset(votes)[w]
  {
    if votes != [] {
      var init := votes[..|votes| - 1];
      assert votes == init + [votes[|votes| - 1]];
      VotesByPartition(init, voter);
    }
  }
}
