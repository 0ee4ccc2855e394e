# usermanager, modelled in Dafny

usermanager is a Go REST service for user profiles with up- and down-votes.
Users live in PostgreSQL behind a Redis cache. Each user may cast one vote
(+1 or -1) on each other user, change it, or withdraw it. A user's rating is
the sum of the votes that user has cast: the vote queries select by
`created_user_id`, the voter's column. This project models the core of the
service and proves properties of the model:

- **the voting engine** of the usecase layer (`Vote`, `VoteUser`,
  `VoteUserWithdraw`, `FindExistVoting`, `GetLastVoteForUser`,
  `LoadVotesToUsers`). It runs over an in-memory vote store: a table of vote
  rows (a voter's `+1`/`-1` with its time) and a table of join rows
  (`user_votes`, pointing a target user at a vote). The store follows the SQL
  of the repository: filter by voter, newest first, fresh serial ids, deletes
  that fail when nothing matched. The transition table (create, same-value
  rejection, flip in place, withdraw, withdraw with nothing) is stated as
  predicates on the tables before and after. The invariant "at most one pair
  per (target, voter), and every join row points at an issued vote id" is
  proved to survive every call, whichever step fails;
- **the cache-aside user reads and user creation** (`GetUser`, `GetUserByID`,
  `GetUsers`, `GetUsersByPaginationQuery`, `GetUserByNickname`,
  `CreateUser`, `CheckUserByNickname`, `UpdateUser`, `DeleteUser`). They run
  over an abstract Redis cache (three maps) and an in-memory `users` table,
  with each step's fault supplied by the environment;
- **the user store's** error classification, the `GetUsers` page-cut loop and
  the `sql.ErrNoRows` handling of `SaveUser` and `UpdateUser`;
- **pagination**: parsing of the query strings with defaults, offsets,
  the has-more flag and the page count;
- **the domain mappers** between requests, models and responses, the
  rating sum and the grouping of votes by voter;
- **roles and permissions**, and the middleware's decisions in `hasPermission`,
  `VerifyJwtUser`, `VerifyAuthUser` and `JWTAuth`;
- **the vote handler's guard chain**: validation, the target exists, no
  self-vote, the rate interval, then dispatch;
- **`AppError`**: codes, HTTP statuses, `Error()`, `AppendMessage` and `Is`.

Files and modules:

| file | module | models |
|---|---|---|
| base.dfy | `Base` | `Option` for nil pointers, `Uuid`, time as integer nanoseconds |
| apperrors.dfy | `AppErrors` | internal/apperrors: the error type and the constants the model uses |
| entities.dfy | `Entities` | the records of internal/domain/model |
| vote_model.dfy, user_model.dfy, role.dfy | `VoteModel`, `UserModel`, `Roles` | internal/domain/model/vote.go, user.go, role.go |
| pagination.dfy | `Pagination` | internal/utils/pagination.go |
| vote_repository.dfy | `VoteStore` | internal/interface/repository/vote.go over the SQL of vote_queries.go |
| vote_pairs.dfy | `VotePairs` | the pair lookup and the pair invariant, as functions and lemmas on the tables |
| user_repository.dfy | `UserStore` | internal/interface/repository/user.go over the SQL of queries.go |
| user_cache.dfy | `UserCache` | internal/interface/repository/user_redis.go as three maps |
| user_flows.dfy | `UserFlows` | the cache-aside reads and user creation as functions, with their lemmas |
| usecase.dfy | `Usecase` | internal/usecase/usecase/user.go |
| controller.dfy | `Controller` | internal/interface/controller/vote.go and middleware.go |
| seqs.dfy | `Seqs` | generic lemmas about filtering a sequence |

How the model is built:

- A Go `(value, error)` result becomes an `Option` out-parameter with
  `err: Option<AppError>`. A runtime panic becomes a `panicked` result, or
  the `Recovered` reply (HTTP 500) in the handler.
- `AppError` keeps its code and HTTP status. Its message is a structure:
  the message it was built with, extended by each `AppendMessage` with
  either a text or a nested error. `Wrap(outer, inner)` is
  `outer.AppendMessage(inner)`.
- The stores are classes whose fields are the tables, plus a map from each
  operation to the fault it meets, if any. `time.Now()`, `uuid.New()` and
  bcrypt's answer are parameters.
- Each stateful method is proved against a function or predicate of the
  state before the call: `CastEffect`, `WithdrawEffect`, `GetUserFlow`,
  `GetUsersFlow`, `CreateUserFlow`, `CheckNicknameFlow`, `PageAnswer`. The
  lemmas beside those functions give their meaning.
- Where the code has a defect, the model does what the code does, and a
  corrected definition stands beside it with the intended property proved
  (see "## Findings"). The handler and the usecase methods use the code as
  written, because their contracts describe the running service.

## Model

| member | source | states |
|---|---|---|
| AppErrors.AppError.AppendMessage | internal/apperrors/apperros.go:74-80 | a new error with the receiver's code and HTTP status; the receiver is a value and stays as it was |
| AppErrors.Wrap | internal/apperrors/apperros.go:74-80 | appending an inner `*AppError` keeps the outer code and HTTP status |
| AppErrors.AppendMessageText | internal/apperrors/apperros.go:76 | the appended message is the old message, " : [", the details and "]" |
| AppErrors.WrapText | internal/apperrors/apperros.go:74-80 | wrapping renders exactly as appending the inner error's `Error()` text |
| AppErrors.WrapIsNotInner | internal/apperrors/apperros.go:74-80 | a wrapped error never equals the error it wraps |
| AppErrors.CodeOf | internal/apperrors/apperros.go:70-72 | the text in front of the first ':' is a prefix without ':' |
| AppErrors.CodeOfPrefix | internal/apperrors/apperros.go:70-72 | a code without ':' followed by ':' text is read back unchanged |
| AppErrors.ErrorLayout | internal/apperrors/apperros.go:70-72 | `Error()` is the code, then ": ", then the message, with the lengths adding up |
| AppErrors.AppendExtendsMessage | internal/apperrors/apperros.go:74-80 | appending strictly extends the message and keeps the old one as its prefix |
| AppErrors.ErrorNamesCode | internal/apperrors/apperros.go:70-72 | the code can be read back off the `Error()` text, so two texts with different codes come from different errors |
| AppErrors.AppendKeepsIdentity | internal/apperrors/apperros.go:74-89 | `Is` recognises an appended error exactly as it recognises the original |
| AppErrors.WrappingHidesInner | internal/apperrors/apperros.go:74-89 | after re-wrapping with another code, `Is` no longer recognises the inner error and the outer HTTP status is reported |
| AppErrors.ForeignIsNever | internal/apperrors/apperros.go:82-86 | `Is` is false for an error that is not an `*AppError` |
| AppErrors.SharedCodeIndistinguishable | internal/apperrors/model.go:6-10 | the hash-password constant and `UserRepoFindUserByUUIDGetContext` share a code, so `Is` confuses them both ways, though their HTTP statuses differ |
| Roles.GetDefaultRole | internal/domain/model/role.go:20-22 | always "user", never "admin" |
| Roles.GetRoles | internal/domain/model/role.go:24-26 | three distinct roles, the default first, admin among them |
| Roles.HasPermissionsToUpdateUserCheck | internal/domain/model/role.go:43-48 | nil iff the user is an admin; otherwise its own error with HTTP 400 |
| Roles.HasPermissionsToDeleteUserCheck | internal/domain/model/role.go:50-56 | nil iff the user is an admin; otherwise its own error with HTTP 400 |
| Roles.Can | internal/domain/model/role.go:32-41 | succeeds iff the permission is "update" or "delete" and the user is an admin; any other permission fails with `ROLE_CAN_NO_PERMISSION`; every refusal is HTTP 400 |
| Roles.ModeratorIsPlainUser | internal/domain/model/role.go:28-56 | a moderator gets exactly the answers a plain user gets |
| Roles.CanDependsOnlyOnAdmin | internal/domain/model/role.go:28-41 | `Can` depends on the role only through `IsAdmin` |
| VoteModel.MapUserAndVoteToUserVote | internal/domain/model/vote.go:28-31 | sets the target and the vote id and keeps the row id |
| VoteModel.MapVoteUserRequestToVoteModelInto | internal/domain/model/vote.go:33-36 | sets the value and the voter and keeps the vote id and the timestamp |
| VoteModel.MapVoteUserVoteToVoteUserResponse | internal/domain/model/vote.go:38-46 | vote id and value from the vote, voter from the vote's creator, target from the join row |
| VoteModel.MapVoteUserRequestToVoteModel | internal/domain/model/vote.go:48-53 | value from the request, voter from the user, vote id 0, no timestamp |
| VoteModel.MapVoteUserRequestToUserVoteModel | internal/domain/model/vote.go:55-60 | target from the request, vote id from the vote, row id 0 |
| VoteModel.FreeMapperIsReceiverOnZero | internal/domain/model/vote.go:33-53 | the free mapper equals the receiver mapper applied to a zero vote |
| VoteModel.RequestResponseRoundTrip | internal/domain/model/vote.go:38-60 | whatever ids and time the store assigns, the response names the requested target and value and the caller as voter |
| UserModel.MapCreateUserRequestToUserModel | internal/domain/model/user.go:63-72 | all eight request fields are copied, id and role included; every other field is kept |
| UserModel.MapUpdateUserRequestToUserModel | internal/domain/model/user.go:87-95 | exactly the seven editable fields are overwritten; id, creation stamp, timestamps and votes are kept |
| UserModel.MapUserModelToUserResponse | internal/domain/model/user.go:74-108 | the response carries the user's id, nickname, first and last name, email, visibility and role |
| UserModel.ResponseShowsPublicFields | internal/domain/model/user.go:74-108 | two users get the same response iff they agree on those seven fields, so password, timestamps and votes never show |
| UserModel.UpdateRoundTrip | internal/domain/model/user.go:87-108 | after an update request the response shows the request's fields under the user's own id |
| UserModel.UpdateMapperIdempotent | internal/domain/model/user.go:87-95 | applying an update twice is applying it once, and the later request wins |
| UserModel.CreateRoundTrip | internal/domain/model/user.go:63-85 | a create request comes back in the response unchanged except for the password, which is dropped |
| UserModel.RateAppend | internal/domain/model/user.go:118-123 | the rating of a concatenation is the sum of the ratings |
| UserModel.RateBounds | internal/domain/model/user.go:118-123 | with ±1 votes the rating lies between -n and n and has the parity of n |
| UserModel.RateIsBalance | internal/domain/model/user.go:118-123 | with ±1 votes the rating is up-votes minus down-votes |
| UserModel.MapUserModelToGetUserResponse | internal/domain/model/user.go:110-128 | the public fields without email and password, and as rate the sum of all vote values (0 for no votes) |
| UserModel.MapUsersToGetUsersResponse | internal/domain/model/user.go:130-140 | page and has-more are copied; every user is mapped, in order, with the count kept |
| UserModel.MapUsersToIDs | internal/domain/model/user.go:146-152 | the users' ids in input order, same length |
| UserModel.MapToVotesByUserID | internal/domain/model/user.go:154-161 | one group for each voter present and no other; each group is that voter's votes in input order |
| UserModel.VotesByAbsent | internal/domain/model/user.go:154-161 | a voter who cast nothing has an empty group |
| UserModel.VotersSnoc | internal/domain/model/user.go:154-161 | one more vote adds exactly its voter to the voter set |
| UserModel.VotesByAppend | internal/domain/model/user.go:154-161 | grouping distributes over concatenation, so each group keeps input order |
| UserModel.VotesByPartition | internal/domain/model/user.go:154-161 | a group holds only its voter's votes, and each of them as often as in the input: the groups partition the votes |
| Pagination.Atoi | internal/utils/pagination.go:76-79 | accepts exactly an optional sign followed by at least one digit; the value is that of the digits, negated after a '-' (so ≤ 0) and unchanged after a '+' (so ≥ 0) |
| Pagination.NatDigitsValue | internal/utils/pagination.go:76 | decimal digits of a natural number are a non-empty unsigned digit string that reads back as the number |
| Pagination.AtoiItoa | internal/utils/pagination.go:76 | `Atoi` reads back what `Itoa` writes, for every integer |
| Pagination.AtoiCases | internal/utils/pagination_test.go:184-189 | "2", "10" and "-1" parse; "wevw", "--1" and "" are refused |
| Pagination.SizeSetting | internal/utils/pagination.go:66-83 | "" and "0" give the default size 2; anything else succeeds iff it is a decimal, and the size is then `Atoi`'s value ("10" gives 10, "-1" gives -1, "00" gives 0) |
| Pagination.FromStringsCharacterised | internal/utils/pagination.go:18-29 | parsing fails iff a non-empty page or a size other than "" and "0" is not a decimal; on success the page is the parsed page (0 when empty), the size the parsed or default size, the ordering verbatim |
| Pagination.EmptyPageMasked | internal/utils/pagination.go:18-29 | an empty page zeroes the size, but `SetSize` runs next, so "" behaves exactly as "0" |
| Pagination.FromStringsCases | internal/utils/pagination_test.go:282-284 | ("0","0",""), ("1","0",""), ("2","0","") give size 2 and pages 0, 1, 2 |
| Pagination.ZeroSizeReachable | internal/utils/pagination.go:66-83 | the size "00" escapes the default and yields a page size of 0 |
| Pagination.OffsetPages | internal/utils/pagination.go:51-56 | pages 0 and 1 both start at row 0; each further page starts `size` rows later; the offset is never negative for a non-negative size |
| Pagination.OffsetCases | internal/utils/pagination_test.go:122-125 | offsets 0, 0, 1 and 90 for the queries of the table in pagination_test.go |
| Pagination.TruncDiv | internal/utils/pagination.go:40 | Go's truncating division; it is Euclidean division on non-negative operands |
| Pagination.GetHasMore | internal/utils/pagination.go:36-41 | false for page size 0; for a positive size and a non-negative count, true iff a whole page lies beyond `currentPage` full pages |
| Pagination.HasMoreArith | internal/utils/pagination.go:40 | `c < t / p` iff `(c + 1) * p <= t` for a positive `p` |
| Pagination.HasMoreCases | internal/utils/pagination_test.go:42-45 | the has-more answers of the table in pagination_test.go |
| Pagination.GetTotalPages | internal/utils/pagination.go:31-34 | for a positive page size, the least page count covering every row (the ceiling of count / size) |
| Pagination.TotalPagesCases | internal/utils/pagination_test.go:19-21 | (0,1)→0, (1,2)→1, (10,3)→4 |
| Pagination.PaginationQuery.constructor | internal/utils/pagination.go:19 | a zero query |
| Pagination.PaginationQuery.SetOrderBy | internal/utils/pagination.go:62-64 | stores the ordering verbatim; size and page stay |
| Pagination.PaginationQuery.SetSize | internal/utils/pagination.go:66-83 | succeeds iff `SizeSetting` does and then stores that size only; on failure the query is untouched and the `Atoi` error is returned |
| Pagination.PaginationQuery.SetPage | internal/utils/pagination.go:85-97 | "" zeroes the SIZE and keeps the page; otherwise succeeds iff a decimal, storing it as the page only; on failure the query is untouched and the `Atoi` error is returned |
| Pagination.GetPaginationFromCtx | internal/utils/pagination.go:18-29 | succeeds iff `FromStrings` does, with a fresh query holding its value; on failure no query |
| VoteStore.ListOutcomeCases | internal/interface/repository/vote.go:90-108 | a list query never reports data-not-found: it fails with its query or scan code, or returns the whole result set; no matching row is an empty list |
| VoteStore.ToVotes | internal/interface/repository/vote.go:99-106 | scanning keeps the length and maps each row in place |
| VoteStore.ToVotesAppend | internal/interface/repository/vote.go:99-106 | scanning distributes over concatenation |
| VoteStore.InsertByTimeMultiset | internal/interface/repository/vote_queries.go:10 | inserting a row adds exactly that row |
| VoteStore.InsertByTimeBelow | internal/interface/repository/vote_queries.go:10 | a common upper time bound survives the insertion |
| VoteStore.InsertByTimeOrder | internal/interface/repository/vote_queries.go:10 | insertion keeps newest-first order |
| VoteStore.NewestFirstProps | internal/interface/repository/vote_queries.go:10 | `ORDER BY created_at DESC` is a permutation of its input in newest-first order |
| VoteStore.VotesOfVotersResultExact | internal/interface/repository/vote_queries.go:10-12 | the result set holds every row of the requested voters as often as the table does and nothing else, newest first |
| VoteStore.FindVoteRow | internal/interface/repository/vote_queries.go:8 | a found row is in the table with that id; no row means no row has that id |
| VoteStore.FindUserVoteRow | internal/interface/repository/vote_queries.go:18 | a found join row is in the table with that id; no row means no row has that id |
| VoteStore.SetVoteValueTouchesOne | internal/interface/repository/vote_queries.go:6 | with unique ids the UPDATE keeps the length, changes at most one row, and of it only the value |
| VoteStore.WithVote | internal/interface/repository/vote_queries.go:4 | the vote table gains exactly the new row and the vote id sequence advances by one; the join table is untouched |
| VoteStore.WithJoin | internal/interface/repository/vote_queries.go:16 | the join table gains exactly the new row and its id sequence advances by one; the vote table is untouched |
| VoteStore.SetVoteValueKeepsValid | internal/interface/repository/vote_queries.go:6 | the UPDATE keeps every id and so the id order |
| VoteStore.RemoveVoteKeepsValid | internal/interface/repository/vote.go:178-192 | deleting by id keeps id order and bounds, and removes a row iff some row had that id |
| VoteStore.RemoveUserVoteKeepsValid | internal/interface/repository/vote.go:162-176 | deleting by id keeps id order and bounds, and removes a row iff some row had that id |
| VoteStore.VoteRepo.constructor | internal/interface/repository/vote.go:31-33 | empty tables, both id sequences at 1 |
| VoteStore.VoteRepo.SaveVote | internal/interface/repository/vote.go:35-47 | the row is stamped with `now` and inserted under the next id, which the result carries; a failing statement writes nothing; a failing id scan leaves the row and reports the error |
| VoteStore.VoteRepo.UpdateVote | internal/interface/repository/vote.go:49-58 | only the value of the row with the vote's id changes; since the UPDATE returns no row, the call never succeeds and reports data-not-found after updating |
| VoteStore.VoteRepo.UpdateVoteReturning | internal/interface/repository/vote.go:49-58 | corrected form: the same update, returning the updated row, and data-not-found only when no row had the id |
| VoteStore.VoteRepo.FindVoteByID | internal/interface/repository/vote.go:60-73 | id 0 fails with `VOTE_ID_EMPTY` before any query; a missing row is data-not-found; another failure is get-context; otherwise the row |
| VoteStore.VoteRepo.FindUserVoteByID | internal/interface/repository/vote.go:75-88 | the same shape over the join table |
| VoteStore.VoteRepo.ScanVotes | internal/interface/repository/vote.go:99-107 | the scan loop returns every row of the result set, or the scan error on the first row |
| VoteStore.VoteRepo.FindVoteByUserID | internal/interface/repository/vote.go:90-108 | exactly the voter's rows, newest first; none is an empty list, not data-not-found |
| VoteStore.VoteRepo.FindVotesByUserIDs | internal/interface/repository/vote.go:110-128 | exactly the rows of any of the voters, newest first |
| VoteStore.VoteRepo.FindUserVoteByUserID | internal/interface/repository/vote.go:130-149 | every join row whose target is the id, in table order; a scan failure reports the vote-by-user scan code |
| VoteStore.VoteRepo.SaveUserVote | internal/interface/repository/vote.go:151-160 | inserts (target, vote id) under the next join id, which the result carries; the two failure modes of `SaveVote` |
| VoteStore.VoteRepo.DeleteUserVote | internal/interface/repository/vote.go:162-176 | removes the join row with that row id; with none it fails with `EMPTY_ROWS_AFFECTED`; it reports `DELETE_VOTE` codes |
| VoteStore.VoteRepo.DeleteVote | internal/interface/repository/vote.go:178-192 | removes the vote row with that id; with none it fails with `EMPTY_ROWS_AFFECTED` |
| VotePairs.FirstIn | internal/usecase/usecase/user.go:292-298 | the inner loop: the first join row from `from` on whose vote id matches, or -1 iff there is none |
| VotePairs.FirstMatchFrom | internal/usecase/usecase/user.go:291-299 | the nested search from vote `from` on: nothing iff no remaining vote shares an id with a join row; what it finds is such a vote and join row |
| VotePairs.FirstMatchSpec | internal/usecase/usecase/user.go:276-301 | the search finds a pair iff some vote and some join row share a vote id, and what it returns is such a vote and join row |
| VotePairs.FirstMatchPrefersEarlierVote | internal/usecase/usecase/user.go:291-299 | the voter's votes are the outer loop: the result is the earliest vote with a match, with its earliest matching join row |
| VotePairs.FirstInIsFirst | internal/usecase/usecase/user.go:292-298 | the inner loop stops at the first matching join row |
| VotePairs.FirstMatchFromSkips | internal/usecase/usecase/user.go:291-299 | votes without a match are skipped |
| VotePairs.ResultRowsOfVoter | internal/interface/repository/vote_queries.go:10 | the voter's result set holds exactly the voter's rows |
| VotePairs.ExistVotingSeesPairs | internal/usecase/usecase/user.go:276-301 | over the store's two lists, the search finds nothing iff (target, voter) has no pair in the tables |
| VotePairs.ExistVotingFindsPair | internal/usecase/usecase/user.go:276-301 | what the search finds is a row cast by the voter joined to a join row of the target |
| VotePairs.FreshVoteKeepsPairs | internal/usecase/usecase/user.go:237-241 | saving a fresh vote row, whose id no join row uses yet, keeps at most one pair per (target, voter) |
| VotePairs.NewPairKeepsPairs | internal/usecase/usecase/user.go:237-250 | joining the fresh vote row to a target without a pair creates that pair and keeps at most one pair per (target, voter) |
| VotePairs.SetVoteValueKeepsPairs | internal/usecase/usecase/user.go:231-236 | changing a vote's value keeps at most one pair per (target, voter) |
| VotePairs.SetVoteValueSamePairs | internal/usecase/usecase/user.go:231-236 | changing a vote's value neither creates nor removes a pair |
| VotePairs.RevaluedFrom | internal/interface/repository/vote_queries.go:6 | every updated row comes from a row of the old table |
| VotePairs.SetVoteValueMembers | internal/interface/repository/vote_queries.go:6 | the updated table is exactly the revalued old rows |
| VotePairs.SubTablesKeepPairs | internal/usecase/usecase/user.go:254-274 | tables keeping only old rows keep at most one pair per (target, voter) |
| VotePairs.RemovalKeepsPairs | internal/usecase/usecase/user.go:259-270 | the withdraw deletes keep at most one pair per (target, voter) and every join row's vote id issued |
| VotePairs.WithdrawRemovesPair | internal/usecase/usecase/user.go:259-270 | deleting the found pair's vote row, or its join row, leaves (target, voter) without a pair |
| Usecase.Outer | internal/usecase/usecase/user.go:352-376 | a re-wrapped error takes the code and HTTP status of the dispatcher's constant; without one the error is unchanged |
| Usecase.ExistingSeesPairs | internal/usecase/usecase/user.go:276-301 | a lookup that succeeds reports a pair exactly when (target, voter) has one in the tables |
| Usecase.ExistingFound | internal/usecase/usecase/user.go:276-301 | the found pair is a vote row of the voter and a join row of the target with the same vote id |
| Usecase.CreateKeepsPairs | internal/usecase/usecase/user.go:239-251 | creating a pair where none was keeps at most one pair per (target, voter), whichever insert fails; a complete creation leaves the pair in place |
| Usecase.WithdrawKeepsPairs | internal/usecase/usecase/user.go:254-274 | deleting the found pair's rows keeps the invariant, whichever delete fails; a complete withdrawal leaves no pair |
| Usecase.CreateStopsAtVote | internal/usecase/usecase/user.go:239-244 | a failed vote insert ends the cast with the SaveVote error and at most the vote row written |
| Usecase.CreateAfterVote | internal/usecase/usecase/user.go:239-251 | after a saved vote, the join insert either fails with the SaveUserVote error or completes the pair, returning both rows |
| Usecase.WithdrawStopsAtVote | internal/usecase/usecase/user.go:259-264 | a failed vote delete ends the withdrawal with the DeleteVote error |
| Usecase.WithdrawAfterVote | internal/usecase/usecase/user.go:259-273 | after the vote row is deleted, the join delete either fails with the DeleteUserVote error (leaving the join row) or completes, returning the pair |
| Usecase.CastRewrap | internal/usecase/usecase/user.go:352-376 | on every error path of a cast nothing is returned, so `Vote` changes only the error |
| Usecase.WithdrawRewrap | internal/usecase/usecase/user.go:352-376 | the same for a withdrawal |
| Usecase.VotingExistHidden | internal/usecase/usecase/user.go:228-232 | through `Vote`, a repeated vote is reported with the dispatcher's code and HTTP 500, while VOTING_EXIST itself carries 200 |
| Usecase.LastVoteAsWritten | internal/usecase/usecase/user.go:340-350 | the lookup as written panics exactly on an empty list and otherwise returns its first vote |
| Usecase.LastVote | internal/usecase/usecase/user.go:340-350 | the corrected lookup: none exactly for an empty list, otherwise a vote of the list |
| Usecase.LastVoteAsWrittenPanics | internal/usecase/usecase/user.go:340-350 | the as-written lookup panics exactly for a voter with no vote row |
| Usecase.LastVoteIsNewest | internal/usecase/usecase/user.go:340-350 | the corrected lookup returns a vote of the voter that no vote of the voter is newer than, and none only when the voter never voted |
| Usecase.AppendVotesToUsers | internal/usecase/usecase/user.go:326-338 | the users in order, each with the votes of its group when it has one; never an error |
| Usecase.IdsOf | internal/usecase/usecase/user.go:317 | the ids of the listed users, in order |
| Usecase.WithdrawLeavesNoPair | internal/usecase/usecase/user.go:259-270 | deleting both rows of the only pair leaves (target, voter) unpaired |
| Usecase.UserUsecase.constructor | internal/usecase/usecase/user.go:49-56 | the usecase holds the user store, the vote store and the user cache; over empty vote tables it starts with the pair invariant the voting methods require |
| Usecase.EmptyTablesPairsOk | internal/usecase/usecase/user.go:49-56 | empty vote tables hold no pair, so they meet the pair invariant |
| Usecase.UserUsecase.FindExistVoting | internal/usecase/usecase/user.go:276-301 | the nested loops return the first pair of the lookup, or its wrapped error, or none; without an error, none exactly when (target, voter) has no pair |
| Usecase.UserUsecase.VoteUser | internal/usecase/usecase/user.go:223-252 | the cast transition table (failed lookup, same value, flip, create) and the pair invariant preserved |
| Usecase.UserUsecase.FlipVoting | internal/usecase/usecase/user.go:228-238 | the existing vote row takes the new value and the call reports the UPDATE's not-found error |
| Usecase.UserUsecase.CreateVoting | internal/usecase/usecase/user.go:239-251 | the vote, then the join row pointing at it, are saved; a failure stops where it happened; the invariant is kept |
| Usecase.UserUsecase.VoteUserWithdraw | internal/usecase/usecase/user.go:254-274 | the withdrawal transition; a successful one leaves (target, voter) with no pair |
| Usecase.UserUsecase.RemovePair | internal/usecase/usecase/user.go:259-273 | the vote row, then the join row, of the found pair are deleted, stopping at a failure |
| Usecase.UserUsecase.Vote | internal/usecase/usecase/user.go:352-376 | +1 and -1 cast, 0 withdraws, each with its errors re-wrapped; any other value changes nothing and is refused |
| Usecase.UserUsecase.GetLastVoteForUser | internal/usecase/usecase/user.go:340-350 | the voter's first newest-first vote, the wrapped listing error, or a panic on no votes |
| Usecase.UserUsecase.FindVotesForUser | internal/usecase/usecase/user.go:303-313 | the voter's newest-first votes, or the listing error wrapped |
| Usecase.UserUsecase.LoadVotesToUsers | internal/usecase/usecase/user.go:315-324 | one batch query; each listed user gets its own votes from the batch, or stays as it was |
| Usecase.UserUsecase.CreateUser | internal/usecase/usecase/user.go:58-84 | answer and new table are those of `CreateUserFlow` |
| Usecase.UserUsecase.UpdateUser | internal/usecase/usecase/user.go:86-93 | the store's update of the user's rows, or its error wrapped with the table unchanged |
| Usecase.UserUsecase.DeleteUser | internal/usecase/usecase/user.go:138-145 | the rows with the id are removed; an error, wrapped, when the statement fails or no row matched |
| Usecase.UserUsecase.GetUser | internal/usecase/usecase/user.go:95-122 | answer and by-id cache are those of `GetUserFlow`; the other caches are untouched |
| Usecase.UserUsecase.GetUserByID | internal/usecase/usecase/user.go:124-136 | `GetUser`, then the user's votes; it panics exactly when the user is in neither cache nor table |
| Usecase.UserUsecase.CheckUserByNickname | internal/usecase/usecase/user.go:147-160 | the answer of `CheckNicknameFlow` on the table |
| Usecase.UserUsecase.GetUserByNickname | internal/usecase/usecase/user.go:162-182 | the answer of `GetUserByNicknameFlow` on the nickname cache |
| Usecase.UserUsecase.GetUsers | internal/usecase/usecase/user.go:184-207 | answer, panic and page cache are those of `GetUsersFlow`, so a cache miss on a negative size panics; the other caches are untouched |
| Usecase.UserUsecase.GetUsersByPaginationQuery | internal/usecase/usecase/user.go:209-221 | panics exactly when `GetUsersFlow` does; otherwise the page of `GetUsersFlow` with each user given its votes from one batch, or the wrapped error |
| UserFlows.GetUserHitSkipsStore | internal/usecase/usecase/user.go:95-106 | a cache hit is answered from the cache alone, whatever the store holds, and the cache is left as it was |
| UserFlows.GetUserCoherent | internal/usecase/usecase/user.go:95-122 | after a successful read the cache holds the id and agrees with the answer; other ids are untouched; a failed read changes nothing |
| UserFlows.GetUserNilIffAbsent | internal/usecase/usecase/user.go:95-122 | nil without an error exactly when the user is in neither cache nor table and caching the nil succeeded |
| UserFlows.GetUserMissLoads | internal/usecase/usecase/user.go:107-121 | a miss answers the table's row, or nil, and caches exactly that |
| UserFlows.MissingUserReadTwice | internal/usecase/usecase/user.go:95-122 | reading a missing user twice answers nil, then the zero user, whose id is not the one asked for |
| UserFlows.GetUserIntendedIdempotent | internal/usecase/usecase/user.go:95-122 | with a decode that keeps a cached nil, a second read answers what the first did and leaves the cache as it was |
| UserFlows.NicknameMissNeverLoads | internal/usecase/usecase/user.go:162-182 | a nickname never cached cannot be found: the answer is the cache error, whatever the table holds |
| UserFlows.NicknameFoundOnlyInCache | internal/usecase/usecase/user.go:162-182 | a nickname read succeeds exactly on a cache hit, and answers the decoded cached user |
| UserFlows.GetUsersCoherent | internal/usecase/usecase/user.go:184-207 | a read panics iff a readable cache misses a negative-size query, then answering and caching nothing; otherwise exactly one of page and error; a successful read leaves the page cached under its query; a cached page is returned as it is |
| UserFlows.GetUsersMissLoads | internal/usecase/usecase/user.go:195-206 | on a miss the page answered and cached is the store's listed window for the query |
| UserFlows.CheckNicknameMeansFree | internal/usecase/usecase/user.go:147-160 | with unique nicknames, the nickname is free iff every row holding it is the user's own, and free iff no error |
| UserFlows.Prepared | internal/usecase/usecase/user.go:59-65 | the saved user differs from the given one only in its fresh id, role "user", hashed password and creation time |
| UserFlows.CreateUserSavesPrepared | internal/usecase/usecase/user.go:58-84 | a row is added iff there is no error, and it is the prepared user with no votes |
| UserFlows.CreateUserRejectsTakenNickname | internal/usecase/usecase/user.go:67-76 | a taken nickname returns its holder with USER_EXISTS and leaves the table as it was |
| UserFlows.CreateUserKeepsNicknamesUnique | internal/usecase/usecase/user.go:58-84 | creation keeps nicknames unique in the table |
| UserCache.CachedUser | internal/interface/repository/user_redis.go:49-55 | a cached user decodes to itself; a cached nil decodes to the zero user |
| UserCache.NilDoesNotRoundTrip | internal/interface/repository/user_redis.go:39-71 | setting nil and reading it back gives the zero user, with the nil id; every non-nil user round-trips |
| UserCache.NilRoundTrips | internal/interface/repository/user_redis.go:39-71 | with the corrected decode, every value round-trips and nil reads back as nil |
| UserCache.UserRedisRepo.constructor | internal/interface/repository/user_redis.go:35-37 | all three key spaces start empty |
| UserCache.UserRedisRepo.FindUserByUUID | internal/interface/repository/user_redis.go:39-56 | a Redis error, the not-found error on a missing key, or the decoded user |
| UserCache.UserRedisRepo.SetFindUserByUUID | internal/interface/repository/user_redis.go:58-71 | stores the user, nil included, under the id, or fails leaving the cache as it was; the other key spaces are untouched |
| UserCache.UserRedisRepo.FindUserByNickname | internal/interface/repository/user_redis.go:73-90 | the same classification by nickname |
| UserCache.UserRedisRepo.SetFindUserByNickname | internal/interface/repository/user_redis.go:92-105 | the same store by nickname |
| UserCache.UserRedisRepo.GetUsers | internal/interface/repository/user_redis.go:107-128 | the page cached under the query, the not-found error, or a Redis error |
| UserCache.UserRedisRepo.SetGetUsers | internal/interface/repository/user_redis.go:130-147 | stores the page under the query, or fails leaving the cache as it was |
| UserStore.Listed | internal/interface/repository/queries.go:23-25 | a listed user keeps id, nickname, role and creation time, and has no deletion time and no creator |
| UserStore.ListedAll | internal/interface/repository/queries.go:23-25 | every user of a page is listed, in order |
| UserStore.Window | internal/interface/repository/queries.go:23-25 | OFFSET and LIMIT give at most `limit` rows, and none past the end |
| UserStore.FirstWithId | internal/interface/repository/queries.go:16-17 | a found user is a row with the id; none iff no row has it |
| UserStore.FirstWithNickname | internal/interface/repository/queries.go:19-21 | a found user is a row with the nickname; none iff no row has it |
| UserStore.UpdatedRows | internal/interface/repository/queries.go:7-9 | the update is applied to each row, in order |
| UserStore.UpdateKeepsIdentity | internal/interface/repository/queries.go:7-9 | the update never touches id, role, creation or deletion; other users' rows stay; matching rows take the new columns |
| UserStore.PageCutOnWindow | internal/interface/repository/user.go:141-165 | on the fetched window the written loop keeps the page and sets HasMore iff at least `size` rows remain from the offset |
| UserStore.PageCutFlagsFullLastPage | internal/interface/repository/user.go:160-164 | with exactly `size` rows left, HasMore is set although nothing follows |
| UserStore.LookaheadCutOnWindow | internal/interface/repository/user.go:143-165 | the corrected cut keeps the same page and sets HasMore iff a row lies past it |
| UserStore.PageAnswerShape | internal/interface/repository/user.go:134-173 | panics iff the size is negative, with neither page nor error; otherwise exactly one of page and error; a page carries the query's number and, for a positive size, the listed window flagged as the loop flags it |
| UserStore.NegativeSizeQueryPanics | internal/interface/repository/user.go:141 | `?page=1&size=-1` parses to size -1, and the listing then panics whatever the table and faults |
| UserStore.ListedPrefix | internal/interface/repository/user.go:152-165 | listing commutes with taking a prefix |
| UserStore.UserRepo.constructor | internal/interface/repository/user.go:30-32 | the table starts empty |
| UserStore.UserRepo.FindUserByUUID | internal/interface/repository/user.go:34-45 | the first row with the id, the not-found error, or the query error |
| UserStore.UserRepo.FindUserByNickname | internal/interface/repository/user.go:47-57 | the same by nickname |
| UserStore.UserRepo.SaveUser | internal/interface/repository/user.go:59-81 | the user's row is appended and the user returned, since no-rows counts as success; on an error the table is unchanged |
| UserStore.UserRepo.UpdateUser | internal/interface/repository/user.go:83-101 | the rows with the id take the eight SET columns and the user comes back whether or not a row matched |
| UserStore.UserRepo.DeleteUserByUserID | internal/interface/repository/user.go:118-132 | removes the rows with the id; an error iff the statement fails, the count fails, or no row matched |
| UserStore.UserRepo.GetUsers | internal/interface/repository/user.go:134-173 | the answer of `PageAnswer` on the table: a negative size panics in `make` before the query, a negative OFFSET is rejected, faults are reported, otherwise the cut page |
| UserStore.ScanPage | internal/interface/repository/user.go:151-165 | a failing scan fails on the first row; otherwise the loop's result is the written cut |
| Controller.ValidateVoteRequest | internal/interface/controller/vote.go:27-31 | a request passes iff it names a target and a non-zero vote; a refusal is the validator's error with status 400 |
| Controller.RateLimitIsNanoseconds | internal/interface/controller/vote.go:53-56 | as written, a vote 3601 nanoseconds after the last one passes, though the intended hourly window rejects it |
| Controller.RateLimitIntendedIsAnHour | internal/interface/controller/vote.go:53-56 | the intended check rejects every vote the written one rejects, and exactly the votes less than an hour after the last |
| Controller.CastVote | internal/interface/controller/vote.go:43-58 | the vote handed to the usecase carries only the request's value and the caller's id |
| Controller.CastUserVote | internal/interface/controller/vote.go:58-59 | the join row handed to the usecase carries only the target's id |
| Controller.CastIsDispatched | internal/interface/controller/vote.go:58-66 | a cast the usecase's contract allows, under the constant for its sign, is the handler's dispatch |
| Controller.GuardedStops | internal/interface/controller/vote.go:48-56 | a failed listing, a panic of the newest-vote lookup, or a vote inside the interval answers without writing |
| Controller.GuardedDispatches | internal/interface/controller/vote.go:53-66 | a timed newest vote outside the interval lets the request through to `Vote` |
| Controller.WithdrawalFailsValidation | internal/interface/controller/vote.go:27-31 | a vote of 0 is refused by validation with 400, so the handler never withdraws |
| Controller.UserController.constructor | internal/interface/controller/user.go:38-40 | the controller holds the usecase |
| Controller.UserController.VoteUser | internal/interface/controller/vote.go:20-67 | validation, then target lookup through the cache, no self-vote, then the rate check and the usecase's `Vote`; each early exit writes no vote and the pair invariant is kept |
| Controller.UserController.Cast | internal/interface/controller/vote.go:48-66 | the rate check on the caller's newest vote, then `Vote`, as `Guarded` describes |
| Controller.HasPermissionIff | internal/interface/controller/middleware.go:39-62 | `next` runs iff the id parses and is the caller's own, or the caller is an admin asking to update or delete |
| Controller.VerifyJwtIff | internal/interface/controller/middleware.go:86-100 | token verification succeeds iff the nickname lookup finds a user with the token's role, and only then stores the user |
| Controller.RoleMismatchLooksLikeBasicAuth | internal/interface/controller/middleware.go:94-96 | as written, a role mismatch reports the basic-auth lookup code, not the role code |
| Controller.VerifyJwtIntendedNamesStep | internal/interface/controller/middleware.go:86-100 | with the role constant, the same decisions, and the code is the role code iff the role did not match |
| Controller.VerifyAuthIff | internal/interface/controller/middleware.go:102-121 | basic auth succeeds iff the user is found and bcrypt accepts the password, and only then stores the user |
| Controller.JwtAuthAdmitsInvalidToken | internal/interface/controller/middleware.go:64-80 | as written, an invalid token whose user does not verify still reaches `next`; the intended gate refuses it |
| Controller.JwtAuthIntendedIff | internal/interface/controller/middleware.go:64-80 | the intended gate runs `next` iff the token is valid and its user verifies, and otherwise refuses with 401 |
| Controller.Middleware.constructor | internal/interface/controller/user.go:38-40 | the middleware holds the usecase |
| Controller.Middleware.VerifyJwtUser | internal/interface/controller/middleware.go:86-100 | the decision of `VerifyJwtDecision` on the usecase's nickname read |
| Controller.Middleware.VerifyAuthUser | internal/interface/controller/middleware.go:102-121 | the decision of `VerifyAuthDecision` on the nickname read and bcrypt's answer |
| Controller.Middleware.JWTAuth | internal/interface/controller/middleware.go:64-80 | the written gate on the token's verification, and the user stored only when it verifies |

## Left out

- `SoftDeleteUserByUserID`: nothing in the modelled core calls it.
- `VoteRedisRepo` (internal/interface/repository/vote_redis.go): the usecase never reads it.
- Redis key layout: the shared `user:` prefix of the three key spaces is not modelled; ids, nicknames and page keys are kept apart. A nickname that spells an id, or a query's JSON, is therefore not a collision here.
- Cache TTL: eviction is not modelled; a cache is whatever map the caller starts from.
- JSON: `json.Marshal` and `json.Unmarshal` are taken to succeed, except that a cached nil decodes to the zero user. The `*_MARSHAL`, `*_UNMARSHAL` and `PREPARE_KEY` errors are never produced.
- bcrypt and JWT: the password hash, bcrypt's comparison and token validity are inputs. `HashPassword` and `ComparePasswords` are not modelled.
- `time.Now()` and `uuid.New()` are parameters. Serial ids are counters in the store.
- Users `ORDER BY created_at, updated_at` is the table's order. The model keeps rows in insertion order and does not sort them.
- Ties in the votes' `ORDER BY created_at DESC` are broken by insertion order; SQL leaves them unspecified.
- VoteStore.VoteRepo.FindUserVoteByUserID: the query has no ORDER BY, so PostgreSQL may return the target's join rows in any order; the model returns them in table order. Under the pair invariant at most one of those rows matches a vote of the voter, so the order should not change what `FindExistVoting` finds; the model does not prove this.
- Aliasing: `CreateUser` writes the caller's `*model.User` and `SaveVote` stamps the caller's `*model.Vote`. The model returns the updated value instead.
- Concurrency: one sequential caller; concurrent votes on the same pair are not modelled.
- `ctx.Bind` errors and the rest of the echo plumbing: handlers other than `VoteUser`, login, router and validator set-up. Only the `required` rule of the vote request's validation is modelled.
- The gRPC adapters: they only move fields between generated types.
- The text of a message: `fmt.Sprintf` in `AppendMessage` is modelled as a structure (prior message, then a text or a nested error), so two messages are equal when built the same way.
- `GetTotalPages` for page size 0, and its floating-point arithmetic: the model uses integer ceiling division for a positive page size.
- `strconv.Atoi` overflow: every decimal is accepted as an unbounded integer.
- Usecase.UserUsecase.GetUserByNickname: the store fallback after a nil cache answer is not modelled. The cache never answers nil without an error, so that branch cannot be reached.
- Controller.Middleware.VerifyJwtUser and Controller.Middleware.VerifyAuthUser: the nil-user branch is folded into the lookup's answer. It cannot be reached for the same reason.
- Controller.Middleware.JWTAuth: the type assertions on the token and its claims are taken to succeed; the claims are a parameter.
- Controller.UserController.Cast: requires a vote other than 0. Its only caller, `VoteUser`, has already refused 0 in validation.
- Pagination.PaginationQuery.GetSize, GetPage, GetLimit and GetOffset: field readers without a contract of their own. `GetOffset` is `Offset`, whose properties `OffsetPages` states.
- The mock and test files: their table-driven cases appear only as the `*Cases` lemmas.

## Findings

| source | as written | input that shows it | evidently intended | confidence | as-written member | corrected member |
|---|---|---|---|---|---|---|
| internal/usecase/usecase/user.go:340-350 | `GetLastVoteForUser` checks the list for nil and indexes `votes[0]`, but the store returns an empty non-nil list | a voter with no vote rows: the index panics | no vote is no last vote | high, not executed | Usecase.LastVoteAsWrittenPanics | Usecase.LastVoteIsNewest |
| internal/interface/repository/vote.go:49-58 | `UpdateVote` scans one row from an UPDATE without RETURNING | flipping an existing +1 to -1: the row is updated and the call reports DATA_NOT_FOUND | the updated row comes back | high, not executed | VoteStore.VoteRepo.UpdateVote | VoteStore.VoteRepo.UpdateVoteReturning |
| internal/interface/repository/user.go:160-164 | `HasMore` is set once `Size` rows are counted | two users, page 1 of size 2: `HasMore` is true though no row follows | `HasMore` iff the extra fetched row came back | high, not executed | UserStore.PageCutFlagsFullLastPage | UserStore.LookaheadCutOnWindow |
| internal/interface/controller/vote.go:17, 53 | `voteInterval` 3600 goes to `time.Add`, which counts nanoseconds | a second vote 3601 ns after the first passes | one vote an hour | high, not executed | Controller.RateLimitIsNanoseconds | Controller.RateLimitIntendedIsAnHour |
| internal/interface/controller/middleware.go:69-76 | `JWTAuth` builds its 401 errors and drops them, then calls `next` | an invalid token naming an unknown nickname passes `JWTAuth`; the router installs only the echojwt middleware of `SetUpJWTConfig` (internal/infrastructure/router/router.go:22), so the defect sits in a middleware that is not wired in and echojwt refuses such a token first | refuse with 401 | high, not executed | Controller.JwtAuthAdmitsInvalidToken | Controller.JwtAuthIntendedIff |
| internal/interface/repository/user_redis.go:49-55 | a cached nil user is decoded into a fresh `&model.User{}` | reading a missing id twice answers nil, then the zero user | a cached nil reads back as nil | medium, not executed | UserFlows.MissingUserReadTwice | UserFlows.GetUserIntendedIdempotent |
| internal/interface/controller/middleware.go:94-96 | a role mismatch is reported with the basic-auth constant | a user whose stored role is not the token's | the JWT role constant, which is defined and unused | medium, not executed | Controller.RoleMismatchLooksLikeBasicAuth | Controller.VerifyJwtIntendedNamesStep |

The as-written halves are `Usecase.LastVoteAsWritten`, `VoteStore.VoteRepo.UpdateVote`,
`UserStore.PageCut`, `Controller.RateLimited`, `Controller.JwtAuthGate`,
`UserCache.CachedUser` and `Controller.VerifyJwtDecision`. The corrected halves are
`Usecase.LastVote`, `VoteStore.VoteRepo.UpdateVoteReturning`, `UserStore.LookaheadCut`,
`Controller.RateLimitedIntended`, `Controller.JwtAuthGateIntended`,
`UserCache.CachedUserOrNil` and `Controller.VerifyJwtDecisionIntended`. The usecase
methods and the handler use the as-written halves, because they model the service
as it runs.
