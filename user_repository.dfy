/** The user store of internal/interface/repository/user.go over an
    in-memory `users` table in insertion order, following the SQL of
    queries.go. Failures are injected per operation through `faults`. */
module UserStore {
  import opened Base
  import opened AppErrors
  import opened Entities
  import opened Seqs
  import opened Pagination

  datatype Fault = StatementFault(cause: string) | ResultFault(cause: string)

  datatype UserOp =
    | FindUserByUuidOp | FindUserByNicknameOp | SaveUserOp | UpdateUserOp
    | DeleteUserByUserIdOp | GetUsersOp | GetUsersRowsOp

  /** What PostgreSQL answers to a negative OFFSET. */
  const NegativeOffsetText := "OFFSET must not be negative"

  /** A row of `users` holds every column of a user but no votes. */
  function Stored(u: User): User
  {
    u.(votes := [])
  }

  /** `getUsers` selects neither `deleted_at` nor `created_by`, so the
      scanned user keeps their zero values. */
  function Listed(u: User): (r: User)
    ensures r.userId == u.userId && r.nickname == u.nickname && r.role == u.role
    ensures r.deletedAt.None? && r.created.createdBy == "" && r.created.createdAt == u.created.createdAt
  {
    u.(deletedAt := None, created := Created("", u.created.createdAt))
  }

  function ListedAll(us: seq<User>): (rs: seq<User>)
    ensures |rs| == |us| && forall i :: 0 <= i < |us| ==> rs[i] == Listed(us[i])
  {
    if us == [] then [] else [Listed(us[0])] + ListedAll(us[1..])
  }

  function Min(a: int, b: int): int { if a <= b then a else b }

  /** `OFFSET offset LIMIT limit` over the table order. */
  function Window(us: seq<User>, offset: nat, limit: nat): (w: seq<User>)
    ensures |w| == Min(limit, if offset <= |us| then |us| - offset else 0)
  {
    us[Min(offset, |us|)..Min(offset + limit, |us|)]
  }

  /** The first row with that id (`GetContext` reads the first row). */
  function FirstWithId(us: seq<User>, id: Uuid): (r: Option<User>)
    ensures r.Some? ==> r.value in us && r.value.userId == id
    ensures r.None? <==> forall i :: 0 <= i < |us| ==> us[i].userId != id
  {
    if us == [] then None else if us[0].userId == id then Some(us[0]) else FirstWithId(us[1..], id)
  }

  function FirstWithNickname(us: seq<User>, nickname: string): (r: Option<User>)
    ensures r.Some? ==> r.value in us && r.value.nickname == nickname
    ensures r.None? <==> forall i :: 0 <= i < |us| ==> us[i].nickname != nickname
  {
    if us == [] then None else if us[0].nickname == nickname then Some(us[0]) else FirstWithNickname(us[1..], nickname)
  }

  /** `updateUser` on one row: the eight SET columns, when the id matches. */
  function UpdatedRow(row: User, u: User): User
  {
    if row.userId == u.userId then
      row.(nickname := u.nickname, firstName := u.firstName, lastName := u.lastName,
           email := u.email, password := u.password, isPublic := u.isPublic,
           updatedAt := u.updatedAt, loginDate := u.loginDate)
    else row
  }

  function UpdatedRows(us: seq<User>, u: User): (rs: seq<User>)
    ensures |rs| == |us| && forall i :: 0 <= i < |us| ==> rs[i] == UpdatedRow(us[i], u)
  {
    if us == [] then [] else [UpdatedRow(us[0], u)] + UpdatedRows(us[1..], u)
  }

  /** The update never touches the id, the role, the creation record or the
      deletion time, and leaves rows of other users as they were. */
  lemma UpdateKeepsIdentity(us: seq<User>, u: User)
    ensures forall i :: 0 <= i < |us| ==>
      UpdatedRows(us, u)[i].userId == us[i].userId && UpdatedRows(us, u)[i].role == us[i].role
      && UpdatedRows(us, u)[i].created == us[i].created && UpdatedRows(us, u)[i].deletedAt == us[i].deletedAt
    ensures forall i :: 0 <= i < |us| && us[i].userId != u.userId ==> UpdatedRows(us, u)[i] == us[i]
    ensures forall i :: 0 <= i < |us| && us[i].userId == u.userId ==>
      UpdatedRows(us, u)[i].nickname == u.nickname && UpdatedRows(us, u)[i].password == u.password
      && UpdatedRows(us, u)[i].email == u.email && UpdatedRows(us, u)[i].loginDate == u.loginDate
  {
  }

  function RemoveUser(us: seq<User>, id: Uuid): seq<User>
  {
    Keep(us, (u: User) => u.userId != id)
  }

  // ----- the page cut of GetUsers -------------------------------------

  /** What the scan loop keeps of the fetched rows, and the flag it sets. */
  datatype Cut = Cut(kept: seq<User>, hasMore: bool)

  /** The loop as written: it stops with `HasMore` set as soon as it has
      counted `size` rows; a size of zero or less is never reached. */
  function PageCut(rows: seq<User>, size: int): Cut
  {
    if 0 < size <= |rows| then Cut(rows[..size], true) else Cut(rows, false)
  }

  /** The cut the extra fetched row is there for: `HasMore` iff the row
      past the page came back. */
  function LookaheadCut(rows: seq<User>, size: int): Cut
  {
    if 0 <= size < |rows| then Cut(rows[..size], true) else Cut(rows, false)
  }

  /** On the window `GetUsers` fetches (limit `size + 1`), the written cut
      keeps the page and sets `HasMore` iff at least `size` rows remain from
      the offset on; for size 0 it keeps the one fetched row, if any. */
  lemma PageCutOnWindow(us: seq<User>, offset: nat, size: int)
    requires size >= 0
    ensures var c := PageCut(Window(us, offset, size + 1), size);
      (size > 0 ==> c.kept == Window(us, offset, size) && (c.hasMore <==> offset + size <= |us|))
      && (size == 0 ==> c.kept == Window(us, offset, 1) && !c.hasMore)
  {
    var w := Window(us, offset, size + 1);
    if 0 < size <= |w| {
      assert w[..size] == Window(us, offset, size);
    }
  }

  /** The written flag is set when exactly `size` rows remain: the page is
      full but nothing follows it. */
  lemma PageCutFlagsFullLastPage()
    ensures var us := [ZeroUser, ZeroUser];
      PageCut(Window(us, 0, 3), 2).hasMore && |us| <= 0 + 2
  {
  }

  /** The lookahead cut keeps the same page and sets `HasMore` iff some row
      lies past it. */
  lemma LookaheadCutOnWindow(us: seq<User>, offset: nat, size: int)
    requires size >= 0
    ensures var c := LookaheadCut(Window(us, offset, size + 1), size);
      c.kept == Window(us, offset, size) && (c.hasMore <==> offset + size < |us|)
  {
  }

  /** A result of a store call: a value or an error. */
  datatype Answer<T> = Answer(value: Option<T>, err: Option<AppError>)

  /** A result of `GetUsers`: a page or an error, or a panic (with neither). */
  datatype PageResult = PageResult(value: Option<Users>, err: Option<AppError>, panicked: bool)

  /** What `GetUsers(q)` answers on the table `us`: a negative size panics
      in `make` before any query, PostgreSQL rejects a negative OFFSET, a
      failing query or a failing first scan aborts, an iteration error
      aborts, and otherwise the page is cut from the `size + 1` rows
      fetched at the offset. */
  function PageAnswer(us: seq<User>, f: Option<Fault>, rowsFault: Option<Fault>, q: Query): PageResult
  {
    if q.size < 0 then PageResult(None, None, true)
    else if Offset(q) < 0 then PageResult(None, Some(UserRepoGetUsersQueryxContext.AppendMessage(NegativeOffsetText)), false)
    else
      var rows := ListedAll(Window(us, Offset(q), q.size + 1));
      match f
      case Some(StatementFault(cause)) => PageResult(None, Some(UserRepoGetUsersQueryxContext.AppendMessage(cause)), false)
      case Some(ResultFault(_)) | None =>
        if f.Some? && rows != [] then PageResult(None, Some(UserRepoGetUsersStructScan.AppendMessage(f.value.cause)), false)
        else if rowsFault.Some? then PageResult(None, Some(UserRepoGetUsersRows.AppendMessage(rowsFault.value.cause)), false)
        else
          var cut := PageCut(rows, q.size);
          PageResult(Some(Users(q.page, cut.hasMore, cut.kept)), None, false)
  }

  /** A negative size panics, with neither page nor error; otherwise exactly
      one of page and error comes back. A page carries the query's page
      number, and for a positive size holds the listed window of `size`
      rows at the offset, flagged as the written loop flags it. */
  lemma PageAnswerShape(us: seq<User>, f: Option<Fault>, rowsFault: Option<Fault>, q: Query)
    ensures var a := PageAnswer(us, f, rowsFault, q);
      (a.panicked <==> q.size < 0)
      && (a.panicked ==> a.value.None? && a.err.None?)
      && (!a.panicked ==> (a.value.Some? <==> a.err.None?))
      && (f.None? && rowsFault.None? && Offset(q) >= 0 && q.size >= 0 ==> a.value.Some?)
      && (a.value.Some? ==>
            Offset(q) >= 0 && q.size >= 0 && rowsFault.None? && a.value.value.page == q.page
            && (q.size > 0 ==>
                  a.value.value.users == ListedAll(Window(us, Offset(q), q.size))
                  && (a.value.value.hasMore <==> Offset(q) + q.size <= |us|)))
  {
    var a := PageAnswer(us, f, rowsFault, q);
    if a.value.Some? && q.size > 0 {
      var w := Window(us, Offset(q), q.size + 1);
      PageCutOnWindow(us, Offset(q), q.size);
      if q.size <= |w| {
        ListedPrefix(w, q.size);
        assert w[..q.size] == Window(us, Offset(q), q.size);
      } else {
        assert w == Window(us, Offset(q), q.size);
      }
    }
  }

  /** `?page=1&size=-1` parses, and the listing then panics whatever the
      table and the injected faults. */
  lemma NegativeSizeQueryPanics(us: seq<User>, f: Option<Fault>, rowsFault: Option<Fault>)
    ensures FromStrings("1", "-1", "") == Some(Query(-1, 1, ""))
    ensures var a := PageAnswer(us, f, rowsFault, Query(-1, 1, "")); a.panicked && a.value.None? && a.err.None?
  {
  }

  /** Listing commutes with taking a prefix. */
  lemma ListedPrefix(us: seq<User>, n: nat)
    requires n <= |us|
    ensures ListedAll(us)[..n] == ListedAll(us[..n])
  {
  }

  class UserRepo {
    var users: seq<User>
    var faults: map<UserOp, Fault>

    constructor (faults: map<UserOp, Fault>)
      ensures users == [] && this.faults == faults
    {
      users := [];
      this.faults := faults;
    }

    function FaultOf(op: UserOp): Option<Fault>
      reads this
    {
      if op in faults then Some(faults[op]) else None
    }

    /** `FindUserByUUID`: the row with that id; no row is data-not-found,
        any other failure a get-context error. */
    method FindUserByUUID(userId: Uuid) returns (user: Option<User>, err: Option<AppError>)
      ensures FaultOf(FindUserByUuidOp).Some? ==>
        user.None? && err == Some(UserRepoFindUserByUUIDGetContext.AppendMessage(FaultOf(FindUserByUuidOp).value.cause))
      ensures FaultOf(FindUserByUuidOp).None? && FirstWithId(users, userId).None? ==>
        user.None? && err == Some(UserRepoFindUserByUUIDGetDataNotFound.AppendMessage(NoRowsText))
      ensures FaultOf(FindUserByUuidOp).None? && FirstWithId(users, userId).Some? ==>
        user == FirstWithId(users, userId) && err.None?
    {
      var f := FaultOf(FindUserByUuidOp);
      if f.Some? {
        return None, Some(UserRepoFindUserByUUIDGetContext.AppendMessage(f.value.cause));
      }
      var row := FirstWithId(users, userId);
      if row.None? {
        return None, Some(UserRepoFindUserByUUIDGetDataNotFound.AppendMessage(NoRowsText));
      }
      return row, None;
    }

    /** `FindUserByNickname`: the same classification by nickname. */
    method FindUserByNickname(nickname: string) returns (user: Option<User>, err: Option<AppError>)
      ensures FaultOf(FindUserByNicknameOp).Some? ==>
        user.None? && err == Some(UserRepoFindUserByNicknameGetContext.AppendMessage(FaultOf(FindUserByNicknameOp).value.cause))
      ensures FaultOf(FindUserByNicknameOp).None? && FirstWithNickname(users, nickname).None? ==>
        user.None? && err == Some(UserRepoFindUserByNicknameGetDataNotFound.AppendMessage(NoRowsText))
      ensures FaultOf(FindUserByNicknameOp).None? && FirstWithNickname(users, nickname).Some? ==>
        user == FirstWithNickname(users, nickname) && err.None?
    {
      var f := FaultOf(FindUserByNicknameOp);
      if f.Some? {
        return None, Some(UserRepoFindUserByNicknameGetContext.AppendMessage(f.value.cause));
      }
      var row := FirstWithNickname(users, nickname);
      if row.None? {
        return None, Some(UserRepoFindUserByNicknameGetDataNotFound.AppendMessage(NoRowsText));
      }
      return row, None;
    }

    /** `SaveUser`: the INSERT returns no row, so `sql.ErrNoRows` is its
        success, and the caller's user comes back as it was given. */
    method SaveUser(user: User) returns (saved: Option<User>, err: Option<AppError>)
      modifies this
      ensures faults == old(faults)
      ensures FaultOf(SaveUserOp).Some? ==>
        users == old(users) && saved.None?
        && err == Some(UserRepoSaveUserQueryRowxContext.AppendMessage(FaultOf(SaveUserOp).value.cause))
      ensures FaultOf(SaveUserOp).None? ==>
        users == old(users) + [Stored(user)] && saved == Some(user) && err.None?
    {
      var f := FaultOf(SaveUserOp);
      if f.Some? {
        return None, Some(UserRepoSaveUserQueryRowxContext.AppendMessage(f.value.cause));
      }
      users := users + [Stored(user)];
      return Some(user), None;
    }

    /** `UpdateUser`: overwrites the eight SET columns of the rows with the
        user's id and returns the caller's user, whether or not a row
        matched. */
    method UpdateUser(user: User) returns (updated: Option<User>, err: Option<AppError>)
      modifies this
      ensures faults == old(faults)
      ensures FaultOf(UpdateUserOp).Some? ==>
        users == old(users) && updated.None?
        && err == Some(UserRepoUpdateUserQueryRowxContext.AppendMessage(FaultOf(UpdateUserOp).value.cause))
      ensures FaultOf(UpdateUserOp).None? ==>
        users == UpdatedRows(old(users), user) && updated == Some(user) && err.None?
    {
      var f := FaultOf(UpdateUserOp);
      if f.Some? {
        return None, Some(UserRepoUpdateUserQueryRowxContext.AppendMessage(f.value.cause));
      }
      users := UpdatedRows(users, user);
      return Some(user), None;
    }

    /** `DeleteUserByUserID`: removes the rows with that id and fails with
        empty-rows-affected when there were none. */
    method DeleteUserByUserID(userId: Uuid) returns (err: Option<AppError>)
      modifies this
      ensures faults == old(faults)
      ensures match FaultOf(DeleteUserByUserIdOp)
        case Some(StatementFault(cause)) =>
          users == old(users) && err == Some(UserRepoDeleteUserByUserIDExecContext.AppendMessage(cause))
        case Some(ResultFault(cause)) =>
          users == RemoveUser(old(users), userId) && err == Some(UserRepoDeleteUserByUserIDRowsAffected.AppendMessage(cause))
        case None =>
          users == RemoveUser(old(users), userId)
          && (err.None? <==> exists i :: 0 <= i < |old(users)| && old(users)[i].userId == userId)
          && (err.Some? ==> err == Some(UserRepoDeleteUserByUserIDEmptyRowsAffected.AppendMessage(NilText)))
    {
      var f := FaultOf(DeleteUserByUserIdOp);
      if f.Some? && f.value.StatementFault? {
        return Some(UserRepoDeleteUserByUserIDExecContext.AppendMessage(f.value.cause));
      }
      var before := |users|;
      KeepShorter(users, (u: User) => u.userId != userId);
      users := RemoveUser(users, userId);
      var rowsAffected := before - |users|;
      if f.Some? {
        return Some(UserRepoDeleteUserByUserIDRowsAffected.AppendMessage(f.value.cause));
      }
      if rowsAffected == 0 {
        return Some(UserRepoDeleteUserByUserIDEmptyRowsAffected.AppendMessage(NilText));
      }
      return None;
    }

    /** `GetUsers`: allocates a list with capacity `size` (a negative
        capacity panics), fetches `size + 1` rows from the page's offset,
        scans them one by one and stops once `size` rows are counted. The
        page number is copied from the query. */
    method GetUsers(q: Query) returns (page: Option<Users>, err: Option<AppError>, panicked: bool)
      ensures PageResult(page, err, panicked) == PageAnswer(users, FaultOf(GetUsersOp), FaultOf(GetUsersRowsOp), q)
    {
      if q.size < 0 {
        return None, None, true;
      }
      var offset := Offset(q);
      if offset < 0 {
        return None, Some(UserRepoGetUsersQueryxContext.AppendMessage(NegativeOffsetText)), false;
      }
      var queryLimit := q.size + 1;
      var f := FaultOf(GetUsersOp);
      if f.Some? && f.value.StatementFault? {
        return None, Some(UserRepoGetUsersQueryxContext.AppendMessage(f.value.cause)), false;
      }
      var rows := ListedAll(Window(users, offset, queryLimit));
      var cut, scanErr := ScanPage(rows, q.size, f.Some?, if f.Some? then f.value.cause else "");
      if scanErr.Some? {
        return None, scanErr, false;
      }
      var rf := FaultOf(GetUsersRowsOp);
      if rf.Some? {
        return None, Some(UserRepoGetUsersRows.AppendMessage(rf.value.cause)), false;
      }
      return Some(Users(q.page, cut.hasMore, cut.kept)), None, false;
    }
  }

  /** The scan loop of `GetUsers`: appends each fetched row and stops with
      `HasMore` set when the counter reaches `usersLimit`; a failing scan
      fails on the first row. */
  method ScanPage(rows: seq<User>, usersLimit: int, scanFails: bool, cause: string)
    returns (cut: Cut, err: Option<AppError>)
    ensures scanFails && rows != [] ==> err == Some(UserRepoGetUsersStructScan.AppendMessage(cause))
    ensures !(scanFails && rows != []) ==> err.None? && cut == PageCut(rows, usersLimit)
  {
    var list: seq<User> := [];
    var hasMore := false;
    var userCounter := 0;
    var i := 0;
    while i < |rows|
      invariant 0 <= i <= |rows| && userCounter == i
      invariant list == rows[..i]
      invariant 0 < usersLimit ==> i < usersLimit
      invariant scanFails ==> i == 0
    {
      if scanFails {
        return Cut([], false), Some(UserRepoGetUsersStructScan.AppendMessage(cause));
      }
      list := list + [rows[i]];
      userCounter := userCounter + 1;
      i := i + 1;
      if userCounter == usersLimit {
        hasMore := true;
        break;
      }
    }
    if !hasMore {
      assert list == rows;
    }
    return Cut(list, hasMore), None;
  }
}
