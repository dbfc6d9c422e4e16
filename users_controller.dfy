/**
 * `UsersController`: the read endpoints strip the password from every user they return, and
 * the write endpoints let a caller change or delete only their own account.
 */
module UsersController {
  import opened Wrappers
  import opened Http
  import opened Calendar
  import opened Users
  import JwtStrategy

  /**
   * What `update` answers once the service has run, as written: destructuring the `undefined`
   * the service returns for a vanished user throws a `TypeError`, which the framework reports
   * as an internal error.
   */
  function UpdateResponseAsWritten(updated: Option<User>): (r: Result<PublicUser, HttpError>)
    ensures r.Success? <==> updated.Some?
    ensures updated.Some? ==> r.value == Strip(updated.value)
  {
    if updated.None? then Failure(HttpError(InternalServerError, "Internal server error"))
    else Success(Strip(updated.value))
  }

  /** A caller whose account is gone gets a 500 from `update` as written. */
  lemma AsWrittenUpdateOfMissingUserFails500()
    ensures UpdateResponseAsWritten(None) == Failure(HttpError(InternalServerError, "Internal server error"))
  {
  }

  /** What `update` answers once the service has run, corrected: a vanished user is a 404 like in `getProfile`. */
  function UpdateResponse(updated: Option<User>): (r: Result<PublicUser, HttpError>)
    ensures r.Success? <==> updated.Some?
    ensures updated.Some? ==> r.value == Strip(updated.value)
    ensures updated.None? ==> r.error.status == NotFound
  {
    if updated.None? then Failure(HttpError(NotFound, "User not found")) else Success(Strip(updated.value))
  }

  class UsersController {
    const usersService: UsersService

    constructor (usersService: UsersService)
      ensures this.usersService == usersService
    {
      this.usersService := usersService;
    }

    /** `findAll`: one entry per stored user, in order, each the user minus the password. */
    function FindAll(): (r: seq<PublicUser>)
      reads usersService
      ensures |r| == |usersService.users|
      ensures forall i :: 0 <= i < |r| ==>
                WithPassword(r[i], usersService.users[i].usersPassword) == usersService.users[i]
    {
      seq(|usersService.users|, i requires 0 <= i < |usersService.users| reads usersService => Strip(usersService.users[i]))
    }

    /** `findOne`: the user minus the password, or a 404 naming the id. */
    function FindOne(id: string): (r: Result<PublicUser, HttpError>)
      reads usersService
      ensures r.Failure? <==> forall k :: 0 <= k < |usersService.users| ==> usersService.users[k].userId != id
      ensures r.Failure? ==> r.error == HttpError(NotFound, "User with ID " + id + " not found")
      ensures r.Success? ==> r.value.userId == id
                             && exists u :: u in usersService.users && r.value == Strip(u)
    {
      match usersService.FindOne(id)
      case None => Failure(HttpError(NotFound, "User with ID " + id + " not found"))
      case Some(u) => Success(Strip(u))
    }

    /** `getProfile`: the caller's own record minus the password, or a 404. */
    function GetProfile(caller: JwtStrategy.Claims): (r: Result<PublicUser, HttpError>)
      reads usersService
      ensures r.Failure? <==> forall k :: 0 <= k < |usersService.users| ==> usersService.users[k].userId != caller.userId
      ensures r.Failure? ==> r.error == HttpError(NotFound, "User not found")
      ensures r.Success? ==> r.value.userId == caller.userId
                             && exists u :: u in usersService.users && r.value == Strip(u)
    {
      match usersService.FindOne(caller.userId)
      case None => Failure(HttpError(NotFound, "User not found"))
      case Some(u) => Success(Strip(u))
    }

    /**
     * `update`: a 404, and no change, when the caller is not the target; otherwise the service's
     * update, answered without the password, and a 500 when the caller's own record is gone.
     */
    method Update(id: string, dto: UpdateUserDto, caller: JwtStrategy.Claims, now: int, today: Date)
      returns (r: Result<PublicUser, HttpError>)
      modifies usersService
      ensures caller.userId != id ==>
                r == Failure(HttpError(NotFound, "You can only update your own profile"))
                && usersService.users == old(usersService.users)
      ensures caller.userId == id ==>
                var k := Seqs.FindIndex(old(usersService.users), HasId(id));
                if k < 0 then r == Failure(HttpError(InternalServerError, "Internal server error"))
                              && usersService.users == old(usersService.users)
                else var updated := ApplyUpdateAsWritten(old(usersService.users)[k], dto, now, today);
                     r == Success(Strip(updated)) && usersService.users == old(usersService.users)[k := updated]
    {
      if caller.userId != id {
        return Failure(HttpError(NotFound, "You can only update your own profile"));
      }
      var updated := usersService.Update(id, dto, now, today);
      r := UpdateResponseAsWritten(updated);
    }

    /**
     * `remove`: a 404, and no change, when the caller is not the target; otherwise the service
     * removes the account and the answer is the same whether or not it existed.
     */
    method Remove(id: string, caller: JwtStrategy.Claims) returns (r: Result<string, HttpError>)
      modifies usersService
      ensures caller.userId != id ==>
                r == Failure(HttpError(NotFound, "You can only delete your own account"))
                && usersService.users == old(usersService.users)
      ensures caller.userId == id ==>
                var k := Seqs.FindIndex(old(usersService.users), HasId(id));
                r == Success("User deleted successfully")
                && usersService.users == if k < 0 then old(usersService.users) else Seqs.RemoveAt(old(usersService.users), k)
    {
      if caller.userId != id {
        return Failure(HttpError(NotFound, "You can only delete your own account"));
      }
      var _ := usersService.Remove(id);
      r := Success("User deleted successfully");
    }
  }
}
