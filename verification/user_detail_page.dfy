/** The user detail page: load one user. */
module UserDetailPage {
  import opened Wrappers
  import opened ApiClient
  import opened Entities
  import opened PageCommon

  const LoadFallback := "사용자 정보를 불러오지 못했습니다."

  class UserDetailView {
    const userId: int
    var user: Option<UserDetail>
    var loading: bool
    var errorMessage: Option<string>

    /** `loading` starts true, before the first fetch. */
    constructor (userId: int)
      ensures this.userId == userId && user == None && loading && errorMessage == None
    {
      this.userId := userId;
      user := None;
      loading := true;
      errorMessage := None;
    }

    method StartLoad() returns (request: Request)
      modifies this
      ensures request == GetUser(userId)
      ensures loading && errorMessage == None && user == old(user)
    {
      loading := true;
      errorMessage := None;
      request := GetUser(userId);
    }

    method SettleLoad(reply: Reply<UserDetail>)
      modifies this
      ensures !loading
      ensures reply.Resolved? ==> user == Some(reply.value) && errorMessage == old(errorMessage)
      ensures reply.Rejected? ==> user == old(user)
      ensures reply.Rejected? ==> errorMessage == Some(CaughtMessage(reply.thrown, LoadFallback))
    {
      match reply {
        case Resolved(value) =>
          user := Some(value);
        case Rejected(thrown) =>
          errorMessage := Some(CaughtMessage(thrown, LoadFallback));
      }
      loading := false;
    }

    /** `createdAtText` */
    function CreatedAt(): (text: DateText)
      reads this
      ensures user.None? ==> text == Dash
    {
      CreatedAtText(if user.Some? then user.value.createdAt else None)
    }
  }
}
