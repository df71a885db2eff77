/** The one piece of logic of the front end's HTTP gateway client that is not
    I/O: which workspace its requests are made for. */
module Gateway {

  /** `GetWorkspaceId`: the workspace that was set, when it is positive, and
      otherwise workspace 1. */
  function WorkspaceId(current: int): (w: int)
    ensures w >= 1
    ensures current > 0 ==> w == current
    ensures current <= 0 ==> w == 1
  {
    if current > 0 then current else 1
  }
}
