/** middleware/validatePusherAuth.js: the socket id and channel name of a realtime-channel
    authorisation request, taken from the body or else from the query string. */
module PusherAuth {
  import opened Wrappers

  /** The two fields as they may arrive in the body or in the query string. */
  datatype AuthFields = AuthFields(socketId: Option<string>, channelName: Option<string>)

  datatype PusherParams = PusherParams(socketId: string, channelName: string)

  /** `a || b` on two optional strings: the first one when it is truthy, otherwise the second. */
  function Pick(a: Option<string>, b: Option<string>): (r: Option<string>)
    ensures Truthy(a) ==> r == a
    ensures !Truthy(a) ==> r == b
  {
    if Truthy(a) then a else b
  }

  /** The middleware: 400 "socket_id is required" when neither place carries a socket id (checked
      first), 400 "channel_name is required" when neither carries a channel name, and otherwise the
      pair, each taken from the body in preference to the query. */
  function ValidatePusherAuth(body: AuthFields, query: AuthFields): (r: Result<PusherParams>)
    ensures r.Ok? <==> (Truthy(body.socketId) || Truthy(query.socketId)) && (Truthy(body.channelName) || Truthy(query.channelName))
    ensures r.Err? ==> r.status == 400
    ensures r.Err? && !Truthy(body.socketId) && !Truthy(query.socketId) ==> r.message == "socket_id is required"
    ensures r.Err? && (Truthy(body.socketId) || Truthy(query.socketId)) ==> r.message == "channel_name is required"
    ensures r.Ok? ==> r.value.socketId != "" && r.value.channelName != ""
    ensures r.Ok? && Truthy(body.socketId) ==> r.value.socketId == body.socketId.value
    ensures r.Ok? && !Truthy(body.socketId) ==> r.value.socketId == query.socketId.value
    ensures r.Ok? && Truthy(body.channelName) ==> r.value.channelName == body.channelName.value
    ensures r.Ok? && !Truthy(body.channelName) ==> r.value.channelName == query.channelName.value
  {
    var socketId := Pick(body.socketId, query.socketId);
    var channelName := Pick(body.channelName, query.channelName);
    if !Truthy(socketId) then Err(400, "socket_id is required")
    else if !Truthy(channelName) then Err(400, "channel_name is required")
    else Ok(PusherParams(socketId.value, channelName.value))
  }
}
