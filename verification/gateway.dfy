/**
 The once-only attachment of the Socket.IO server in `initSocket`: the
 module-level `io` handle is either still unset or set, and a call creates the
 server only when `io` is unset and the HTTP request exposes its underlying
 node server.
 */
module Gateway {

  /** The module-level `io` handle. */
  datatype Gateway = Unattached | Attached

  /** The handle after one call, and whether that call constructed a server. */
  datatype InitResult = InitResult(gateway: Gateway, created: bool)

  /** One call of `initSocket`; `hostServer` says whether the request exposes
      `event.node.res.socket.server`. */
  function InitSocket(g: Gateway, hostServer: bool): (r: InitResult)
    ensures r.created <==> g == Unattached && hostServer
    ensures g == Attached ==> r == InitResult(Attached, false)
    ensures !hostServer ==> r.gateway == g && !r.created
    ensures r.gateway == Attached <==> g == Attached || hostServer
  {
    if g.Attached? then InitResult(g, false)
    else if !hostServer then InitResult(g, false)
    else InitResult(Attached, true)
  }

  /** The handle after a sequence of calls, one per entry of `calls` (whether
      that request exposed a host server), and how many of them created a server. */
  datatype InitTotal = InitTotal(gateway: Gateway, creations: nat)

  function InitAll(g: Gateway, calls: seq<bool>): InitTotal
    decreases |calls|
  {
    if calls == [] then InitTotal(g, 0)
    else
      var first := InitSocket(g, calls[0]);
      var rest := InitAll(first.gateway, calls[1..]);
      InitTotal(rest.gateway, (if first.created then 1 else 0) + rest.creations)
  }

  /** However many times the endpoint is hit, at most one server is created:
      exactly one when the handle starts unset and some request exposes the
      host server, none otherwise; and the handle ends set exactly when it
      started set or some request exposed the host server. */
  lemma {:induction false} AtMostOneServer(g: Gateway, calls: seq<bool>)
    ensures InitAll(g, calls).creations <= 1
    ensures InitAll(g, calls).creations == 1 <==> g == Unattached && true in calls
    ensures InitAll(g, calls).gateway == Attached <==> g == Attached || true in calls
    decreases |calls|
  {
    if calls != [] {
      var first := InitSocket(g, calls[0]);
      AtMostOneServer(first.gateway, calls[1..]);
      assert calls == [calls[0]] + calls[1..];
    }
  }
}
