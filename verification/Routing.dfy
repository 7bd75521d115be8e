/** Routing decisions (router.go). */
module Routing {

  datatype Decision = ToRedis | ToPeer | Deny

  datatype RouteContext = RouteContext(key: string, need: nat, redisExhausted: bool, hasPeers: bool)

  /** What the request loop relies on: ask peers only while there are peers left to ask, Redis
      only while it is not known to be empty, and deny only once it is. */
  predicate Obeys(rc: RouteContext, d: Decision) {
    match d
    case ToPeer => rc.hasPeers
    case ToRedis => !rc.redisExhausted
    case Deny => rc.redisExhausted
  }

  /** The default router: peers first, then Redis, then deny. */
  function DefaultDecide(rc: RouteContext): (d: Decision)
    ensures Obeys(rc, d)
    ensures d == Deny ==> !rc.hasPeers
  {
    if rc.hasPeers then ToPeer
    else if rc.redisExhausted then Deny
    else ToRedis
  }
}
