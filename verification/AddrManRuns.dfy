/** Any run of operations keeps the address manager consistent. */
module AddrManRuns {
  import opened Wrappers
  import opened AddrManModel
  import opened AddrManCore
  import opened AddrManOps
  import opened AddrManCheck

  datatype Op =
    | OpAdd(addrs: seq<Address>, source: NetAddr, penalty: Seconds, now: Seconds, draws: nat -> nat)
    | OpGood(a: Service, time: Seconds)
    | OpAttempt(a: Service, countFailure: bool, time: Seconds)
    | OpConnected(a: Service, time: Seconds)
    | OpSetServices(a: Service, services: set<nat>)
    | OpResolve(now: Seconds)
    | OpSelectCollision
    | OpGetAddr(netClass: Service -> Network, maxAddresses: nat, maxPct: nat, network: Option<Network>, filtered: bool,
                now: Seconds, draws: nat -> nat)

  /** Times reported to the address manager are positive. */
  predicate Timely(op: Op) {
    (op.OpGood? ==> op.time > 0) && (op.OpAttempt? ==> op.time > 0) && (op.OpResolve? ==> op.now > 0)
  }

  method Execute(am: AddrMan, op: Op)
    requires am.Valid() && Timely(op)
    modifies am
    ensures am.Valid() && Later(old(am.Snap()), am.Snap())
  {
    hide Ok, Services, CollisionsOk, Later, MadeTried;
    LaterSelf(am.Snap());
    match op
    case OpAdd(addrs, source, penalty, now, draws) =>
      var _, _ := am.Add(addrs, source, penalty, now, draws);
    case OpGood(a, time) =>
      var _ := am.Good(a, true, time);
    case OpAttempt(a, countFailure, time) =>
      am.Attempt(a, countFailure, time);
    case OpConnected(a, time) =>
      am.Connected(a, time);
    case OpSetServices(a, services) =>
      am.SetServices(a, services);
    case OpResolve(now) =>
      var _, _ := ResolveCollisions(am, now);
    case OpSelectCollision =>
      var _ := SelectTriedCollision(am);
    case OpGetAddr(netClass, maxAddresses, maxPct, network, filtered, now, draws) =>
      var _, _ := GetAddr(am, netClass, maxAddresses, maxPct, network, filtered, now, draws);
  }

  /** After every operation of every run the consistency check passes, and nothing goes back. */
  method Run(am: AddrMan, ops: seq<Op>) returns (codes: seq<int>)
    requires am.Valid() && forall i | 0 <= i < |ops| :: Timely(ops[i])
    modifies am
    ensures am.Valid() && Later(old(am.Snap()), am.Snap())
    ensures |codes| == |ops| && forall i | 0 <= i < |codes| :: codes[i] == 0
    ensures |am.triedCollisions| <= TRIED_COLLISION_SIZE
  {
    hide Ok, Services, Later, Accepts, InRange;
    codes := [];
    LaterSelf(am.Snap());
    for n := 0 to |ops|
      invariant am.Valid() && Later(old(am.Snap()), am.Snap())
      invariant |codes| == n && forall i | 0 <= i < n :: codes[i] == 0
    {
      ghost var before := am.Snap();
      Execute(am, ops[n]);
      LaterTrans(old(am.Snap()), before, am.Snap());
      ConsistentIsAccepted(am.Snap());
      var code := CheckAddrman(am);
      codes := codes + [code];
    }
  }
}
