/** The supervisor that starts, replaces, reverts and stops the executors of all indexers. */
module Service {
  import opened Common

  /** Executors are numbered as they start; each has its indexer's uid and a kill flag that is never cleared.
      `killers` holds, by uid, the number of the executor whose flag the service can set. */
  datatype Fleet = Fleet(owners: seq<string>, flags: seq<bool>, killers: map<string, nat>)

  const NO_EXECUTORS := Fleet([], [], map[])

  predicate Live(f: Fleet, i: int) {
    0 <= i < |f.flags| && i < |f.owners| && !f.flags[i]
  }

  ghost predicate HasLive(f: Fleet, uid: string) {
    exists i :: Live(f, i) && f.owners[i] == uid
  }

  ghost predicate WellKept(f: Fleet) {
    && |f.owners| == |f.flags|
    && forall uid :: uid in f.killers ==> f.killers[uid] < |f.flags| && f.owners[f.killers[uid]] == uid
  }

  /** Every executor whose flag is unset is the one `killers` holds for its uid: there is at most one per uid. */
  ghost predicate Single(f: Fleet) {
    WellKept(f) && forall i {:trigger Live(f, i)} :: Live(f, i) ==> f.owners[i] in f.killers && f.killers[f.owners[i]] == i
  }

  lemma AtMostOneLive(f: Fleet, i: nat, k: nat)
    requires Single(f) && Live(f, i) && Live(f, k) && f.owners[i] == f.owners[k]
    ensures i == k
  {
  }

  // ----- requests -----

  /** A request, with the uid of the manifest it loads; None when loading or starting fails. */
  datatype Request =
    | AssetReload(uid: string, found: bool, loaded: Option<string>)
    | IndexStop(uid: string)
    | IndexRevert(uid: string, loaded: Option<string>)

  function Start(f: Fleet, uid: string): Fleet {
    Fleet(f.owners + [uid], f.flags + [false], f.killers[uid := |f.flags|])
  }

  function SetFlag(f: Fleet, i: nat): Fleet {
    if i < |f.flags| then f.(flags := f.flags[i := true]) else f
  }

  /** The new fleet, and whether the service goes on after the request. */
  function Handle(f: Fleet, r: Request): (Fleet, bool) {
    match r
    case AssetReload(_, found, loaded) =>
      if !found then (f, true)
      else (match loaded
            case None => (f, false)
            case Some(uid) =>
              var started := Start(f, uid);
              (if uid in f.killers then SetFlag(started, f.killers[uid]) else started, true))
    case IndexStop(uid) =>
      if uid in f.killers then (SetFlag(f, f.killers[uid]).(killers := f.killers - {uid}), true) else (f, true)
    case IndexRevert(uid, loaded) =>
      var flagged := if uid in f.killers then SetFlag(f, f.killers[uid]) else f;
      match loaded
      case None => (flagged, false)
      case Some(loadedUid) => (Start(flagged, loadedUid), true)
  }

  function Serve(f: Fleet, requests: seq<Request>): Fleet
    decreases |requests|
  {
    if requests == [] then f
    else
      var (f', goesOn) := Handle(f, requests[0]);
      if goesOn then Serve(f', requests[1..]) else f'
  }

  function RegisterAll(f: Fleet, uids: seq<string>): Fleet
    decreases |uids|
  {
    if uids == [] then f else RegisterAll(Start(f, uids[0]), uids[1..])
  }

  /** The uids before the first index that cannot be loaded. */
  function Loadable(indices: seq<Option<string>>): seq<string> {
    if indices == [] || indices[0].None? then [] else [indices[0].value] + Loadable(indices[1..])
  }

  class IndexerService {
    var owners: seq<string>
    var flags: seq<bool>
    var killers: map<string, nat>

    function State(): Fleet
      reads this
    {
      Fleet(owners, flags, killers)
    }

    constructor ()
      ensures State() == NO_EXECUTORS
    {
      owners, flags, killers := [], [], map[];
    }

    /** Creates an executor with its own unset kill flag. */
    method Create(uid: string) returns (killer: nat)
      modifies this`owners, this`flags
      ensures killer == |old(flags)| && owners == old(owners) + [uid] && flags == old(flags) + [false]
    {
      killer := |flags|;
      owners, flags := owners + [uid], flags + [false];
    }

    method Store(killer: nat)
      modifies this`flags
      ensures State() == SetFlag(old(State()), killer)
    {
      if killer < |flags| {
        flags := flags[killer := true];
      }
    }

    method RegisterIndex(uid: string)
      modifies this
      ensures State() == Start(old(State()), uid)
    {
      var killer := Create(uid);
      killers := killers[uid := killer];
    }

    /** Starts an executor for each registered index; None is an index whose manifest or module cannot be loaded. */
    method RegisterIndices(indices: seq<Option<string>>) returns (ok: bool)
      modifies this
      ensures State() == RegisterAll(old(State()), Loadable(indices))
      ensures ok <==> None !in indices
    {
      for i := 0 to |indices|
        invariant RegisterAll(old(State()), Loadable(indices)) == RegisterAll(State(), Loadable(indices[i..]))
        invariant None !in indices[..i]
      {
        assert indices[i..][0] == indices[i] && indices[i..][1..] == indices[i + 1..];
        match indices[i] {
          case None => return false;
          case Some(uid) => RegisterIndex(uid);
        }
      }
      assert indices[|indices|..] == [] && indices[..|indices|] == indices;
      return true;
    }

    method HandleRequest(r: Request) returns (goesOn: bool)
      modifies this
      ensures (State(), goesOn) == Handle(old(State()), r)
    {
      match r {
        case AssetReload(_, found, loaded) =>
          if !found {
            return true;
          }
          match loaded {
            case None => return false;
            case Some(uid) =>
              var previous := if uid in killers then Some(killers[uid]) else None;
              var killer := Create(uid);
              killers := killers[uid := killer];
              if previous.Some? {
                Store(previous.value);
              }
              return true;
          }
        case IndexStop(uid) =>
          if uid in killers {
            var killer := killers[uid];
            killers := killers - {uid};
            Store(killer);
          }
          return true;
        case IndexRevert(uid, loaded) =>
          if uid in killers {
            Store(killers[uid]);
          }
          match loaded {
            case None => return false;
            case Some(loadedUid) =>
              var killer := Create(loadedUid);
              killers := killers[loadedUid := killer];
              return true;
          }
      }
    }

    method Task(requests: seq<Request>)
      modifies this
      ensures State() == Serve(old(State()), requests)
    {
      var i := 0;
      while i < |requests|
        invariant 0 <= i <= |requests|
        invariant Serve(old(State()), requests) == Serve(State(), requests[i..])
      {
        assert requests[i..][0] == requests[i] && requests[i..][1..] == requests[i + 1..];
        var goesOn := HandleRequest(requests[i]);
        i := i + 1;
        if !goesOn {
          return;
        }
      }
    }
  }

  /** The service: the registered indices are started, then requests are handled until one of them fails. */
  method Run(indices: seq<Option<string>>, requests: seq<Request>) returns (service: IndexerService)
    ensures fresh(service)
    ensures service.State() == if None in indices then RegisterAll(NO_EXECUTORS, Loadable(indices))
                               else Serve(RegisterAll(NO_EXECUTORS, Loadable(indices)), requests)
  {
    service := new IndexerService();
    var ok := service.RegisterIndices(indices);
    if ok {
      service.Task(requests);
    }
  }

  // ----- at most one executor per indexer -----

  /** Starting keeps executors single exactly when the uid has none that is live. */
  lemma StartSingleIff(f: Fleet, uid: string)
    requires Single(f)
    ensures Single(Start(f, uid)) <==> !HasLive(f, uid)
  {
    var g := Start(f, uid);
    forall i {:trigger Live(g, i)} | Live(g, i)
      ensures i == |f.flags| || (Live(f, i) && g.owners[i] == f.owners[i])
    {
    }
    if HasLive(f, uid) {
      var i :| Live(f, i) && f.owners[i] == uid;
      assert Live(g, i);
    } else if !Single(g) {
      assert WellKept(g);
      var i :| Live(g, i) && !(g.owners[i] in g.killers && g.killers[g.owners[i]] == i);
      assert Live(f, i) && HasLive(f, f.owners[i]);
    }
  }

  lemma FlagKeepsSingle(f: Fleet, i: nat)
    requires Single(f)
    ensures Single(SetFlag(f, i)) && forall k {:trigger Live(SetFlag(f, i), k)} :: Live(SetFlag(f, i), k) <==> Live(f, k) && k != i
  {
    var g := SetFlag(f, i);
    forall k {:trigger Live(g, k)} ensures Live(g, k) <==> Live(f, k) && k != i {
    }
    assert g.owners == f.owners && g.killers == f.killers;
  }

  /** Loading another manifest's uid is harmless for a reload, which stops whatever ran under that uid. */
  lemma ReloadKeepsSingle(f: Fleet, r: Request)
    requires Single(f) && r.AssetReload?
    ensures Single(Handle(f, r).0)
  {
    if r.found && r.loaded.Some? {
      var uid, g := r.loaded.value, Handle(f, r).0;
      forall i {:trigger Live(g, i)} | Live(g, i)
        ensures g.owners[i] in g.killers && g.killers[g.owners[i]] == i
      {
        if i < |f.flags| {
          assert Live(f, i) && f.killers[f.owners[i]] == i;
        }
      }
    }
  }

  /** Stopping keeps executors single, and leaves none live under the uid. */
  lemma StopKeepsSingle(f: Fleet, uid: string)
    requires Single(f)
    ensures Single(Handle(f, IndexStop(uid)).0) && !HasLive(Handle(f, IndexStop(uid)).0, uid)
  {
    if uid in f.killers {
      FlagKeepsSingle(f, f.killers[uid]);
      var g, h := SetFlag(f, f.killers[uid]), Handle(f, IndexStop(uid)).0;
      assert forall i {:trigger Live(h, i)} :: Live(h, i) <==> Live(g, i);
    } else {
      assert Handle(f, IndexStop(uid)).0 == f;
    }
  }

  /** A revert keeps executors single exactly when the manifest it loads is the requested one, or one with no
      live executor. */
  lemma RevertSingleIff(f: Fleet, uid: string, loaded: string)
    requires Single(f)
    ensures Single(Handle(f, IndexRevert(uid, Some(loaded))).0) <==> loaded == uid || !HasLive(f, loaded)
  {
    var flagged := if uid in f.killers then SetFlag(f, f.killers[uid]) else f;
    if uid in f.killers {
      FlagKeepsSingle(f, f.killers[uid]);
    }
    StartSingleIff(flagged, loaded);
    if HasLive(f, loaded) && loaded != uid {
      var i :| Live(f, i) && f.owners[i] == loaded;
      assert Live(flagged, i);
    }
    if HasLive(flagged, loaded) {
      var i :| Live(flagged, i) && flagged.owners[i] == loaded;
      assert Live(f, i);
    }
  }

  /** A revert of x that loads the manifest of y, while y runs, leaves two live executors of y. */
  lemma RevertLeavesTwo(x: string, y: string)
    requires x != y
    ensures var f := Serve(RegisterAll(NO_EXECUTORS, [x, y]), [IndexRevert(x, Some(y))]);
      f.owners == [x, y, y] && f.flags == [true, false, false] && f.killers == map[x := 0, y := 2]
  {
    assert [x, y][1..] == [y];
    var start := Start(Start(NO_EXECUTORS, x), y);
    assert [y][1..] == [] && RegisterAll(start, []) == start;
    assert RegisterAll(Start(NO_EXECUTORS, x), [y]) == start;
    assert RegisterAll(NO_EXECUTORS, [x, y]) == RegisterAll(Start(NO_EXECUTORS, [x, y][0]), [x, y][1..]);
    assert Serve(start, [IndexRevert(x, Some(y))]) == Handle(start, IndexRevert(x, Some(y))).0;
  }

  predicate LoadsOwn(r: Request) {
    r.IndexRevert? && r.loaded.Some? ==> r.loaded.value == r.uid
  }

  lemma HandleKeepsSingle(f: Fleet, r: Request)
    requires Single(f) && LoadsOwn(r)
    ensures Single(Handle(f, r).0)
  {
    match r {
      case AssetReload(_, _, _) => ReloadKeepsSingle(f, r);
      case IndexStop(uid) => StopKeepsSingle(f, uid);
      case IndexRevert(uid, loaded) =>
        if loaded.Some? {
          RevertSingleIff(f, uid, loaded.value);
        } else if uid in f.killers {
          FlagKeepsSingle(f, f.killers[uid]);
        }
    }
  }

  lemma {:induction false} RegisterAllSingle(f: Fleet, uids: seq<string>)
    requires Single(f) && (forall i, k :: 0 <= i < k < |uids| ==> uids[i] != uids[k]) && forall u :: u in uids ==> !HasLive(f, u)
    ensures Single(RegisterAll(f, uids))
    decreases |uids|
  {
    if uids != [] {
      StartSingleIff(f, uids[0]);
      var g := Start(f, uids[0]);
      forall u | u in uids[1..] ensures !HasLive(g, u) {
        assert u in uids && u != uids[0];
        forall i | Live(g, i) ensures g.owners[i] != u {
          assert i == |f.flags| || Live(f, i);
        }
      }
      RegisterAllSingle(g, uids[1..]);
    }
  }

  lemma {:induction false} ServeKeepsSingle(f: Fleet, requests: seq<Request>)
    requires Single(f) && forall i :: 0 <= i < |requests| ==> LoadsOwn(requests[i])
    ensures Single(Serve(f, requests))
    decreases |requests|
  {
    if requests != [] {
      HandleKeepsSingle(f, requests[0]);
      if Handle(f, requests[0]).1 {
        ServeKeepsSingle(Handle(f, requests[0]).0, requests[1..]);
      }
    }
  }

  /** From distinct uids at startup, every reachable fleet has at most one live executor per uid, and holds its flag. */
  lemma ReachableSingle(uids: seq<string>, requests: seq<Request>)
    requires forall i, k :: 0 <= i < k < |uids| ==> uids[i] != uids[k]
    requires forall i :: 0 <= i < |requests| ==> LoadsOwn(requests[i])
    ensures Single(Serve(RegisterAll(NO_EXECUTORS, uids), requests))
  {
    RegisterAllSingle(NO_EXECUTORS, uids);
    ServeKeepsSingle(RegisterAll(NO_EXECUTORS, uids), requests);
  }

  predicate Loads(r: Request, uid: string) {
    && !r.IndexStop? && r.loaded == Some(uid)
  }

  lemma {:induction false} StaysStopped(f: Fleet, requests: seq<Request>, uid: string)
    requires |f.owners| == |f.flags| && !HasLive(f, uid)
    requires forall i :: 0 <= i < |requests| ==> !Loads(requests[i], uid)
    ensures !HasLive(Serve(f, requests), uid)
    decreases |requests|
  {
    if requests != [] {
      var (g, goesOn) := Handle(f, requests[0]);
      forall i | Live(g, i) && g.owners[i] == uid
        ensures Live(f, i) && f.owners[i] == uid
      {
      }
      if goesOn {
        StaysStopped(g, requests[1..], uid);
      }
    }
  }

  /** After a stop nothing runs under the uid until a later request loads it again. */
  lemma StopLasts(f: Fleet, uid: string, later: seq<Request>)
    requires Single(f) && forall i :: 0 <= i < |later| ==> !Loads(later[i], uid)
    ensures !HasLive(Serve(f, [IndexStop(uid)] + later), uid)
  {
    StopKeepsSingle(f, uid);
    assert ([IndexStop(uid)] + later)[1..] == later;
    StaysStopped(Handle(f, IndexStop(uid)).0, later, uid);
  }

  // ----- who runs -----

  /** The live executors of an indexer. */
  ghost function LiveOf(f: Fleet, uid: string): set<int> {
    set i | 0 <= i < |f.flags| && i < |f.owners| && !f.flags[i] && f.owners[i] == uid
  }

  /** Between two fleets the live executors of all other indexers are the same. */
  ghost predicate OthersStay(f: Fleet, g: Fleet, uid: string) {
    forall other :: other != uid ==> LiveOf(g, other) == LiveOf(f, other)
  }

  /** Exactly one executor of the indexer runs, it is a new one, and its flag can be set. */
  ghost predicate RunsNew(f: Fleet, g: Fleet, uid: string) {
    LiveOf(g, uid) == {|f.flags|} && uid in g.killers && g.killers[uid] == |f.flags|
  }

  lemma NoneLive(f: Fleet, uid: string)
    ensures HasLive(f, uid) <==> LiveOf(f, uid) != {}
  {
    if HasLive(f, uid) {
      var i :| Live(f, i) && f.owners[i] == uid;
      assert i in LiveOf(f, uid);
    }
    if LiveOf(f, uid) != {} {
      var i :| i in LiveOf(f, uid);
      assert Live(f, i);
    }
  }

  lemma {:induction false} StartLive(f: Fleet, uid: string, other: string)
    requires |f.owners| == |f.flags|
    ensures LiveOf(Start(f, uid), other) == LiveOf(f, other) + if other == uid then {|f.flags|} else {}
  {
    var g := Start(f, uid);
    forall i ensures i in LiveOf(g, other) <==> i in LiveOf(f, other) || (other == uid && i == |f.flags|) {
    }
  }

  lemma {:induction false} FlagLive(f: Fleet, i: nat, other: string)
    ensures LiveOf(SetFlag(f, i), other) == LiveOf(f, other) - {i}
  {
  }

  /** In a single fleet an indexer's live executor is the one its flag is held for. */
  lemma {:induction false} SingleLive(f: Fleet, uid: string)
    requires Single(f)
    ensures LiveOf(f, uid) <= if uid in f.killers then {f.killers[uid]} else {}
    ensures uid in f.killers ==> f.killers[uid] < |f.flags| && forall other :: other != uid ==> f.killers[uid] !in LiveOf(f, other)
  {
    forall i | i in LiveOf(f, uid) ensures uid in f.killers && i == f.killers[uid] {
      assert Live(f, i);
    }
  }

  /** After a reload that found and loaded its manifest, one executor of that indexer runs, a new one, and every other
      indexer's executors run on. */
  lemma {:induction false} ReloadStarts(f: Fleet, requested: string, uid: string)
    requires Single(f)
    ensures var (g, goesOn) := Handle(f, AssetReload(requested, true, Some(uid)));
      goesOn && RunsNew(f, g, uid) && OthersStay(f, g, uid)
  {
    var (g, _) := Handle(f, AssetReload(requested, true, Some(uid)));
    var started := Start(f, uid);
    SingleLive(f, uid);
    forall other ensures LiveOf(g, other) == if other == uid then {|f.flags|} else LiveOf(f, other) {
      StartLive(f, uid, other);
      if uid in f.killers {
        FlagLive(started, f.killers[uid], other);
      }
    }
  }

  /** After a revert to a manifest of the same indexer, one executor of it runs, a new one, and every other indexer's
      executors run on. */
  lemma {:induction false} RevertStarts(f: Fleet, uid: string)
    requires Single(f)
    ensures var (g, goesOn) := Handle(f, IndexRevert(uid, Some(uid)));
      goesOn && RunsNew(f, g, uid) && OthersStay(f, g, uid)
  {
    var (g, _) := Handle(f, IndexRevert(uid, Some(uid)));
    var flagged := if uid in f.killers then SetFlag(f, f.killers[uid]) else f;
    SingleLive(f, uid);
    forall other ensures LiveOf(g, other) == if other == uid then {|f.flags|} else LiveOf(f, other) {
      if uid in f.killers {
        FlagLive(f, f.killers[uid], other);
      }
      StartLive(flagged, uid, other);
    }
  }

  /** After a stop no executor of the indexer runs, and every other indexer's executors run on. */
  lemma {:induction false} StopStops(f: Fleet, uid: string)
    requires Single(f)
    ensures var (g, goesOn) := Handle(f, IndexStop(uid));
      goesOn && LiveOf(g, uid) == {} && uid !in g.killers && OthersStay(f, g, uid)
  {
    var (g, _) := Handle(f, IndexStop(uid));
    SingleLive(f, uid);
    if uid in f.killers {
      forall other ensures LiveOf(g, other) == LiveOf(SetFlag(f, f.killers[uid]), other) {
      }
      forall other ensures LiveOf(g, other) == if other == uid then {} else LiveOf(f, other) {
        FlagLive(f, f.killers[uid], other);
      }
    }
  }

  /** A reload of an indexer that is not registered changes nothing; a reload or revert that cannot load ends the
      service, and such a revert has stopped what it was to replace. */
  lemma {:induction false} FailedRequests(f: Fleet, uid: string)
    requires Single(f)
    ensures forall loaded :: Handle(f, AssetReload(uid, false, loaded)) == (f, true)
    ensures Handle(f, AssetReload(uid, true, None)) == (f, false)
    ensures var (g, goesOn) := Handle(f, IndexRevert(uid, None)); !goesOn && LiveOf(g, uid) == {} && OthersStay(f, g, uid)
  {
    var (g, _) := Handle(f, IndexRevert(uid, None));
    SingleLive(f, uid);
    if uid in f.killers {
      forall other ensures LiveOf(g, other) == if other == uid then {} else LiveOf(f, other) {
        FlagLive(f, f.killers[uid], other);
      }
    }
  }

  /** The request loads a manifest of the indexer it names, or stops it. */
  predicate Succeeds(r: Request) {
    match r
    case AssetReload(uid, found, loaded) => found && loaded == Some(uid)
    case IndexStop(_) => true
    case IndexRevert(uid, loaded) => loaded == Some(uid)
  }

  /** Whether the indexer is to run after the requests: the last one that names it decides. */
  function Wanted(before: bool, requests: seq<Request>, uid: string): bool {
    if requests == [] then before
    else
      var last := requests[|requests| - 1];
      if last.uid == uid then !last.IndexStop? else Wanted(before, requests[..|requests| - 1], uid)
  }

  lemma {:induction false} WantedCons(before: bool, r: Request, rest: seq<Request>, uid: string)
    ensures Wanted(before, [r] + rest, uid) == Wanted(if r.uid == uid then !r.IndexStop? else before, rest, uid)
  {
    var all := [r] + rest;
    if rest == [] {
      assert all[..0] == [];
    } else {
      assert all[..|all| - 1] == [r] + rest[..|rest| - 1];
      WantedCons(before, r, rest[..|rest| - 1], uid);
    }
  }

  lemma {:induction false} SucceedingRequest(f: Fleet, r: Request, uid: string)
    requires Single(f) && Succeeds(r)
    ensures var (g, goesOn) := Handle(f, r);
      goesOn && Single(g) && (HasLive(g, uid) <==> if r.uid == uid then !r.IndexStop? else HasLive(f, uid))
  {
    HandleKeepsSingle(f, r);
    match r {
      case AssetReload(named, _, _) => ReloadStarts(f, named, named);
      case IndexStop(named) => StopStops(f, named);
      case IndexRevert(named, _) => RevertStarts(f, named);
    }
    NoneLive(f, uid);
    NoneLive(Handle(f, r).0, uid);
  }

  lemma {:induction false} ServeRuns(f: Fleet, requests: seq<Request>, uid: string)
    requires Single(f) && forall i :: 0 <= i < |requests| ==> Succeeds(requests[i])
    ensures HasLive(Serve(f, requests), uid) <==> Wanted(HasLive(f, uid), requests, uid)
    decreases |requests|
  {
    if requests != [] {
      hide Handle, Single, HasLive;
      SucceedingRequest(f, requests[0], uid);
      ServeRuns(Handle(f, requests[0]).0, requests[1..], uid);
      WantedCons(HasLive(f, uid), requests[0], requests[1..], uid);
      assert requests == [requests[0]] + requests[1..];
    }
  }

  lemma {:induction false} RegisterAllRuns(f: Fleet, uids: seq<string>, uid: string)
    requires |f.owners| == |f.flags|
    ensures HasLive(RegisterAll(f, uids), uid) <==> HasLive(f, uid) || uid in uids
    decreases |uids|
  {
    if uids != [] {
      StartLive(f, uids[0], uid);
      NoneLive(f, uid);
      NoneLive(Start(f, uids[0]), uid);
      RegisterAllRuns(Start(f, uids[0]), uids[1..], uid);
    }
  }

  /** From distinct uids at startup, after requests that all succeed, an indexer runs exactly when the last request that
      names it was no stop, or none names it and it was registered; and then one executor of it runs. */
  lemma {:induction false} ReachableRuns(uids: seq<string>, requests: seq<Request>, uid: string)
    requires forall i, k :: 0 <= i < k < |uids| ==> uids[i] != uids[k]
    requires forall i :: 0 <= i < |requests| ==> Succeeds(requests[i])
    ensures var f := Serve(RegisterAll(NO_EXECUTORS, uids), requests);
      && (LiveOf(f, uid) != {} <==> Wanted(uid in uids, requests, uid))
      && |LiveOf(f, uid)| <= 1
  {
    var start := RegisterAll(NO_EXECUTORS, uids);
    var f := Serve(start, requests);
    RegisterAllSingle(NO_EXECUTORS, uids);
    RegisterAllRuns(NO_EXECUTORS, uids, uid);
    ServeRuns(start, requests, uid);
    ServeKeepsSingle(start, requests);
    SingleLive(f, uid);
    NoneLive(f, uid);
    if uid in f.killers {
      SubsetOfOne(LiveOf(f, uid), f.killers[uid]);
    }
  }

  lemma SubsetOfOne(s: set<int>, i: int)
    requires s <= {i}
    ensures |s| <= 1
  {
    if s != {} {
      assert s == {i};
    }
  }
}
