/** The block-processing loop of one indexer: pages, transactions, retries, idling and the kill switch. */
module Executor {
  import opened Common

  const INDEX_FAILED_CALLS := 10
  const NODE_GRAPHQL_PAGE_SIZE := 10

  // ----- the transactional store -----

  /** Heights of the saved blocks, and those saved in the open transaction if there is one. */
  datatype Store = Store(committed: seq<nat>, stashed: Option<seq<nat>>)

  class Database {
    var committed: seq<nat>
    var stashed: Option<seq<nat>>

    function Contents(): Store
      reads this
    {
      Store(committed, stashed)
    }

    constructor ()
      ensures Contents() == Store([], None)
    {
      committed, stashed := [], None;
    }

    /** Opening fails without a connection or when BEGIN fails; a transaction still stashed is dropped unsaved. */
    method StartTransaction(connected: bool) returns (ok: bool)
      modifies this
      ensures ok == connected
      ensures Contents() == if ok then Store(old(committed), Some([])) else old(Contents())
    {
      if connected {
        stashed := Some([]);
      }
      ok := connected;
    }

    method CommitTransaction(executed: bool) returns (ok: bool)
      modifies this
      ensures ok == (old(stashed).Some? && executed)
      ensures Contents() == Store(if ok then old(committed) + old(stashed).value else old(committed), None)
    {
      var taken := stashed;
      stashed := None;
      ok := taken.Some? && executed;
      if ok {
        committed := committed + taken.value;
      }
    }

    method RevertTransaction(executed: bool) returns (ok: bool)
      modifies this
      ensures ok == (old(stashed).Some? && executed)
      ensures Contents() == Store(old(committed), None)
    {
      ok := stashed.Some? && executed;
      stashed := None;
    }

    method PutObject(height: nat)
      requires stashed.Some?
      modifies this
      ensures Contents() == Store(old(committed), Some(old(stashed).value + [height]))
    {
      stashed := Some(stashed.value + [height]);
    }

    /** The handler saves blocks in order and stops early when it fails or panics. */
    method RunHandler(blocks: seq<nat>, env: Env) returns (ok: bool)
      requires stashed.Some?
      modifies this
      ensures ok == env.handled
      ensures Contents() == Store(old(committed), Some(old(stashed).value + Saves(blocks, env)))
    {
      var n := |Saves(blocks, env)|;
      assert stashed.value + blocks[..0] == stashed.value;
      for i := 0 to n
        invariant committed == old(committed) && stashed == Some(old(stashed).value + blocks[..i])
      {
        PutObject(blocks[i]);
        assert old(stashed).value + blocks[..i] + [blocks[i]] == old(stashed).value + blocks[..i + 1];
      }
      ok := env.handled;
    }

    /** A call that cannot be joined returns without closing its transaction. */
    method HandleEvents(blocks: seq<nat>, env: Env) returns (ok: bool)
      modifies this
      ensures (Contents(), ok) == AfterEvents(old(Contents()), blocks, env)
    {
      if !env.prepared {
        return false;
      }
      var started := StartTransaction(env.connected);
      if !started {
        return false;
      }
      var handled := RunHandler(blocks, env);
      assert [] + Saves(blocks, env) == Saves(blocks, env) && blocks[..|blocks|] == blocks;
      if !env.joined {
        return false;
      }
      if handled {
        ok := CommitTransaction(env.executed);
      } else {
        var _ := RevertTransaction(env.executed);
        ok := false;
      }
    }
  }

  // ----- one iteration -----

  /** What the outside world does during one iteration: whether the page arrives and how many blocks it may hold,
      whether arguments can be prepared, a connection opened, the handler's call joined (always for a native one), the
      events handled (else after how many saves the handler stops), COMMIT or ROLLBACK executed, and whether the kill
      flag is set when it is read. */
  datatype Env = Env(fetched: bool, available: nat, prepared: bool, connected: bool, joined: bool, handled: bool, saved: nat,
                     executed: bool, killed: bool)

  /** The blocks the handler saves. */
  function Saves(blocks: seq<nat>, env: Env): seq<nat> {
    if (env.joined && env.handled) || env.saved > |blocks| then blocks[..|blocks|] else blocks[..env.saved]
  }

  function AfterEvents(store: Store, blocks: seq<nat>, env: Env): (Store, bool) {
    if !env.prepared || !env.connected then (store, false)
    else if !env.joined then (Store(store.committed, Some(Saves(blocks, env))), false)
    else if env.handled && env.executed then (Store(store.committed + blocks, None), true)
    else (Store(store.committed, None), false)
  }

  /** Consecutive heights from lo up to, not including, hi. */
  function Heights(lo: nat, hi: nat): (r: seq<nat>)
    ensures |r| == if lo <= hi then hi - lo else 0
    ensures forall i :: 0 <= i < |r| ==> r[i] == lo + i
  {
    if lo >= hi then [] else seq(hi - lo, i requires 0 <= i => lo + i)
  }

  /** The configuration: the manifest's start block, the chain's first height, and the idle limit if any. */
  datatype Config = Config(startBlock: nat, genesis: nat, maxEmpty: Option<nat>)

  function StartCursor(startBlock: nat): Option<nat> {
    if startBlock > 1 then Some(startBlock - 1) else None
  }

  /** The height after the cursor; without a cursor the node starts at the chain's first block. */
  function NextHeight(c: Config, cursor: Option<nat>): nat {
    match cursor case Some(h) => h + 1 case None => c.genesis
  }

  /** The blocks after the cursor: at most a page, and none when fetching fails. */
  function PageBlocks(c: Config, cursor: Option<nat>, env: Env): seq<nat> {
    var n := if !env.fetched then 0 else if env.available < NODE_GRAPHQL_PAGE_SIZE then env.available else NODE_GRAPHQL_PAGE_SIZE;
    Heights(NextHeight(c, cursor), NextHeight(c, cursor) + n)
  }

  /** The page's own cursor: its last height, or nothing for an empty page. */
  function PageCursor(c: Config, cursor: Option<nat>, env: Env): Option<nat> {
    var blocks := PageBlocks(c, cursor, env);
    if blocks == [] then None else Some(blocks[|blocks| - 1])
  }

  datatype Status = Running | GaveUp | Idle | Killed

  datatype State = State(cursor: Option<nat>, retries: nat, empties: nat, store: Store)

  function Iterate(c: Config, s: State, env: Env): (State, Status) {
    var blocks, page := PageBlocks(c, s.cursor, env), PageCursor(c, s.cursor, env);
    var (store, ok) := AfterEvents(s.store, blocks, env);
    if !ok then (s.(store := store, retries := s.retries + 1), if s.retries + 1 < INDEX_FAILED_CALLS then Running else GaveUp)
    else if page.None? && Some(s.empties + 1) == c.maxEmpty then (s.(store := store, empties := s.empties + 1), Idle)
    else
      var s' := if page.None? then s.(store := store, empties := s.empties + 1) else s.(store := store, cursor := page, empties := 0);
      if env.killed then (s', Killed) else (s'.(retries := 0), Running)
  }

  function Run(c: Config, s: State, envs: seq<Env>): (State, Status)
    decreases |envs|
  {
    if envs == [] then (s, Running)
    else
      var (s', status) := Iterate(c, s, envs[0]);
      if status == Running then Run(c, s', envs[1..]) else (s', status)
  }

  /** The loop itself, against a script of what the world does in each iteration. */
  method RunExecutor(c: Config, db: Database, envs: seq<Env>) returns (s: State, status: Status)
    modifies db
    ensures (s, status) == Run(c, State(StartCursor(c.startBlock), 0, 0, old(db.Contents())), envs)
    ensures db.Contents() == s.store
  {
    var nextCursor: Option<nat> := if c.startBlock > 1 then Some(c.startBlock - 1) else None;
    var retryCount, numEmpty := 0, 0;
    ghost var start := State(StartCursor(c.startBlock), 0, 0, db.Contents());
    var i := 0;
    while i < |envs|
      invariant 0 <= i <= |envs|
      invariant Run(c, start, envs) == Run(c, State(nextCursor, retryCount, numEmpty, db.Contents()), envs[i..])
    {
      var env := envs[i];
      assert envs[i..][0] == env && envs[i..][1..] == envs[i + 1..];
      i := i + 1;
      var blocks, cursor := PageBlocks(c, nextCursor, env), PageCursor(c, nextCursor, env);
      var ok := db.HandleEvents(blocks, env);
      if !ok {
        retryCount := retryCount + 1;
        if retryCount < INDEX_FAILED_CALLS {
          continue;
        } else {
          return State(nextCursor, retryCount, numEmpty, db.Contents()), GaveUp;
        }
      }
      if cursor.None? {
        numEmpty := numEmpty + 1;
        if Some(numEmpty) == c.maxEmpty {
          return State(nextCursor, retryCount, numEmpty, db.Contents()), Idle;
        }
      } else {
        nextCursor := cursor;
        numEmpty := 0;
      }
      if env.killed {
        return State(nextCursor, retryCount, numEmpty, db.Contents()), Killed;
      }
      retryCount := 0;
    }
    return State(nextCursor, retryCount, numEmpty, db.Contents()), Running;
  }

  // ----- safety over every run -----

  /** Exactly the consecutive blocks from `first` up to the cursor were committed after `before`; a transaction is
      open only after a failure, and holds the first blocks after the cursor. */
  ghost predicate Consistent(c: Config, before: seq<nat>, first: nat, s: State) {
    var next := NextHeight(c, s.cursor);
    && s.store.committed == before + Heights(first, next)
    && first <= next
    && (s.store.stashed.Some? ==> s.retries > 0 && s.store.stashed.value == Heights(next, next + |s.store.stashed.value|))
  }

  lemma HeightsJoin(a: nat, b: nat, d: nat)
    requires a <= b <= d
    ensures Heights(a, b) + Heights(b, d) == Heights(a, d)
  {
  }

  lemma PageExtends(c: Config, before: seq<nat>, first: nat, cursor: Option<nat>, env: Env)
    requires first <= NextHeight(c, cursor)
    ensures var lo, blocks, page := NextHeight(c, cursor), PageBlocks(c, cursor, env), PageCursor(c, cursor, env);
      && (page.None? ==> blocks == [])
      && (page.Some? ==> NextHeight(c, page) == lo + |blocks|)
      && before + Heights(first, lo) + blocks == before + Heights(first, lo + |blocks|)
  {
    var lo, blocks := NextHeight(c, cursor), PageBlocks(c, cursor, env);
    HeightsJoin(first, lo, lo + |blocks|);
    assert before + Heights(first, lo) + blocks == before + (Heights(first, lo) + blocks);
  }

  lemma {:induction false} IterateConsistent(c: Config, before: seq<nat>, first: nat, s: State, env: Env)
    requires Consistent(c, before, first, s)
    ensures var (s', status) := Iterate(c, s, env);
      && Consistent(c, before, first, s')
      && ((status != Running && status != GaveUp) || (env.joined && s.store.stashed.None?) ==> s'.store.stashed.None?)
  {
    PageSaves(c, s.cursor, env);
    hide Heights, PageBlocks, PageCursor, Saves;
    PageExtends(c, before, first, s.cursor, env);
  }

  lemma PageSaves(c: Config, cursor: Option<nat>, env: Env)
    ensures var lo, saves := NextHeight(c, cursor), Saves(PageBlocks(c, cursor, env), env);
            saves == Heights(lo, lo + |saves|)
  {
  }

  /** Whatever fails and in whatever order, the committed blocks are the consecutive ones up to the cursor, once
      each and in order. A transaction stays open only when a call could not be joined and a failure came last. */
  lemma {:induction false} RunConsistent(c: Config, before: seq<nat>, first: nat, s: State, envs: seq<Env>)
    requires Consistent(c, before, first, s)
    ensures var (end, status) := Run(c, s, envs);
      && Consistent(c, before, first, end)
      && (status == Idle || status == Killed ==> end.store.stashed.None?)
      && (s.store.stashed.None? && (forall i :: 0 <= i < |envs| ==> envs[i].joined) ==> end.store.stashed.None?)
    decreases |envs|
  {
    if envs != [] {
      IterateConsistent(c, before, first, s, envs[0]);
      var (s', status) := Iterate(c, s, envs[0]);
      if status == Running {
        RunConsistent(c, before, first, s', envs[1..]);
      }
    }
  }

  /** The first height a run asks for. */
  function FirstHeight(c: Config): nat {
    NextHeight(c, StartCursor(c.startBlock))
  }

  function StartState(c: Config, saved: seq<nat>): State {
    State(StartCursor(c.startBlock), 0, 0, Store(saved, None))
  }

  lemma ExecutorConsistent(c: Config, before: seq<nat>, envs: seq<Env>)
    ensures var (end, status) := Run(c, StartState(c, before), envs);
      && end.store.committed == before + Heights(FirstHeight(c), NextHeight(c, end.cursor))
      && FirstHeight(c) <= NextHeight(c, end.cursor)
      && (status == Idle || status == Killed || (forall i :: 0 <= i < |envs| ==> envs[i].joined) ==> end.store.stashed == None)
  {
    assert before + Heights(FirstHeight(c), FirstHeight(c)) == before;
    RunConsistent(c, before, FirstHeight(c), StartState(c, before), envs);
  }

  // ----- giving up and being killed -----

  /** Once the kill flag is set, an executor with r failures in a row ends within its next 10 - r iterations. */
  lemma {:induction false} KillEnds(c: Config, s: State, envs: seq<Env>)
    requires s.retries < INDEX_FAILED_CALLS && forall i :: 0 <= i < |envs| ==> envs[i].killed
    requires |envs| >= INDEX_FAILED_CALLS - s.retries
    ensures Run(c, s, envs).1 != Running
    decreases INDEX_FAILED_CALLS - s.retries
  {
    var (s', status) := Iterate(c, s, envs[0]);
    if status == Running {
      KillEnds(c, s', envs[1..]);
    }
  }

  function Failing(env: Env): bool {
    !(env.prepared && env.connected && env.joined && env.handled && env.executed)
  }

  /** A run gives up exactly when ten calls in a row fail. */
  lemma {:induction false} GivesUpIff(c: Config, s: State, envs: seq<Env>)
    requires s.retries < INDEX_FAILED_CALLS && c.maxEmpty == None
    requires forall i :: 0 <= i < |envs| ==> !envs[i].killed
    ensures Run(c, s, envs).1 == GaveUp <==> exists k :: 0 <= k <= |envs| && FailsBefore(s, envs, k)
    ensures Run(c, s, envs).1 != GaveUp ==> Run(c, s, envs).1 == Running
    decreases |envs|
  {
    if envs == [] {
    } else {
      var (s', status) := Iterate(c, s, envs[0]);
      if status == Running {
        GivesUpIff(c, s', envs[1..]);
        forall k | 0 < k <= |envs| ensures FailsBefore(s, envs, k) <==> FailsBefore(s', envs[1..], k - 1) {
          FailureRun(s, s', envs, k);
        }
        assert !FailsBefore(s, envs, 0);
        if k :| 0 <= k <= |envs| - 1 && FailsBefore(s', envs[1..], k) {
          assert FailsBefore(s, envs, k + 1);
        }
      } else {
        assert FailsBefore(s, envs, 1) by { assert Streak(s, envs, 1) == s.retries + 1; }
      }
    }
  }

  /** The length of the run of failures ending before position k. */
  function Streak(s: State, envs: seq<Env>, k: nat): nat
    requires k <= |envs|
  {
    if k == 0 then s.retries else if Failing(envs[k - 1]) then Streak(s, envs, k - 1) + 1 else 0
  }

  predicate FailsBefore(s: State, envs: seq<Env>, k: nat)
    requires k <= |envs|
  {
    Streak(s, envs, k) >= INDEX_FAILED_CALLS
  }

  lemma {:induction false} FailureRun(s: State, s': State, envs: seq<Env>, k: nat)
    requires 0 < k <= |envs| && s'.retries == (if Failing(envs[0]) then s.retries + 1 else 0)
    ensures Streak(s, envs, k) == Streak(s', envs[1..], k - 1)
  {
    if k > 1 {
      FailureRun(s, s', envs, k - 1);
    }
  }

  // ----- how a run ends, and how far it gets -----

  function EmptyPage(env: Env): bool {
    !env.fetched || env.available == 0
  }

  /** The number of empty pages in a row before position k; failures neither add to the row nor break it. */
  function EmptyStreak(s: State, envs: seq<Env>, k: nat): nat
    requires k <= |envs|
  {
    if k == 0 then s.empties
    else if Failing(envs[k - 1]) then EmptyStreak(s, envs, k - 1)
    else if EmptyPage(envs[k - 1]) then EmptyStreak(s, envs, k - 1) + 1
    else 0
  }

  /** What the k-th iteration makes of a run that reaches it: ten failures in a row give up, the last of the allowed
      empty pages in a row idles, and a set flag ends any other iteration that did not fail. */
  function EndAt(c: Config, s: State, envs: seq<Env>, k: nat): Status
    requires k < |envs|
  {
    if Failing(envs[k]) then (if FailsBefore(s, envs, k + 1) then GaveUp else Running)
    else if EmptyPage(envs[k]) && c.maxEmpty == Some(EmptyStreak(s, envs, k + 1)) then Idle
    else if envs[k].killed then Killed
    else Running
  }

  /** The blocks of the pages that arrived and were handled, at most ten a page. */
  function Handled(envs: seq<Env>): nat {
    if envs == [] then 0
    else
      var last := envs[|envs| - 1];
      Handled(envs[..|envs| - 1]) + if Failing(last) || !last.fetched then 0 else if last.available < 10 then last.available else 10
  }

  lemma {:induction false} HandledCons(env: Env, rest: seq<Env>)
    ensures Handled([env] + rest) == Handled([env]) + Handled(rest)
  {
    var all := [env] + rest;
    if rest == [] {
      assert all == [env];
    } else {
      assert all[..|all| - 1] == [env] + rest[..|rest| - 1];
      HandledCons(env, rest[..|rest| - 1]);
    }
  }

  lemma {:induction false} EmptyRun(s: State, s': State, envs: seq<Env>, k: nat)
    requires 0 < k <= |envs| && s'.empties == EmptyStreak(s, envs, 1)
    ensures EmptyStreak(s, envs, k) == EmptyStreak(s', envs[1..], k - 1)
  {
    if k > 1 {
      EmptyRun(s, s', envs, k - 1);
    }
  }

  lemma IterationEnds(c: Config, s: State, envs: seq<Env>)
    requires envs != [] && s.retries < INDEX_FAILED_CALLS
    ensures var (s', status) := Iterate(c, s, envs[0]);
      && status == EndAt(c, s, envs, 0)
      && s'.empties == EmptyStreak(s, envs, 1)
      && (status == Running ==> s'.retries == if Failing(envs[0]) then s.retries + 1 else 0)
      && NextHeight(c, s'.cursor) == NextHeight(c, s.cursor) + Handled([envs[0]])
  {
    assert Streak(s, envs, 1) == if Failing(envs[0]) then s.retries + 1 else 0;
    assert EmptyStreak(s, envs, 1) == if Failing(envs[0]) then s.empties else if EmptyPage(envs[0]) then s.empties + 1 else 0;
    assert PageBlocks(c, s.cursor, envs[0]) == [] <==> EmptyPage(envs[0]);
    assert [envs[0]][..0] == [] && Handled([envs[0]][..0]) == 0;
  }

  lemma {:induction false} EndsLater(c: Config, s: State, s': State, envs: seq<Env>, k: nat)
    requires 0 < k < |envs| && s'.empties == EmptyStreak(s, envs, 1)
    requires s'.retries == if Failing(envs[0]) then s.retries + 1 else 0
    ensures EndAt(c, s, envs, k) == EndAt(c, s', envs[1..], k - 1)
  {
    EmptyRun(s, s', envs, k + 1);
    FailureRun(s, s', envs, k + 1);
  }

  /** A run makes n iterations: up to the first that ends it, or all. It ends as that one says, and has advanced by the
      blocks of the pages it handled. */
  lemma {:induction false} RunEnds(c: Config, s: State, envs: seq<Env>) returns (n: nat)
    requires s.retries < INDEX_FAILED_CALLS
    ensures n <= |envs| && forall k :: 0 <= k < n - 1 ==> EndAt(c, s, envs, k) == Running
    ensures var (end, status) := Run(c, s, envs);
      && (n < |envs| ==> status != Running)
      && (if n == 0 then status == Running else status == EndAt(c, s, envs, n - 1))
      && NextHeight(c, end.cursor) == NextHeight(c, s.cursor) + Handled(envs[..n])
    decreases |envs|
  {
    if envs == [] {
      n := 0;
    } else {
      hide Iterate, EndAt, EmptyStreak, Handled, NextHeight, Failing;
      IterationEnds(c, s, envs);
      var (s', status) := Iterate(c, s, envs[0]);
      if status == Running {
        RunningRetries(c, s, envs[0]);
        var m := RunEnds(c, s', envs[1..]);
        n := m + 1;
        forall k | 0 < k < n ensures EndAt(c, s, envs, k) == EndAt(c, s', envs[1..], k - 1) {
          EndsLater(c, s, s', envs, k);
        }
        FirstThen(envs, m);
        HandledCons(envs[0], envs[1..][..m]);
      } else {
        n := 1;
        assert envs[..1] == [envs[0]];
      }
    }
  }

  lemma FirstThen<T>(s: seq<T>, m: nat)
    requires m < |s|
    ensures s[..m + 1] == [s[0]] + s[1..][..m]
  {
  }

  lemma RunningRetries(c: Config, s: State, env: Env)
    requires Iterate(c, s, env).1 == Running
    ensures Iterate(c, s, env).0.retries < INDEX_FAILED_CALLS
  {
  }

  // ----- resuming -----

  function Highest(heights: seq<nat>): Option<nat> {
    if heights == [] then None
    else match Highest(heights[1..])
      case None => Some(heights[0])
      case Some(h) => Some(if heights[0] > h then heights[0] else h)
  }

  /** The start block of a resumed indexer is the highest saved block, or 1 when nothing was saved. */
  function GetStartBlock(resumable: bool, manifestStart: Option<nat>, saved: seq<nat>): nat {
    if resumable then
      match Highest(saved) case Some(h) => h case None => 1
    else
      match manifestStart case Some(n) => n case None => 1
  }

  lemma {:induction false} HighestIs(saved: seq<nat>, h: nat)
    requires h in saved && forall other :: other in saved ==> other <= h
    ensures Highest(saved) == Some(h)
  {
    forall other | other in saved[1..] ensures other in saved && other <= h {
    }
    assert saved[0] in saved;
    if h in saved[1..] {
      HighestIs(saved[1..], h);
    } else {
      HighestIsSaved(saved[1..]);
    }
  }

  lemma {:induction false} HighestIsSaved(saved: seq<nat>)
    ensures match Highest(saved) case Some(h) => h in saved case None => saved == []
  {
    if saved != [] {
      HighestIsSaved(saved[1..]);
    }
  }

  /** The configuration of a resumable indexer restarted over what is saved. */
  function Resumed(c: Config, saved: seq<nat>): Config {
    c.(startBlock := GetStartBlock(true, Some(c.startBlock), saved))
  }

  /** What is committed after running again over what is saved. */
  function RunAgain(c: Config, saved: seq<nat>, envs: seq<Env>): seq<nat> {
    Run(Resumed(c, saved), StartState(Resumed(c, saved), saved), envs).0.store.committed
  }

  /** The saved heights are those from lo up to, not including, hi. */
  ghost predicate Covers(saved: seq<nat>, lo: nat, hi: nat) {
    lo <= hi && forall h :: h in saved <==> lo <= h < hi
  }

  /** A restarted run begins at the highest saved block if that is above 1, and else at the chain's first block. */
  lemma {:induction false} ResumesAt(c: Config, saved: seq<nat>, lo: nat, hi: nat)
    requires Covers(saved, lo, hi)
    ensures FirstHeight(Resumed(c, saved)) == if lo < hi && hi - 1 > 1 then hi - 1 else c.genesis
  {
    if lo < hi {
      assert hi - 1 in saved;
      HighestIs(saved, hi - 1);
    }
    HighestIsSaved(saved);
  }

  /** One restart: the saved blocks stay, consecutive ones are appended from where the run begins, and no gap opens. */
  lemma {:induction false} ResumeLeavesNoGap(c: Config, saved: seq<nat>, lo: nat, hi: nat, envs: seq<Env>) returns (next: nat)
    requires Covers(saved, lo, hi) && (lo == hi || hi <= 2 ==> lo == c.genesis)
    ensures var from := if lo < hi && hi - 1 > 1 then hi - 1 else c.genesis;
      && from <= next
      && RunAgain(c, saved, envs) == saved + Heights(from, next)
      && Covers(RunAgain(c, saved, envs), lo, if next > hi then next else hi)
  {
    ResumesAt(c, saved, lo, hi);
    ExecutorConsistent(Resumed(c, saved), saved, envs);
    next := NextHeight(Resumed(c, saved), Run(Resumed(c, saved), StartState(Resumed(c, saved), saved), envs).0.cursor);
    var from := FirstHeight(Resumed(c, saved));
    CoversMore(saved, lo, hi, from, next);
  }

  lemma CoversMore(saved: seq<nat>, lo: nat, hi: nat, from: nat, next: nat)
    requires Covers(saved, lo, hi) && lo <= from <= hi && from <= next
    ensures Covers(saved + Heights(from, next), lo, if next > hi then next else hi)
  {
    forall h ensures h in Heights(from, next) <==> from <= h < next {
      if from <= h < next {
        assert Heights(from, next)[h - from] == h;
      }
    }
  }

  function Sessions(c: Config, saved: seq<nat>, sessions: seq<seq<Env>>): seq<nat>
    decreases |sessions|
  {
    if sessions == [] then saved else Sessions(c, RunAgain(c, saved, sessions[0]), sessions[1..])
  }

  /** However often a resumable indexer is restarted and whatever fails, the saved blocks are all blocks from the
      chain's first one up to the highest. */
  lemma {:induction false} SessionsCover(c: Config, saved: seq<nat>, hi: nat, sessions: seq<seq<Env>>) returns (end: nat)
    requires Covers(saved, c.genesis, hi)
    ensures end >= hi && Covers(Sessions(c, saved, sessions), c.genesis, end)
    decreases |sessions|
  {
    end := hi;
    if sessions != [] {
      var next := ResumeLeavesNoGap(c, saved, c.genesis, hi, sessions[0]);
      end := SessionsCover(c, RunAgain(c, saved, sessions[0]), if next > hi then next else hi, sessions[1..]);
    }
  }

  /** Of the blocks saved before, the restarted run saves at most the highest again, exactly when that is above 1 or
      the chain's first block, or the restarted run saves nothing. */
  lemma {:induction false} RepeatsOnlyHighestIff(c: Config, saved: seq<nat>, lo: nat, hi: nat, envs: seq<Env>)
    requires Covers(saved, lo, hi) && lo < hi && (hi <= 2 ==> lo == c.genesis)
    ensures |saved| <= |RunAgain(c, saved, envs)|
    ensures var again := RunAgain(c, saved, envs)[|saved|..];
      ((forall h :: h in saved && h in again ==> h == hi - 1) <==> hi - 1 > 1 || hi - 1 == c.genesis || again == [])
  {
    var next := ResumeLeavesNoGap(c, saved, lo, hi, envs);
    var again := RunAgain(c, saved, envs)[|saved|..];
    if hi - 1 <= 1 && again != [] {
      assert again == Heights(c.genesis, next) && again[0] == c.genesis && c.genesis in saved;
    }
  }

  /** With nothing saved, a resumable indexer begins where its manifest says exactly when that is the chain's first
      block or one the node's own default stands for. */
  lemma NothingSavedStartsIff(c: Config)
    ensures FirstHeight(Resumed(c, [])) == c.genesis
    ensures FirstHeight(Resumed(c, [])) == FirstHeight(c) <==> c.startBlock <= 1 || c.startBlock == c.genesis
  {
  }

  /** An indexer that is not resumable begins at its manifest's block whatever is saved, and at the chain's first block
      when that is at most 1 or missing. */
  lemma ManifestStarts(c: Config, manifestStart: Option<nat>, saved: seq<nat>)
    ensures FirstHeight(c.(startBlock := GetStartBlock(false, manifestStart, saved))) ==
            if manifestStart.Some? && manifestStart.value > 1 then manifestStart.value else c.genesis
  {
  }

  const TWO_BLOCKS := Env(true, 2, true, true, true, true, 0, true, true)

  /** A chain from height 0, stopped after its first two blocks and resumed, saves both again. */
  lemma ResumeRepeatsTwo()
    ensures RunAgain(Config(1, 0, None), [], [TWO_BLOCKS]) == [0, 1]
    ensures RunAgain(Config(1, 0, None), [0, 1], [TWO_BLOCKS]) == [0, 1, 0, 1]
  {
  }
}
