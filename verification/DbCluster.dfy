/**
 A database cluster of one writer and replicas that follow it: which of them a read goes to,
 which writes it then sees, and how reads are spread.

 Times are in nanoseconds from one clock that does not go back.  Executing a write and noting
 it is one step.
 */
module DbCluster {

  // ----- settings -----

  datatype Settings = Settings(maxOpen: int, maxIdle: int, maxLifetime: int, maxIdleTime: int, window: int)

  const SECOND: int := 1_000_000_000

  function Defaults(postgres: bool): (r: Settings) {
    if postgres then Settings(10, 5, 1800 * SECOND, 300 * SECOND, 2 * SECOND) else Settings(1, 1, 0, 0, 0)
  }

  /** The settings in force: the pool is never empty and the read-after-write window never negative. */
  method NormalizePoolSettings(postgres: bool, given: Settings) returns (r: Settings)
    ensures 0 < r.maxIdle <= r.maxOpen && r.maxLifetime >= 0 && r.maxIdleTime >= 0 && r.window >= 0
    ensures postgres ==> r.maxLifetime > 0 && r.maxIdleTime > 0
    ensures r == given <==> InForce(postgres, given)
    ensures r.maxOpen == if given.maxOpen > 0 then given.maxOpen else if postgres then 10 else 1
    ensures r.maxIdle == r.maxOpen || r.maxIdle == if given.maxIdle > 0 then given.maxIdle else if postgres then 5 else 1
    ensures r.maxIdle == r.maxOpen ==> (if given.maxIdle > 0 then given.maxIdle else if postgres then 5 else 1) >= r.maxOpen
    ensures r.maxLifetime == if given.maxLifetime > 0 then given.maxLifetime else if postgres then 1800_000_000_000 else 0
    ensures r.maxIdleTime == if given.maxIdleTime > 0 then given.maxIdleTime else if postgres then 300_000_000_000 else 0
    ensures r.window == if given.window >= 0 then given.window else if postgres then 2_000_000_000 else 0
  {
    var d := Defaults(postgres);
    r := given;
    if r.maxOpen <= 0 {
      r := r.(maxOpen := d.maxOpen);
    }
    if r.maxIdle < 0 {
      r := r.(maxIdle := d.maxIdle);
    }
    if r.maxIdle == 0 {
      r := r.(maxIdle := d.maxIdle);
    }
    if r.maxIdle > r.maxOpen {
      r := r.(maxIdle := r.maxOpen);
    }
    if r.maxLifetime < 0 {
      r := r.(maxLifetime := d.maxLifetime);
    }
    if r.maxIdleTime < 0 {
      r := r.(maxIdleTime := d.maxIdleTime);
    }
    if postgres && r.maxLifetime == 0 {
      r := r.(maxLifetime := d.maxLifetime);
    }
    if postgres && r.maxIdleTime == 0 {
      r := r.(maxIdleTime := d.maxIdleTime);
    }
    if r.window < 0 {
      r := r.(window := d.window);
    }
  }

  /** Settings that need no correction. */
  predicate InForce(postgres: bool, s: Settings) {
    && 0 < s.maxIdle <= s.maxOpen && s.window >= 0
    && (if postgres then s.maxLifetime > 0 && s.maxIdleTime > 0 else s.maxLifetime >= 0 && s.maxIdleTime >= 0)
  }

  // ----- routing -----

  const WORD: nat := 0x1_0000_0000_0000_0000

  /** `prefer` is the time until which reads stay on the writer, `next` the 64-bit reader counter. */
  datatype Router = Router(window: int, readers: nat, prefer: int, next: nat)

  datatype Target = Unavailable | Writer | Replica(index: nat)

  function Noted(r: Router, now: int): (t: Router) {
    if r.window <= 0 then r else r.(prefer := now + r.window)
  }

  predicate ToReplica(r: Router, now: int) {
    r.readers > 0 && now >= r.prefer
  }

  function Route(r: Router, now: int): (t: (Router, Target)) {
    if ToReplica(r, now) then (r.(next := (r.next + 1) % WORD), Replica(r.next % r.readers)) else (r, Writer)
  }

  class SqlDbCluster {
    const hasWriter: bool
    const readers: nat
    const window: int
    var preferWriterUntil: int
    var nextReader: nat

    ghost predicate Valid()
      reads this
    {
      nextReader < WORD
    }

    ghost function Value(): (r: Router)
      reads this
    {
      Router(window, readers, preferWriterUntil, nextReader)
    }

    constructor (hasWriter: bool, readers: nat, window: int)
      ensures Valid() && Value() == Router(window, readers, 0, 0) && this.hasWriter == hasWriter
    {
      this.hasWriter := hasWriter;
      this.readers := readers;
      this.window := window;
      preferWriterUntil := 0;
      nextReader := 0;
    }

    method MarkWriteObserved(now: int)
      modifies this`preferWriterUntil
      ensures Value() == Noted(old(Value()), now)
    {
      if window <= 0 {
        return;
      }
      preferWriterUntil := now + window;
    }

    /** `executed` tells whether the writer accepts the statement. */
    method WriteExec(now: int, executed: bool) returns (ok: bool)
      modifies this
      ensures ok <==> hasWriter && executed
      ensures Value() == if ok then Noted(old(Value()), now) else old(Value())
    {
      if !hasWriter {
        return false;
      }
      if executed {
        MarkWriteObserved(now);
      }
      return executed;
    }

    method ReadDb(now: int) returns (target: Target)
      requires Valid()
      modifies this
      ensures Valid()
      ensures if hasWriter then (Value(), target) == Route(old(Value()), now) else target == Unavailable && Value() == old(Value())
    {
      if !hasWriter {
        return Unavailable;
      }
      if readers == 0 {
        return Writer;
      }
      if now < preferWriterUntil {
        return Writer;
      }
      nextReader := (nextReader + 1) % WORD;
      var index := if nextReader == 0 then WORD - 1 else nextReader - 1;
      return Replica(index % readers);
    }
  }

  // ----- replication -----

  /**
   `times` are the completion times of the writes, in order.  `seen[k]` is how many of them
   replica k has.  `served` lists the replicas that reads went to.
   */
  datatype State = State(router: Router, now: int, times: seq<int>, seen: seq<nat>, served: seq<nat>)

  /** A write may already have reached replicas when it completes; `seen` says how far they then are. */
  datatype Action = Tick(time: int) | Write(seen: seq<nat>) | Follow(replica: nat, upto: nat) | Read

  /** Every replica has every write that is at least `lag` old. */
  ghost predicate Follows(s: State, lag: int) {
    forall k, w :: 0 <= k < |s.seen| && 0 <= w < |s.times| && s.times[w] + lag <= s.now ==> s.seen[k] > w
  }

  ghost function After(s: State, a: Action): (t: State) {
    match a
    case Tick(time) => s.(now := time)
    case Write(seen) => s.(router := Noted(s.router, s.now), times := s.times + [s.now], seen := seen)
    case Follow(k, upto) => if k < |s.seen| then s.(seen := s.seen[k := upto]) else s
    case Read =>
      var (router, target) := Route(s.router, s.now);
      s.(router := router, served := if target.Replica? then s.served + [target.index] else s.served)
  }

  /** The clock does not go back, replicas only gain writes, and they keep within the lag. */
  ghost predicate Enabled(s: State, a: Action, lag: int) {
    && (a.Tick? ==> a.time >= s.now)
    && (a.Follow? && a.replica < |s.seen| ==> s.seen[a.replica] <= a.upto <= |s.times|)
    && (a.Write? ==>
          |a.seen| == |s.seen| && forall k :: 0 <= k < |s.seen| ==> s.seen[k] <= a.seen[k] <= |s.times| + 1)
    && Follows(After(s, a), lag)
  }

  ghost predicate Initial(s: State) {
    && s.router.prefer <= 0 <= s.now && s.router.next == 0 && s.times == [] && s.served == []
    && |s.seen| == s.router.readers && forall k :: 0 <= k < |s.seen| ==> s.seen[k] == 0
  }

  ghost predicate StepAt(run: seq<State>, actions: seq<Action>, i: nat, lag: int)
    requires i < |actions| && |run| == |actions| + 1
  {
    Enabled(run[i], actions[i], lag) && run[i + 1] == After(run[i], actions[i])
  }

  ghost predicate IsRun(run: seq<State>, actions: seq<Action>, lag: int) {
    && |run| == |actions| + 1 && Initial(run[0])
    && forall i :: 0 <= i < |actions| ==> StepAt(run, actions, i, lag)
  }

  // ----- read after write -----

  /** The writes that a read sees now: all of them at the writer, its own part at a replica. */
  ghost function ReadSees(s: State): (n: nat)
    requires s.router.readers <= |s.seen|
  {
    match Route(s.router, s.now).1
    case Replica(k) => s.seen[k]
    case _ => |s.times|
  }

  ghost predicate SeesAll(s: State) {
    s.router.readers <= |s.seen| && ReadSees(s) == |s.times|
  }

  /** While the window is open, reads stay on the writer. */
  ghost predicate Guarded(s: State, window: int) {
    && s.router.window == window && |s.seen| == s.router.readers
    && (forall k :: 0 <= k < |s.seen| ==> s.seen[k] <= |s.times|)
    && (forall w :: 0 <= w < |s.times| ==> s.times[w] <= s.now)
    && (window > 0 ==> forall w :: 0 <= w < |s.times| ==> s.times[w] + window <= s.router.prefer)
  }

  lemma StepStaysGuarded(s: State, a: Action, window: int, lag: int)
    requires Guarded(s, window) && Enabled(s, a, lag)
    ensures Guarded(After(s, a), window)
  {
    hide Follows;
  }

  lemma {:induction false} EveryRunIsGuarded(run: seq<State>, actions: seq<Action>, lag: int, i: nat)
    requires IsRun(run, actions, lag) && i < |run|
    ensures Guarded(run[i], run[0].router.window) && Follows(run[i], lag)
  {
    hide After, Enabled;
    if i == 0 {
      NothingToFollow(run[0], lag);
    } else {
      EveryRunIsGuarded(run, actions, lag, i - 1);
      assert StepAt(run, actions, i - 1, lag);
      StepStaysGuarded(run[i - 1], actions[i - 1], run[0].router.window, lag);
      EnabledFollows(run[i - 1], actions[i - 1], lag);
    }
  }

  lemma NothingToFollow(s: State, lag: int)
    requires s.times == []
    ensures Follows(s, lag)
  {
  }

  lemma EnabledFollows(s: State, a: Action, lag: int)
    requires Enabled(s, a, lag)
    ensures Follows(After(s, a), lag)
  {
  }

  lemma GuardedSeesAll(s: State, window: int, lag: int)
    requires Guarded(s, window) && Follows(s, lag) && lag <= window && 0 <= window
    ensures SeesAll(s)
  {
    if ToReplica(s.router, s.now) {
      var k := s.router.next % s.router.readers;
      if s.times != [] {
        var w := |s.times| - 1;
        assert s.times[w] + lag <= s.now;
        assert s.seen[k] > w;
      }
    }
  }

  /** In every run whose replicas keep within the window, every read sees every completed write. */
  lemma ReadAfterWrite(run: seq<State>, actions: seq<Action>, lag: int, i: nat)
    requires IsRun(run, actions, lag) && i < |run|
    requires lag <= run[0].router.window && 0 <= run[0].router.window
    ensures SeesAll(run[i])
  {
    hide IsRun, Guarded, Follows, SeesAll;
    EveryRunIsGuarded(run, actions, lag, i);
    GuardedSeesAll(run[i], run[0].router.window, lag);
  }

  ghost function OneReplica(window: int, now: int, times: seq<int>): (s: State) {
    State(Router(window, 1, if times == [] || window <= 0 then 0 else window, 0), now, times, [0], [])
  }

  lemma MissingRun(window: int, lag: int)
    requires 0 <= window < lag
    ensures var s, written, later := OneReplica(window, 0, []), OneReplica(window, 0, [0]), OneReplica(window, window, [0]);
      && Initial(s) && Enabled(s, Write([0]), lag) && After(s, Write([0])) == written
      && Enabled(written, Tick(window), lag) && After(written, Tick(window)) == later
      && !SeesAll(later)
  {
  }

  /** A write that reaches all replicas at once is possible within any lag, none included. */
  lemma SynchronousWriteIsEnabled(s: State, window: int, lag: int)
    requires Guarded(s, window) && Follows(s, lag)
    ensures Enabled(s, Write(seq(|s.seen|, _ => |s.times| + 1)), lag)
  {
  }

  /** With a longer lag there is a run in which a read misses a write. */
  lemma LongerLagMissesAWrite(window: int, lag: int) returns (run: seq<State>, actions: seq<Action>)
    requires 0 <= window < lag
    ensures IsRun(run, actions, lag) && run[0].router.window == window
    ensures !SeesAll(run[|run| - 1])
  {
    hide Initial, Enabled, After, SeesAll;
    MissingRun(window, lag);
    actions := [Write([0]), Tick(window)];
    run := [OneReplica(window, 0, []), OneReplica(window, 0, [0]), OneReplica(window, window, [0])];
    assert StepAt(run, actions, 0, lag) && StepAt(run, actions, 1, lag);
  }

  // ----- spreading reads -----

  lemma ModUnique(x: int, q: int, r: int, n: int)
    requires n > 0 && x == q * n + r && 0 <= r < n
    ensures x % n == r
  {
    var d := x / n - q;
    assert x == (x / n) * n + x % n;
    assert d * n == r - x % n;
    assert -n < d * n < n;
  }

  lemma ModStep(c: nat, i: nat, n: nat)
    requires i < n
    ensures (c + i) % n == if c % n + i < n then c % n + i else c % n + i - n
  {
    var q, m := c / n, c % n;
    assert c == q * n + m;
    if m + i < n {
      ModUnique(c + i, q, m + i, n);
    } else {
      assert (q + 1) * n == q * n + n;
      ModUnique(c + i, q + 1, m + i - n, n);
    }
  }

  /** The replica of the i-th replica read after the counter stood at c. */
  function ServedBy(c: nat, i: nat, n: nat): (k: nat)
    requires n > 0
    ensures k < n
  {
    ((c + i) % WORD) % n
  }

  /** Among n consecutive replica reads each replica serves exactly one. */
  ghost predicate EachOnce(c: nat, n: nat)
    requires n > 0
  {
    && (forall i, j :: 0 <= i < j < n ==> ServedBy(c, i, n) != ServedBy(c, j, n))
    && (forall k :: 0 <= k < n ==> IsServed(c, n, k))
  }

  ghost predicate IsServed(c: nat, n: nat, k: nat)
    requires n > 0
  {
    exists i :: 0 <= i < n && ServedBy(c, i, n) == k
  }

  /** The turn at which replica k is served when the counter does not wrap. */
  function TurnOf(c: nat, k: nat, n: nat): (i: nat)
    requires k < n
  {
    if k >= c % n then k - c % n else k + n - c % n
  }

  lemma InTurnIsEachOnce(c: nat, n: nat)
    requires 0 < n && forall i :: 0 <= i < n ==> ServedBy(c, i, n) == (c + i) % n
    ensures EachOnce(c, n)
  {
    forall i, j | 0 <= i < j < n
      ensures ServedBy(c, i, n) != ServedBy(c, j, n)
    {
      ModStep(c, i, n);
      ModStep(c, j, n);
    }
    forall k | 0 <= k < n
      ensures IsServed(c, n, k)
    {
      var i := TurnOf(c, k, n);
      ModStep(c, i, n);
      assert ServedBy(c, i, n) == k;
    }
  }

  /** Before the counter wraps, any n consecutive replica reads go once to each replica. */
  lemma RoundRobin(c: nat, n: nat)
    requires 0 < n && c + n <= WORD
    ensures EachOnce(c, n)
  {
    forall i | 0 <= i < n
      ensures ServedBy(c, i, n) == (c + i) % n
    {
      ModUnique(c + i, 0, c + i, WORD);
    }
    InTurnIsEachOnce(c, n);
  }

  lemma WrapKeepsTurn(c: nat, i: nat, n: nat)
    requires 0 < n <= WORD && WORD % n == 0 && c < WORD && i < n
    ensures ServedBy(c, i, n) == (c + i) % n
  {
    if c + i < WORD {
      ModUnique(c + i, 0, c + i, WORD);
    } else {
      var x := c + i - WORD;
      ModUnique(c + i, 1, x, WORD);
      var q, p := WORD / n, x / n;
      assert WORD == q * n && x == p * n + x % n;
      assert (q + p) * n == q * n + p * n;
      ModUnique(c + i, q + p, x % n, n);
    }
  }

  /** At the wrap some replica is served twice in n reads unless n divides the counter's range. */
  lemma WrapRepeats(n: nat)
    requires 0 < n && WORD % n != 0
    ensures !EachOnce(WORD - 1, n)
  {
    var c, r, q := WORD - 1, WORD % n, WORD / n;
    assert WORD == q * n + r;
    ModUnique(c, 0, c, WORD);
    ModUnique(c, q, r - 1, n);
    assert r <= WORD by {
      assert q * n >= 0;
    }
    ModUnique(c + r, 1, r - 1, WORD);
    ModUnique(r - 1, 0, r - 1, n);
    assert ServedBy(c, 0, n) == ServedBy(c, r, n);
  }

  /** Reads stay evenly spread across the wrap exactly when n divides 2^64. */
  lemma EvenAcrossWrapIff(n: nat)
    requires n > 0
    ensures (forall c: nat :: c < WORD ==> EachOnce(c, n)) <==> 0x1_0000_0000_0000_0000 % n == 0
  {
    hide EachOnce, ServedBy;
    if WORD % n == 0 {
      assert n <= WORD by {
        DivisorIsSmaller(n);
      }
      forall c: nat | c < WORD
        ensures EachOnce(c, n)
      {
        forall i | 0 <= i < n
          ensures ServedBy(c, i, n) == (c + i) % n
        {
          WrapKeepsTurn(c, i, n);
        }
        InTurnIsEachOnce(c, n);
      }
    } else {
      WrapRepeats(n);
    }
  }

  lemma DivisorIsSmaller(n: nat)
    requires n > 0 && WORD % n == 0
    ensures n <= WORD
  {
    if n > WORD {
      ModUnique(WORD, 0, WORD, n);
      assert false;
    }
  }

  // ----- spreading reads over runs -----

  /** The counter counts replica reads, and they were served in its order. */
  ghost predicate InOrder(s: State) {
    && s.router.next == |s.served| % WORD
    && (s.served != [] ==> s.router.readers > 0)
    && forall k :: 0 <= k < |s.served| ==> s.served[k] == ServedBy(0, k, s.router.readers)
  }

  lemma StepStaysInOrder(s: State, a: Action)
    requires InOrder(s)
    ensures InOrder(After(s, a)) && After(s, a).router.readers == s.router.readers
  {
    if a.Read? && ToReplica(s.router, s.now) {
      NextWraps(|s.served|);
    }
  }

  lemma NextWraps(n: nat)
    ensures (n % WORD + 1) % WORD == (n + 1) % WORD
  {
  }

  lemma {:induction false} EveryRunIsInOrder(run: seq<State>, actions: seq<Action>, lag: int, i: nat)
    requires IsRun(run, actions, lag) && i < |run|
    ensures InOrder(run[i]) && run[i].router.readers == run[0].router.readers
  {
    hide After, Enabled;
    if i > 0 {
      EveryRunIsInOrder(run, actions, lag, i - 1);
      assert StepAt(run, actions, i - 1, lag);
      StepStaysInOrder(run[i - 1], actions[i - 1]);
    }
  }

  ghost predicate ServesWithin(served: seq<nat>, k: nat, n: nat, r: nat)
    requires k + n <= |served|
  {
    exists x :: k <= x < k + n && served[x] == r
  }

  lemma ServedShift(k: nat, j: nat, n: nat)
    requires n > 0
    ensures ServedBy(0, k + j, n) == ServedBy(k % WORD, j, n)
  {
    var q := k / WORD;
    var m := k % WORD;
    assert k == q * WORD + m;
    var r := (m + j) % WORD;
    var p := (m + j) / WORD;
    assert k + j == (q + p) * WORD + r;
    ModUnique(k + j, q + p, r, WORD);
  }

  /**
   In every run, whatever writes and writer reads come between, any n replica reads in a row go
   once to each of the n replicas, unless the counter wraps among them.
   */
  lemma RunsSpreadReads(run: seq<State>, actions: seq<Action>, lag: int, i: nat, k: nat)
    requires IsRun(run, actions, lag) && i < |run|
    requires run[0].router.readers > 0 && k + run[0].router.readers <= |run[i].served|
    requires k % WORD + run[0].router.readers <= WORD
    ensures var n, served := run[0].router.readers, run[i].served;
      && (forall a, b :: k <= a < b < k + n ==> served[a] != served[b])
      && (forall r :: 0 <= r < n ==> ServesWithin(served, k, n, r))
  {
    hide IsRun, ServedBy;
    var n, served := run[0].router.readers, run[i].served;
    EveryRunIsInOrder(run, actions, lag, i);
    RoundRobin(k % WORD, n);
    forall j | 0 <= j < n
      ensures served[k + j] == ServedBy(k % WORD, j, n)
    {
      ServedShift(k, j, n);
    }
    forall a, b | k <= a < b < k + n
      ensures served[a] != served[b]
    {
      assert ServedBy(k % WORD, a - k, n) != ServedBy(k % WORD, b - k, n);
      assert served[k + (a - k)] != served[k + (b - k)];
    }
    forall r | 0 <= r < n
      ensures ServesWithin(served, k, n, r)
    {
      assert IsServed(k % WORD, n, r);
      var j :| 0 <= j < n && ServedBy(k % WORD, j, n) == r;
      assert served[k + j] == r;
    }
  }
}
