/** Two threads end a macOS session that bootstraps DNS with a cache: the goroutine that
    drops the DNS bypasses once the tunnel carries traffic, and the deferred Cleanup. Both
    read the DNS ledger and the first one clears it. Every command is one step, and so is
    reading or clearing the ledger; each range loop works on the slice it read at its
    start. Any command may fail. */
module DarwinCleanup {
  import opened Text
  import opened RouteTable
  import opened DarwinRoutes
  import opened DarwinLedgers
  import opened DarwinGuarantees

  datatype Thread = Cleaner | Dropper

  type Todo = seq<Option<Prefix>>

  datatype CleanerPc = Waiting | Before(todo: Todo) | Dns(todo: Todo) | After(todo: Todo) | LinkOff | Finished

  datatype DropperPc = Idle | Dropping(todo: Todo) | Gone

  // The ledger field holds what addedDNSBypass denotes at the moment; failed collects the
  // destinations of which a delete failed, and linkDown says whether the link went down.
  datatype Config = Config(
    table: Table, clock: nat, ledger: Todo, cleaner: CleanerPc, dropper: DropperPc,
    failed: set<Option<Prefix>>, linkDown: bool)

  // One delete by either thread.
  function Del(m: State, c: Config, d: Option<Prefix>): Config {
    if m.kernel.faults.del(c.clock) then c.(clock := c.clock + 1, failed := c.failed + {d})
    else c.(clock := c.clock + 1, table := if d.None? then c.table else c.table - {d.value})
  }

  function CleanerStep(m: State, c: Config): Config {
    match c.cleaner
    case Waiting => c.(cleaner := Before(BeforeDns(m)))
    case Before(todo) =>
      if todo == [] then c.(cleaner := Dns(c.ledger))
      else Del(m, c, todo[0]).(cleaner := Before(todo[1..]))
    case Dns(todo) =>
      if todo == [] then c.(cleaner := After(AfterDns(m)))
      else Del(m, c, todo[0]).(cleaner := Dns(todo[1..]))
    case After(todo) =>
      if todo == [] then c.(cleaner := LinkOff)
      else Del(m, c, todo[0]).(cleaner := After(todo[1..]))
    case LinkOff =>
      var n := c.(clock := c.clock + 1, cleaner := Finished);
      if m.kernel.faults.del(c.clock) then n
      else n.(table := WithoutDevice(c.table, m.tun), linkDown := true)
    case Finished => c
  }

  function DropperStep(m: State, c: Config): Config {
    match c.dropper
    case Idle => c.(dropper := Dropping(c.ledger))
    case Dropping(todo) =>
      if todo == [] then c.(ledger := [], dropper := Gone)
      else Del(m, c, todo[0]).(dropper := Dropping(todo[1..]))
    case Gone => c
  }

  // A schedule says whose turn it is; a thread that is done passes.
  function Interleave(m: State, c: Config, schedule: seq<Thread>): Config
    decreases |schedule|
  {
    if schedule == [] then c
    else Interleave(m, if schedule[0] == Cleaner then CleanerStep(m, c) else DropperStep(m, c), schedule[1..])
  }

  function Start(m: State): Config {
    Config(m.kernel.table, m.kernel.clock, Hosts(m.denote, m.dnsBypass), Waiting, Idle, {}, false)
  }

  // ---------- The invariant ----------

  // What the cleaner will still delete, if the ledger stays as it is.
  function Pending(m: State, c: Config): Todo {
    match c.cleaner
    case Waiting => BeforeDns(m) + c.ledger + AfterDns(m)
    case Before(todo) => todo + c.ledger + AfterDns(m)
    case Dns(todo) => todo + AfterDns(m)
    case After(todo) => todo
    case LinkOff => []
    case Finished => []
  }

  // Entries only go, and only recorded ones until the link goes down.
  ghost predicate Shrinks(m: State, c: Config) {
    var t := m.kernel.table;
    && (forall p :: p in c.table ==> p in t && c.table[p] == t[p])
    && (forall p :: p in t && Some(p) !in Recorded(m) && (c.linkDown ==> !Through(t[p], m.tun)) ==> p in c.table)
    && (c.linkDown ==> c.cleaner == Finished && forall p :: p in c.table ==> !Through(t[p], m.tun))
  }

  // A recorded entry is gone, or still to be deleted by the cleaner, or a delete of it failed.
  ghost predicate Tracked(m: State, c: Config) {
    && (forall p :: p in c.table && Some(p) in Recorded(m) ==> Some(p) in Pending(m, c) || Some(p) in c.failed)
    && (forall d :: d in Pending(m, c) ==> d in Recorded(m))
  }

  // The ledger is cleared only when the dropper has dealt with its entries.
  ghost predicate InStep(m: State, c: Config) {
    var dns := Hosts(m.denote, m.dnsBypass);
    && (c.dropper != Gone ==> c.ledger == dns)
    && (c.dropper == Gone ==> c.ledger == [] && forall p :: p in c.table && Some(p) in dns ==> Some(p) in c.failed)
    && (c.dropper.Dropping? ==>
          && (forall d :: d in c.dropper.todo ==> d in dns)
          && forall p :: p in c.table && Some(p) in dns ==> Some(p) in c.dropper.todo || Some(p) in c.failed)
  }

  // Nothing counts as failed for which no command failed.
  ghost predicate Honest(m: State, c: Config) {
    && c.clock >= m.kernel.clock
    && (c.failed != {} || (c.cleaner == Finished && !c.linkDown) ==>
          exists n | m.kernel.clock <= n < c.clock :: m.kernel.faults.del(n))
  }

  ghost predicate Inv(m: State, c: Config) { Shrinks(m, c) && Tracked(m, c) && InStep(m, c) && Honest(m, c) }

  lemma StartInv(m: State)
    ensures Inv(m, Start(m))
  {
    assert Pending(m, Start(m)) == Recorded(m);
  }

  lemma HeadAndRest(todo: Todo, rest: Todo)
    requires todo != []
    ensures todo + rest == [todo[0]] + (todo[1..] + rest)
    ensures forall d :: d in todo + rest <==> d == todo[0] || d in todo[1..] + rest
    ensures forall d :: d in todo <==> d == todo[0] || d in todo[1..]
  {
    assert todo == [todo[0]] + todo[1..];
  }

  // A delete of a recorded destination, by whichever thread.
  lemma DelShrinks(m: State, c: Config, d: Option<Prefix>)
    requires Shrinks(m, c) && d in Recorded(m)
    ensures Shrinks(m, Del(m, c, d))
  {
    hide Recorded;
  }

  lemma DelHonest(m: State, c: Config, d: Option<Prefix>)
    requires Honest(m, c)
    ensures Honest(m, Del(m, c, d))
  {
    var n := Del(m, c, d);
    if m.kernel.faults.del(c.clock) {
      assert m.kernel.clock <= c.clock < n.clock;
    }
  }

  lemma DelInStep(m: State, c: Config, d: Option<Prefix>)
    requires InStep(m, c)
    ensures InStep(m, Del(m, c, d))
  {
  }

  // ---------- The cleaner's steps ----------

  // The cleaner deletes a destination and crosses it off.
  lemma CrossingOffKeeps(m: State, c: Config, n: Config, d: Option<Prefix>)
    requires Inv(m, c) && c.cleaner != Finished && n == Del(m, c, d).(cleaner := n.cleaner) && n.cleaner != Finished
    requires forall x :: x in Pending(m, c) <==> x == d || x in Pending(m, n)
    ensures Inv(m, n)
  {
    hide Recorded, Pending;
    assert d in Recorded(m);
    DelShrinks(m, c, d);
    DelHonest(m, c, d);
    DelInStep(m, c, d);
    hide InStep, Honest;
    MovesOn(m, Del(m, c, d), n);
  }

  // The other parts of the invariant do not look at where the cleaner is, until it is done.
  lemma MovesOn(m: State, c: Config, n: Config)
    requires n == c.(cleaner := n.cleaner) && c.cleaner != Finished && n.cleaner != Finished
    ensures Shrinks(m, c) ==> Shrinks(m, n)
    ensures InStep(m, c) ==> InStep(m, n)
    ensures Honest(m, c) ==> Honest(m, n)
  {
    hide Recorded;
  }

  lemma SameWorkKeeps(m: State, c: Config, n: Config)
    requires Inv(m, c) && c.cleaner != Finished && n == c.(cleaner := n.cleaner) && n.cleaner != Finished
    requires Pending(m, n) == Pending(m, c)
    ensures Inv(m, n)
  {
    hide Recorded, Pending;
    MovesOn(m, c, n);
  }

  lemma BeforeKeeps(m: State, c: Config)
    requires Inv(m, c) && c.cleaner.Before? && c.cleaner.todo != []
    ensures Inv(m, CleanerStep(m, c))
  {
    hide Recorded, AfterDns, Inv;
    var todo, n := c.cleaner.todo, CleanerStep(m, c);
    HeadAndRest(todo, c.ledger + AfterDns(m));
    assert Pending(m, c) == todo + (c.ledger + AfterDns(m));
    assert Pending(m, n) == todo[1..] + (c.ledger + AfterDns(m));
    CrossingOffKeeps(m, c, n, todo[0]);
  }

  lemma DnsKeeps(m: State, c: Config)
    requires Inv(m, c) && c.cleaner.Dns? && c.cleaner.todo != []
    ensures Inv(m, CleanerStep(m, c))
  {
    hide Recorded, AfterDns, Inv;
    HeadAndRest(c.cleaner.todo, AfterDns(m));
    CrossingOffKeeps(m, c, CleanerStep(m, c), c.cleaner.todo[0]);
  }

  lemma AfterKeeps(m: State, c: Config)
    requires Inv(m, c) && c.cleaner.After? && c.cleaner.todo != []
    ensures Inv(m, CleanerStep(m, c))
  {
    hide Recorded, Inv;
    HeadAndRest(c.cleaner.todo, []);
    CrossingOffKeeps(m, c, CleanerStep(m, c), c.cleaner.todo[0]);
  }

  lemma LinkOffKeeps(m: State, c: Config)
    requires Inv(m, c) && c.cleaner == LinkOff
    ensures Inv(m, CleanerStep(m, c))
  {
    hide Recorded;
    var n := CleanerStep(m, c);
    assert !n.linkDown ==> m.kernel.faults.del(c.clock) && m.kernel.clock <= c.clock < n.clock;
  }

  lemma CleanerKeeps(m: State, c: Config)
    requires Inv(m, c)
    ensures Inv(m, CleanerStep(m, c))
  {
    hide Recorded, BeforeDns, AfterDns, Inv;
    match c.cleaner
    case Before(todo) => if todo == [] { SameWorkKeeps(m, c, CleanerStep(m, c)); } else { BeforeKeeps(m, c); }
    case Dns(todo) => if todo == [] { SameWorkKeeps(m, c, CleanerStep(m, c)); } else { DnsKeeps(m, c); }
    case After(todo) => if todo == [] { SameWorkKeeps(m, c, CleanerStep(m, c)); } else { AfterKeeps(m, c); }
    case Waiting => SameWorkKeeps(m, c, CleanerStep(m, c));
    case LinkOff => LinkOffKeeps(m, c);
    case Finished =>
  }

  // ---------- The dropper's steps ----------

  lemma DroppingStarts(m: State, c: Config)
    requires Inv(m, c) && c.dropper == Idle
    ensures Inv(m, DropperStep(m, c))
  {
    hide Recorded, BeforeDns, AfterDns;
    assert Pending(m, DropperStep(m, c)) == Pending(m, c);
  }

  lemma RecordsDns(m: State)
    ensures forall d :: d in Hosts(m.denote, m.dnsBypass) ==> d in Recorded(m)
  {
  }

  lemma DroppingTracked(m: State, c: Config)
    requires Tracked(m, c) && c.dropper.Dropping? && c.dropper.todo != []
    ensures Tracked(m, DropperStep(m, c))
  {
    assert Pending(m, DropperStep(m, c)) == Pending(m, c);
    hide Recorded, Pending;
  }

  lemma DroppingInStep(m: State, c: Config)
    requires InStep(m, c) && c.dropper.Dropping? && c.dropper.todo != []
    ensures InStep(m, DropperStep(m, c))
  {
    HeadAndRest(c.dropper.todo, []);
  }

  lemma DroppingKeeps(m: State, c: Config)
    requires Inv(m, c) && c.dropper.Dropping? && c.dropper.todo != []
    ensures Inv(m, DropperStep(m, c))
  {
    var d := c.dropper.todo[0];
    RecordsDns(m);
    assert d in Recorded(m);
    DelShrinks(m, c, d);
    DelHonest(m, c, d);
    DroppingTracked(m, c);
    DroppingInStep(m, c);
    hide Recorded, Tracked, InStep;
  }

  // When the dropper clears the ledger, no entry is left that only the ledger names,
  // unless a delete of it failed.
  lemma ClearingIsSafe(m: State, c: Config)
    requires Inv(m, c) && c.dropper == Dropping([])
    ensures Inv(m, c.(ledger := [], dropper := Gone))
  {
    hide Recorded, BeforeDns, AfterDns;
    var n := c.(ledger := [], dropper := Gone);
    assert forall d :: d in Pending(m, n) ==> d in Pending(m, c);
    assert forall d :: d in Pending(m, c) ==> d in Pending(m, n) || d in c.ledger;
  }

  lemma DropperKeeps(m: State, c: Config)
    requires Inv(m, c)
    ensures Inv(m, DropperStep(m, c))
  {
    hide Inv;
    match c.dropper
    case Idle => DroppingStarts(m, c);
    case Dropping(todo) =>
      if todo == [] {
        ClearingIsSafe(m, c);
      } else {
        DroppingKeeps(m, c);
      }
    case Gone =>
  }

  lemma {:induction false} InterleaveKeeps(m: State, c: Config, schedule: seq<Thread>)
    requires Inv(m, c)
    ensures Inv(m, Interleave(m, c, schedule))
    decreases |schedule|
  {
    hide Inv, CleanerStep, DropperStep;
    if schedule != [] {
      if schedule[0] == Cleaner {
        CleanerKeeps(m, c);
        InterleaveKeeps(m, CleanerStep(m, c), schedule[1..]);
      } else {
        DropperKeeps(m, c);
        InterleaveKeeps(m, DropperStep(m, c), schedule[1..]);
      }
    }
  }

  // ---------- What every schedule achieves ----------

  // Whatever fails and whoever's turn it is: nothing appears or changes, no unrecorded
  // entry outside the tunnel is lost, and once Cleanup is done a recorded entry is left
  // only if a delete of it failed.
  lemma EveryScheduleAccounts(m: State, schedule: seq<Thread>)
    ensures var c, t := Interleave(m, Start(m), schedule), m.kernel.table;
      && (forall p :: p in c.table ==> p in t && c.table[p] == t[p])
      && (forall p :: p in t && Some(p) !in Recorded(m) && !Through(t[p], m.tun) ==> p in c.table)
      && (c.cleaner == Finished ==> forall p :: p in c.table && Some(p) in Recorded(m) ==> Some(p) in c.failed)
      && (c.failed != {} ==> exists n | m.kernel.clock <= n < c.clock :: m.kernel.faults.del(n))
  {
    StartInv(m);
    InterleaveKeeps(m, Start(m), schedule);
    hide Recorded, Interleave;
  }

  // If no delete fails, then wherever the goroutine is when Cleanup is done (not started,
  // between two deletes, finished, or still deleting afterwards), the table is what
  // Cleanup alone would have left of the same session.
  lemma SameAsCleanupAlone(m: State, schedule: seq<Thread>)
    requires Interleave(m, Start(m), schedule).cleaner == Finished
    requires DeletesWork(m.kernel) && (m.killSwitchAdded ==> m.killSwitch)
    ensures Interleave(m, Start(m), schedule).table == Cleanup(m).kernel.table
  {
    StartInv(m);
    InterleaveKeeps(m, Start(m), schedule);
    CleanupTable(m);
    hide Recorded, Interleave, Cleanup;
  }

  // So every schedule brings back the table of before the session, apart from tunnel
  // routes, exactly when no split or extra route was recorded where an entry outside the
  // tunnel already stood, and no DNS bypass was dropped in vain before.
  lemma EveryScheduleRestoresIff(start: State, ops: seq<Op>, schedule: seq<Thread>)
    requires Fresh(start) && NoKillSwitch(ops)
    requires var m := Session(start, false, ops);
      DeletesWork(m.kernel) && Interleave(m, Start(m), schedule).cleaner == Finished
    ensures var m, t0 := Session(start, false, ops), start.kernel.table;
      Interleave(m, Start(m), schedule).table == WithoutDevice(t0, start.tun) <==>
        && (forall p :: p in t0 && Shares(m, Some(p)) ==> Through(t0[p], start.tun))
        && (forall d :: d in Leaks(start, ops) ==> Shares(m, d))
  {
    var m := Session(start, false, ops);
    SessionLedgered(start, false, ops);
    hide Ledgered, Shares, Owns, Cleanup, Leaks;
    SameAsCleanupAlone(m, schedule);
    CleanupRestoresIff(start, ops);
  }

  // ---------- Cleanup is never held up ----------

  function Turns(schedule: seq<Thread>): nat {
    if schedule == [] then 0 else (if schedule[0] == Cleaner then 1 else 0) + Turns(schedule[1..])
  }

  // The turns that the cleaner needs at most.
  function Left(m: State, c: Config): nat {
    var dns, after := |m.dnsBypass|, |AfterDns(m)|;
    match c.cleaner
    case Waiting => |BeforeDns(m)| + dns + after + 5
    case Before(todo) => |todo| + dns + after + 4
    case Dns(todo) => |todo| + after + 3
    case After(todo) => |todo| + 2
    case LinkOff => 1
    case Finished => 0
  }

  lemma CleanerProgresses(m: State, c: Config)
    requires Inv(m, c)
    ensures Left(m, c) == 0 <==> c.cleaner == Finished
    ensures Left(m, CleanerStep(m, c)) <= if Left(m, c) == 0 then 0 else Left(m, c) - 1
    ensures Left(m, DropperStep(m, c)) == Left(m, c)
  {
    assert |c.ledger| <= |m.dnsBypass|;
    hide Inv, BeforeDns, AfterDns;
  }

  // The goroutine never holds Cleanup up: enough turns of its own bring it to the end.
  lemma {:induction false} CleanupIsWaitFree(m: State, c: Config, schedule: seq<Thread>)
    requires Inv(m, c) && Turns(schedule) >= Left(m, c)
    ensures Interleave(m, c, schedule).cleaner == Finished
    decreases |schedule|
  {
    hide Inv, Left, CleanerStep, DropperStep;
    CleanerProgresses(m, c);
    if schedule != [] {
      if schedule[0] == Cleaner {
        CleanerKeeps(m, c);
        CleanupIsWaitFree(m, CleanerStep(m, c), schedule[1..]);
      } else {
        DropperKeeps(m, c);
        CleanupIsWaitFree(m, DropperStep(m, c), schedule[1..]);
      }
    }
  }

  // ---------- The goroutine does its work ----------

  function DropTurns(schedule: seq<Thread>): nat {
    if schedule == [] then 0 else (if schedule[0] == Dropper then 1 else 0) + DropTurns(schedule[1..])
  }

  // The turns that the dropper needs at most.
  function DropLeft(m: State, c: Config): nat {
    match c.dropper
    case Idle => |m.dnsBypass| + 2
    case Dropping(todo) => |todo| + 1
    case Gone => 0
  }

  lemma DropperProgresses(m: State, c: Config)
    requires Inv(m, c)
    ensures DropLeft(m, c) == 0 <==> c.dropper == Gone
    ensures DropLeft(m, DropperStep(m, c)) <= if DropLeft(m, c) == 0 then 0 else DropLeft(m, c) - 1
    ensures DropLeft(m, CleanerStep(m, c)) == DropLeft(m, c)
  {
    assert |c.ledger| <= |m.dnsBypass|;
    hide Inv, BeforeDns, AfterDns;
  }

  lemma {:induction false} DropperIsWaitFree(m: State, c: Config, schedule: seq<Thread>)
    requires Inv(m, c) && DropTurns(schedule) >= DropLeft(m, c)
    ensures Interleave(m, c, schedule).dropper == Gone
    decreases |schedule|
  {
    hide Inv, DropLeft, CleanerStep, DropperStep;
    DropperProgresses(m, c);
    if schedule != [] {
      if schedule[0] == Dropper {
        DropperKeeps(m, c);
        DropperIsWaitFree(m, DropperStep(m, c), schedule[1..]);
      } else {
        CleanerKeeps(m, c);
        DropperIsWaitFree(m, CleanerStep(m, c), schedule[1..]);
      }
    }
  }

  // Whatever Cleanup does beside it: given its turns, the goroutine has cleared the ledger,
  // and every DNS bypass that was on record is gone, or a delete of it failed.
  lemma DropperDrops(m: State, schedule: seq<Thread>)
    requires DropTurns(schedule) >= |m.dnsBypass| + 2
    ensures var c := Interleave(m, Start(m), schedule);
      && c.dropper == Gone && c.ledger == []
      && forall s, p :: s in m.dnsBypass && m.denote(Host(s)) == Some(p) && p in c.table ==> Some(p) in c.failed
  {
    StartInv(m);
    DropperIsWaitFree(m, Start(m), schedule);
    InterleaveKeeps(m, Start(m), schedule);
    hide Interleave, Recorded, Pending;
    forall s | s in m.dnsBypass ensures m.denote(Host(s)) in Hosts(m.denote, m.dnsBypass) {
      var i :| 0 <= i < |m.dnsBypass| && m.dnsBypass[i] == s;
      assert Hosts(m.denote, m.dnsBypass)[i] == m.denote(Host(s));
    }
  }

  function OnlyDropper(n: nat): (r: seq<Thread>)
    ensures |r| == n && forall i :: 0 <= i < n ==> r[i] == Dropper
  {
    seq(n, _ => Dropper)
  }

  // Alone, it does what RemoveDNSBypass does, failures included.
  lemma DropperAlone(m: State)
    ensures var c, r := Interleave(m, Start(m), OnlyDropper(|m.dnsBypass| + 2)), RemoveDNSBypass(m);
      c.table == r.kernel.table && c.clock == r.kernel.clock && c.ledger == [] && r.dnsBypass == []
  {
    var c, dns := Start(m), Hosts(m.denote, m.dnsBypass);
    var n := DropperStep(m, c);
    assert OnlyDropper(|dns| + 2)[1..] == OnlyDropper(|dns| + 1);
    DroppingAlone(m, n, m.kernel, dns);
  }

  lemma {:induction false} DroppingAlone(m: State, c: Config, k: Kernel, todo: Todo)
    requires c.dropper == Dropping(todo) && c.table == k.table && c.clock == k.clock && k.faults == m.kernel.faults
    ensures var n, r := Interleave(m, c, OnlyDropper(|todo| + 1)), DeleteAll(k, todo);
      n.table == r.table && n.clock == r.clock && n.ledger == []
    decreases |todo|
  {
    assert OnlyDropper(|todo| + 1)[1..] == OnlyDropper(|todo|);
    var n := DropperStep(m, c);
    if todo == [] {
      assert Interleave(m, n, OnlyDropper(0)) == n;
    } else {
      DroppingAlone(m, n, Delete(k, todo[0]), todo[1..]);
    }
  }
}
