/** The kernel's IPv4 routing table as the route managers see it: one entry per
    prefix, longest-prefix-match lookup, and commands that may fail. */
module RouteTable {
  import opened Text

  // ---------- Prefixes and addresses ----------

  function Pow2(n: nat): (r: nat)
    ensures r >= 1
  {
    if n == 0 then 1 else 2 * Pow2(n - 1)
  }

  type Address = a: nat | a < 0x1_0000_0000

  // The prefix of length len whose len leading bits are those of the number bits.
  datatype Prefix = Prefix(bits: nat, len: nat)

  const DEFAULT := Prefix(0, 0)     // 0.0.0.0/0
  const LOWER_HALF := Prefix(0, 1)  // 0.0.0.0/1
  const UPPER_HALF := Prefix(1, 1)  // 128.0.0.0/1

  // The address without its n trailing bits.
  function Shift(a: nat, n: nat): nat {
    if n == 0 then a else Shift(a / 2, n - 1)
  }

  function Covering(a: Address, len: nat): Prefix
    requires len <= 32
  {
    Prefix(Shift(a, 32 - len), len)
  }

  predicate Matches(p: Prefix, a: Address) {
    p.len <= 32 && Covering(a, p.len) == p
  }

  datatype NextHop =
    | Via(gw: string, dev: string)
    | Device(dev: string)
    | Gateway(gw: string)
    | Reject
    | Blackhole

  type Table = map<Prefix, NextHop>

  // ---------- Longest-prefix match ----------

  // The first hit when the lengths are tried from len downwards.
  function Search(t: Table, a: Address, len: nat): Option<Prefix>
    requires len <= 32
  {
    if Covering(a, len) in t then Some(Covering(a, len))
    else if len == 0 then None
    else Search(t, a, len - 1)
  }

  function BestMatch(t: Table, a: Address): Option<Prefix> { Search(t, a, 32) }

  function Lookup(t: Table, a: Address): Option<NextHop> {
    match BestMatch(t, a)
    case Some(p) => if p in t then Some(t[p]) else None
    case None => None
  }

  ghost predicate IsLongest(t: Table, a: Address, p: Prefix) {
    && p in t && Matches(p, a)
    && forall q :: q in t && Matches(q, a) ==> q.len <= p.len
  }

  lemma {:induction false} SearchIsLongest(t: Table, a: Address, len: nat)
    requires len <= 32
    requires forall q :: q in t && Matches(q, a) ==> q.len <= len
    ensures forall p :: Search(t, a, len) == Some(p) <==> IsLongest(t, a, p)
  {
    if Covering(a, len) !in t {
      forall q | q in t && Matches(q, a)
        ensures q.len < len
      {
        assert q == Covering(a, q.len);
      }
      if len > 0 {
        SearchIsLongest(t, a, len - 1);
      }
    } else {
      var c := Covering(a, len);
      assert Matches(c, a);
      forall p ensures Some(c) == Some(p) <==> IsLongest(t, a, p) {
        if IsLongest(t, a, p) { assert p.len == len; }
      }
    }
  }

  // The search finds the longest matching entry, and nothing only when none matches.
  lemma BestMatchIsLongest(t: Table, a: Address)
    ensures forall p :: BestMatch(t, a) == Some(p) <==> IsLongest(t, a, p)
  {
    SearchIsLongest(t, a, 32);
  }

  // If the default route is there, or any other entry that matches, something is found.
  lemma MatchIsFound(t: Table, a: Address, q: Prefix)
    requires q in t && Matches(q, a)
    ensures BestMatch(t, a).Some?
  {
    SearchFinds(t, a, 32, q);
  }

  lemma {:induction false} SearchFinds(t: Table, a: Address, len: nat, q: Prefix)
    requires len <= 32 && q in t && Matches(q, a) && q.len <= len
    ensures Search(t, a, len).Some?
  {
    if Covering(a, len) !in t {
      SearchFinds(t, a, len - 1, q);
    }
  }

  lemma {:induction false} ShiftBelow(a: nat, m: nat, n: nat)
    requires a < Pow2(m + n)
    ensures Shift(a, n) < Pow2(m)
  {
    if n > 0 {
      assert Pow2(m + n) == 2 * Pow2(m + (n - 1));
      ShiftBelow(a / 2, m, n - 1);
    }
  }

  lemma AddressSpace()
    ensures Pow2(32) == 0x1_0000_0000
  {
    assert Pow2(8) == 256;
    assert Pow2(16) == 0x1_0000;
    assert Pow2(24) == 0x100_0000;
  }

  lemma HalvesCoverEverything(a: Address)
    ensures Matches(LOWER_HALF, a) || Matches(UPPER_HALF, a)
    ensures Matches(DEFAULT, a)
  {
    AddressSpace();
    ShiftBelow(a, 1, 31);
    ShiftBelow(a, 0, 32);
    assert Pow2(1) == 2;
  }

  // ---------- Commands ----------

  // Which command, counted from the start of the session, fails for a reason of its
  // own (no permission, no device, a malformed argument): adds and changes, and deletes.
  datatype Faults = Faults(add: nat -> bool, del: nat -> bool)

  datatype Kernel = Kernel(table: Table, clock: nat, faults: Faults)

  datatype Outcome = Done | Exists | Failed

  function AddOutcome(k: Kernel, dest: Option<Prefix>): Outcome {
    if k.faults.add(k.clock) || dest.None? then Failed
    else if dest.value in k.table then Exists
    else Done
  }

  // An add takes effect only when the prefix has no entry yet.
  function Add(k: Kernel, dest: Option<Prefix>, hop: NextHop): Kernel {
    k.(clock := k.clock + 1,
       table := if AddOutcome(k, dest) == Done then k.table[dest.value := hop] else k.table)
  }

  function ChangeOutcome(k: Kernel, dest: Option<Prefix>): Outcome {
    if k.faults.add(k.clock) || dest.None? || dest.value !in k.table then Failed else Done
  }

  // A change overwrites the entry the prefix already has.
  function Change(k: Kernel, dest: Option<Prefix>, hop: NextHop): Kernel {
    k.(clock := k.clock + 1,
       table := if ChangeOutcome(k, dest) == Done then k.table[dest.value := hop] else k.table)
  }

  function Delete(k: Kernel, dest: Option<Prefix>): Kernel {
    k.(clock := k.clock + 1,
       table := if k.faults.del(k.clock) || dest.None? then k.table else k.table - {dest.value})
  }

  // A delete that names the next hop spares an entry with another one.
  function DeleteVia(k: Kernel, dest: Prefix, hop: NextHop): Kernel {
    if dest in k.table && k.table[dest] == hop then Delete(k, Some(dest))
    else k.(clock := k.clock + 1)
  }

  predicate Through(h: NextHop, dev: string) { (h.Device? || h.Via?) && h.dev == dev }

  function WithoutDevice(t: Table, dev: string): Table {
    map p | p in t && !Through(t[p], dev) :: t[p]
  }

  // Taking an interface down withdraws the routes that leave through it.
  function LinkDown(k: Kernel, dev: string): Kernel {
    k.(clock := k.clock + 1,
       table := if k.faults.del(k.clock) then k.table else WithoutDevice(k.table, dev))
  }

  ghost predicate DeletesWork(k: Kernel) { forall n :: n >= k.clock ==> !k.faults.del(n) }

  // ---------- Deleting a list of destinations ----------

  function DeleteAll(k: Kernel, dests: seq<Option<Prefix>>): Kernel
    decreases |dests|
  {
    if dests == [] then k else DeleteAll(Delete(k, dests[0]), dests[1..])
  }

  lemma {:induction false} DeleteAllConcat(k: Kernel, a: seq<Option<Prefix>>, b: seq<Option<Prefix>>)
    ensures DeleteAll(k, a + b) == DeleteAll(DeleteAll(k, a), b)
    decreases |a|
  {
    if a == [] {
      assert a + b == b;
    } else {
      DeleteAllConcat(Delete(k, a[0]), a[1..], b);
      assert (a + b)[1..] == a[1..] + b;
    }
  }

  // Whatever fails, only listed entries go; a listed entry stays only if one of these
  // very deletes failed.
  lemma {:induction false} DeleteAllEffect(k: Kernel, dests: seq<Option<Prefix>>)
    ensures var t, r := k.table, DeleteAll(k, dests);
      && r.faults == k.faults && r.clock == k.clock + |dests|
      && (forall p :: p in r.table ==> p in t && r.table[p] == t[p])
      && (forall p :: p in t && Some(p) !in dests ==> p in r.table)
      && (forall p :: p in r.table && Some(p) in dests ==>
            exists n | k.clock <= n < r.clock :: k.faults.del(n))
    decreases |dests|
  {
    if dests != [] {
      var k1 := Delete(k, dests[0]);
      var r := DeleteAll(k, dests);
      DeleteAllEffect(k1, dests[1..]);
      forall p | p in r.table && Some(p) in dests
        ensures exists n | k.clock <= n < r.clock :: k.faults.del(n)
      {
        if Some(p) in dests[1..] {
          var n :| k1.clock <= n < r.clock && k.faults.del(n);
        } else {
          assert dests[0] == Some(p) && k.faults.del(k.clock);
        }
      }
    }
  }

  function Minus(t: Table, dests: seq<Option<Prefix>>): Table {
    map p | p in t && Some(p) !in dests :: t[p]
  }

  lemma DeleteAllExact(k: Kernel, dests: seq<Option<Prefix>>)
    requires DeletesWork(k)
    ensures DeleteAll(k, dests).table == Minus(k.table, dests)
    ensures DeletesWork(DeleteAll(k, dests)) && DeleteAll(k, dests).faults == k.faults
  {
    DeleteAllEffect(k, dests);
  }

  // ---------- Hosts to be kept off the tunnel ----------

  // A host with the resolver's answers for it: None is an address without an IPv4 form.
  datatype Endpoint = Endpoint(host: string, ips: seq<Option<string>>)
}
