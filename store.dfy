/** The secret store of storage.go. The Redis client is replaced by what the three
    commands it sends act on: a table from key to (value, expiry) and a clock.
    `SET key value EX ttl` writes an entry, `GET` reads a live one, `DEL` removes one. */
module SecretStore {
  import opened Wrappers

  /** The clock counts Go `time.Duration` units (nanoseconds). */
  const Second: nat := 1_000_000_000
  const Hour: nat := 3600 * Second

  /** `defaultTTL = 3 * 24 * time.Hour`. */
  const DefaultTTL: nat := 3 * 24 * Hour

  /** The error text go-redis returns for a GET of a key that has no live value. */
  const NilReply: string := "redis: nil"

  datatype Entry = Entry(value: string, expiresAt: int)

  type Table = map<string, Entry>

  /** An entry is visible until its expiry time; Redis treats a key as expired only once
      its clock has passed that time. */
  predicate Live(t: Table, now: int, key: string) {
    key in t && now <= t[key].expiresAt
  }

  /** What `GET key` answers when the server is reachable. */
  function Lookup(t: Table, now: int, key: string): Result<string> {
    if Live(t, now, key) then Ok(t[key].value) else Err(NilReply)
  }

  /** The table after `SET key value EX ttl` at time `now`. */
  function Set(t: Table, now: int, key: string, value: string): Table {
    t[key := Entry(value, now + DefaultTTL)]
  }

  /** The table after `DEL key`. */
  function Del(t: Table, key: string): Table {
    t - {key}
  }

  /** The store and its logical clock. A `fault` argument stands for a transport failure
      of the one network call an operation makes: the call then fails with that text and
      the table is left as it was. */
  class Store {
    var table: Table
    var now: nat

    constructor (start: nat)
      ensures table == map[] && now == start
    {
      table := map[];
      now := start;
    }

    /** `Put`: writes the entry without looking at any earlier one and passes the
        Set error through unchanged. */
    method Put(key: string, value: string, fault: Option<string>) returns (err: Option<string>)
      modifies this`table
      ensures err == fault
      ensures fault.None? ==> table == Set(old(table), now, key, value)
      ensures fault.Some? ==> table == old(table)
    {
      if fault.Some? {
        return fault;
      }
      table := table[key := Entry(value, now + DefaultTTL)];
      return None;
    }

    /** `Get`: the live value, or an error and no value. It changes nothing. */
    method Get(key: string, fault: Option<string>) returns (r: Result<string>)
      ensures r.Ok? <==> fault.None? && Live(table, now, key)
      ensures r.Ok? ==> r.value == table[key].value
      ensures r.Err? ==> r.msg == if fault.Some? then fault.value else NilReply
    {
      if fault.Some? {
        return Err(fault.value);
      }
      if key in table && now <= table[key].expiresAt {
        return Ok(table[key].value);
      }
      return Err(NilReply);
    }

    /** `Delete`: removes the key; a key that is absent is not an error. */
    method Delete(key: string, fault: Option<string>) returns (err: Option<string>)
      modifies this`table
      ensures err == fault
      ensures fault.None? ==> table == Del(old(table), key)
      ensures fault.Some? ==> table == old(table)
    {
      if fault.Some? {
        return fault;
      }
      table := table - {key};
      return None;
    }

    /** Time passes; Redis expires entries on its own. */
    method Advance(d: nat)
      modifies this`now
      ensures now == old(now) + d
    {
      now := now + d;
    }
  }

  // ---- Properties of single operations ----

  /** `defaultTTL` is 72 hours, that is 259200 seconds. */
  lemma DefaultTTLIs72Hours()
    ensures DefaultTTL == 72 * Hour == 259_200 * Second
    ensures DefaultTTL > 0
  {
  }

  /** After `Put`, `Get` returns exactly the stored value until the entry expires, and
      fails from the expiry time on. */
  lemma PutThenGet(t: Table, now: int, key: string, value: string, later: int)
    requires now <= later
    ensures later <= now + DefaultTTL ==> Lookup(Set(t, now, key, value), later, key) == Ok(value)
    ensures later > now + DefaultTTL ==> Lookup(Set(t, now, key, value), later, key) == Err(NilReply)
  {
  }

  /** `Put` overwrites: the later of two puts to one key is all that remains. */
  lemma PutOverwrites(t: Table, n1: int, n2: int, key: string, v1: string, v2: string)
    ensures Set(Set(t, n1, key, v1), n2, key, v2) == Set(t, n2, key, v2)
  {
  }

  /** After `Delete`, `Get` fails, and deleting twice is deleting once. */
  lemma DeleteThenGet(t: Table, now: int, key: string)
    ensures Lookup(Del(t, key), now, key) == Err(NilReply)
    ensures Del(Del(t, key), key) == Del(t, key)
  {
  }

  /** `Put` and `Delete` leave every other key's entry (value and expiry) as it was. */
  lemma OtherKeysUnchanged(t: Table, now: int, key: string, value: string, other: string)
    requires other != key
    ensures other in Set(t, now, key, value) <==> other in t
    ensures other in Del(t, key) <==> other in t
    ensures other in t ==> Set(t, now, key, value)[other] == t[other] && Del(t, key)[other] == t[other]
  {
  }

  /** A key never written, one already deleted and one expired all give the same answer. */
  lemma AbsenceIndistinguishable(t: Table, now: int, key: string, deleted: Table, expired: Table)
    requires key !in t
    requires key in expired && expired[key].expiresAt < now
    ensures Lookup(t, now, key) == Lookup(Del(deleted, key), now, key) == Lookup(expired, now, key)
  {
  }

  // ---- Histories of operations ----

  /** A successful call on the store; a call that failed in transport changes nothing and
      so is the same as leaving it out of a history. */
  datatype Op = PutOp(key: string, value: string) | GetOp(key: string) | DeleteOp(key: string) | AdvanceOp(d: nat)

  datatype State = State(table: Table, now: nat)

  function Step(s: State, op: Op): State {
    match op
    case PutOp(k, v) => State(Set(s.table, s.now, k, v), s.now)
    case GetOp(_) => s
    case DeleteOp(k) => State(Del(s.table, k), s.now)
    case AdvanceOp(d) => State(s.table, s.now + d)
  }

  function Run(s: State, ops: seq<Op>): State
    decreases |ops|
  {
    if ops == [] then s else Run(Step(s, ops[0]), ops[1..])
  }

  predicate NoPutOf(ops: seq<Op>, key: string) {
    forall i :: 0 <= i < |ops| ==> !(ops[i].PutOp? && ops[i].key == key)
  }

  predicate NoWriteOf(ops: seq<Op>, key: string) {
    forall i :: 0 <= i < |ops| ==> !((ops[i].PutOp? || ops[i].DeleteOp?) && ops[i].key == key)
  }

  /** The clock never goes back. */
  lemma {:induction false} ClockMonotone(s: State, ops: seq<Op>)
    ensures s.now <= Run(s, ops).now
    decreases |ops|
  {
    if ops != [] {
      ClockMonotone(Step(s, ops[0]), ops[1..]);
    }
  }

  /** Without a `Put` of `key`, the entry for `key` only loses time: whatever its expiry
      bound was, it stays bounded by it (or the entry is gone). */
  lemma {:induction false} NoPutKeepsBound(s: State, ops: seq<Op>, key: string, bound: int)
    requires NoPutOf(ops, key)
    requires key in s.table ==> s.table[key].expiresAt <= bound
    ensures key in Run(s, ops).table ==> Run(s, ops).table[key].expiresAt <= bound
    decreases |ops|
  {
    if ops != [] {
      assert !(ops[0].PutOp? && ops[0].key == key);
      NoPutKeepsBound(Step(s, ops[0]), ops[1..], key, bound);
    }
  }

  /** A history without a `Put` of `key` never creates it: an absent key stays absent. */
  lemma {:induction false} NoPutKeepsAbsent(s: State, ops: seq<Op>, key: string)
    requires NoPutOf(ops, key)
    requires key !in s.table
    ensures key !in Run(s, ops).table
    decreases |ops|
  {
    if ops != [] {
      assert !(ops[0].PutOp? && ops[0].key == key);
      NoPutKeepsAbsent(Step(s, ops[0]), ops[1..], key);
    }
  }

  /** Without a write of `key`, its entry stays exactly as it was. */
  lemma {:induction false} NoWriteKeepsEntry(s: State, ops: seq<Op>, key: string)
    requires NoWriteOf(ops, key)
    ensures key in Run(s, ops).table <==> key in s.table
    ensures key in s.table ==> Run(s, ops).table[key] == s.table[key]
    decreases |ops|
  {
    if ops != [] {
      assert !((ops[0].PutOp? || ops[0].DeleteOp?) && ops[0].key == key);
      NoWriteKeepsEntry(Step(s, ops[0]), ops[1..], key);
    }
  }

  /** Running two histories one after the other is running their concatenation. */
  lemma {:induction false} RunAppend(s: State, a: seq<Op>, b: seq<Op>)
    ensures Run(s, a + b) == Run(Run(s, a), b)
    decreases |a|
  {
    if a != [] {
      assert (a + b)[0] == a[0] && (a + b)[1..] == a[1..] + b;
      RunAppend(Step(s, a[0]), a[1..], b);
    } else {
      assert a + b == b;
    }
  }

  /** Read-once: a read of a live secret (`Get`, then `Delete` of its key) is the last
      successful one; every later `Get` of that key fails, whatever else happens, until
      the same key is written again. */
  lemma ReadOnce(s: State, key: string, later: seq<Op>)
    requires Live(s.table, s.now, key)
    requires NoPutOf(later, key)
    ensures Lookup(Run(s, [GetOp(key)]).table, s.now, key) == Ok(s.table[key].value)
    ensures Lookup(Run(s, [GetOp(key), DeleteOp(key)] + later).table, Run(s, [GetOp(key), DeleteOp(key)] + later).now, key) == Err(NilReply)
  {
    var read := [GetOp(key), DeleteOp(key)];
    RunAppend(s, read, later);
    assert read[1..] == [DeleteOp(key)] && [DeleteOp(key)][1..] == [];
    assert Step(s, GetOp(key)) == s;
    assert Run(s, read) == Run(s, [DeleteOp(key)]);
    assert Run(s, [DeleteOp(key)]) == Run(Step(s, DeleteOp(key)), []);
    assert Run(s, read) == Step(s, DeleteOp(key));
    NoPutKeepsAbsent(Step(s, DeleteOp(key)), later, key);
  }

  /** Expiry: a secret put at time t and never put again is gone from t + defaultTTL on,
      even if nobody reads it. */
  lemma ExpiresAfterTTL(s: State, key: string, value: string, later: seq<Op>)
    requires NoPutOf(later, key)
    requires Run(Step(s, PutOp(key, value)), later).now > s.now + DefaultTTL
    ensures Lookup(Run(Step(s, PutOp(key, value)), later).table, Run(Step(s, PutOp(key, value)), later).now, key) == Err(NilReply)
  {
    NoPutKeepsBound(Step(s, PutOp(key, value)), later, key, s.now + DefaultTTL);
  }

  /** Until it expires, a secret that nobody deleted or overwrote reads back unchanged. */
  lemma VisibleUntilExpiry(s: State, key: string, value: string, later: seq<Op>)
    requires NoWriteOf(later, key)
    requires Run(Step(s, PutOp(key, value)), later).now <= s.now + DefaultTTL
    ensures Lookup(Run(Step(s, PutOp(key, value)), later).table, Run(Step(s, PutOp(key, value)), later).now, key) == Ok(value)
  {
    NoWriteKeepsEntry(Step(s, PutOp(key, value)), later, key);
  }

  /** A secret that can no longer be read never becomes readable again, whatever time
      passes, unless it is put anew. */
  lemma ExpiredStaysExpired(s: State, key: string, later: seq<Op>)
    requires NoPutOf(later, key)
    requires !Live(s.table, s.now, key)
    ensures Lookup(Run(s, later).table, Run(s, later).now, key) == Err(NilReply)
  {
    ClockMonotone(s, later);
    if key in s.table {
      NoPutKeepsBound(s, later, key, s.table[key].expiresAt);
    } else {
      NoPutKeepsAbsent(s, later, key);
    }
  }
}
