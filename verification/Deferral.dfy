/**
 * The hashed deferral table (src/coordinator.cpp). Records are kept under a 64-bit hash of subject and
 * class; a record is recognised by its subject alone. The table is proved to be a sound cache of a map
 * from (subject, class) pairs to the number of deferrals since the record was made.
 */
module Deferral {
  import opened Ids
  import opened Traffic
  import opened Mixing

  /** What `defer_matches` compares of a subject. */
  datatype Party = ServingParty(request: Id, attempt: Id) | TransferParty(transfer: Id)

  datatype DeferRecord = DeferRecord(
    party: Party, traffic: TrafficClass, count: nat, first: int, last: int, protected: bool)

  /** A 64-bit hash, as the table is keyed by it. */
  datatype Key = Key(word: bv64)

  type Hash = (Party, TrafficClass) -> Key

  datatype Table = Table(hash: Hash, limit: nat, records: map<Key, DeferRecord>, streaming: nat)

  // ---------------------------------------------------------------------------------------------
  // The hash
  // ---------------------------------------------------------------------------------------------

  function ClassByte(c: TrafficClass): bv8 { ClassIndex(c) as bv8 }

  function ClassWord(c: TrafficClass): bv64 { ClassByte(c) as bv64 }

  function Seed(w: bv64): bv64 { w * 0x9E3779B97F4A7C15 + 0x165667B19E3779F9 }

  function PartyWord(p: Party): bv64 {
    match p
    case ServingParty(r, a) =>
      Mix64(Bits(r.high) ^ 0xD6E8FEB86659FD93) ^ Mix64(Bits(r.low) + 0x9E3779B97F4A7C15)
      ^ Mix64(Bits(a.high) + 0xBF58476D1CE4E5B9) ^ Mix64(Bits(a.low) ^ 0x94D049BB133111EB)
    case TransferParty(t) =>
      Mix64(Bits(t.high) + 0x2545F4914F6CDD1D) ^ Mix64(Bits(t.low) ^ 0x9E3779B97F4A7C15)
  }

  function Combine(x: bv64, y: bv64): bv64 { x ^ y }

  function DeferKey(p: Party, c: TrafficClass): Key {
    Key(Combine(Mix64(Seed(ClassWord(c))), PartyWord(p)))
  }

  lemma CombineInjective(x: bv64, y: bv64, w: bv64)
    requires Combine(x, w) == Combine(y, w)
    ensures x == y
  {
    assert (x ^ w) ^ w == x && (y ^ w) ^ w == y;
  }

  function Unseed(s: bv64): bv64 { (s - 0x165667B19E3779F9) * 0xF1DE83E19937733D }

  lemma SeedInvertible(w: bv64)
    ensures Unseed(Seed(w)) == w
  {
    calc {
      Unseed(Seed(w));
      Unseed(w * 0x9E3779B97F4A7C15 + 0x165667B19E3779F9);
      ((w * 0x9E3779B97F4A7C15 + 0x165667B19E3779F9) - 0x165667B19E3779F9) * 0xF1DE83E19937733D;
      w;
    }
  }

  lemma SmallRound(i: int)
    requires 0 <= i < 12
    ensures (i as bv8) as int == i
  {
  }

  lemma WidenInjective(x: bv8, y: bv8)
    requires x as bv64 == y as bv64
    ensures x == y
  {
  }

  lemma ClassWordsDiffer(c: TrafficClass, d: TrafficClass)
    requires ClassWord(c) == ClassWord(d)
    ensures c == d
  {
    WidenInjective(ClassByte(c), ClassByte(d));
    SmallRound(ClassIndex(c));
    SmallRound(ClassIndex(d));
    ClassIndexInjective(c, d);
  }

  /** One party never has two classes under the same key. */
  ghost predicate SeparatesClasses(hash: Hash) {
    forall p, c, d {:trigger At((p, c, d))} :: At((p, c, d)) && hash(p, c) == hash(p, d) ==> c == d
  }

  lemma DeferKeySeparatesClasses()
    ensures SeparatesClasses(DeferKey)
  {
    forall p, c, d | DeferKey(p, c) == DeferKey(p, d)
      ensures c == d
    {
      CombineInjective(Mix64(Seed(ClassWord(c))), Mix64(Seed(ClassWord(d))), PartyWord(p));
      MixInjective(Seed(ClassWord(c)), Seed(ClassWord(d)));
      SeedInvertible(ClassWord(c));
      SeedInvertible(ClassWord(d));
      ClassWordsDiffer(c, d);
    }
  }

  // ---------------------------------------------------------------------------------------------
  // The table
  // ---------------------------------------------------------------------------------------------

  function Drop(t: Table, key: Key): Table
    requires key in t.records
  {
    t.(records := t.records - {key},
       streaming := if t.records[key].protected then Monus(t.streaming, 1) else t.streaming)
  }

  /** The iteration order of the source's hash table is unspecified; `choice` stands for it. */
  ghost function Victim(t: Table, choice: Key): (key: Key)
    requires t.records != map[]
    ensures key in t.records
  {
    if choice in t.records then choice
    else
      assert exists key :: key in t.records;
      var key :| key in t.records; key
  }

  /** `evict_defer_records_locked`: retires one record. */
  ghost function EvictOne(t: Table, choice: Key): Table {
    if t.records == map[] then t else Drop(t, Victim(t, choice))
  }

  /** A record of another party under the same key is displaced. */
  function Displace(t: Table, p: Party, c: TrafficClass): Table {
    var key := t.hash(p, c);
    if key in t.records && t.records[key].party != p then Drop(t, key) else t
  }

  ghost function MakeRoom(t: Table, choice: Key): Table {
    if |t.records| >= t.limit then EvictOne(t, choice) else t
  }

  function Insert(t: Table, key: Key, r: DeferRecord): Table {
    t.(records := t.records[key := r],
       streaming := if r.protected then t.streaming + 1 else t.streaming)
  }

  /** `note_defer_locked`: the table after one more deferral of the pair. */
  ghost function Note(t: Table, p: Party, c: TrafficClass, protected: bool, now: int, choice: Key): Table {
    var key := t.hash(p, c);
    var t1 := Displace(t, p, c);
    if key in t1.records then
      var r := t1.records[key];
      t1.(records := t1.records[key := r.(count := r.count + 1, last := now)])
    else
      Insert(MakeRoom(t1, choice), key, DeferRecord(p, c, 1, now, now, protected))
  }

  function Clear(t: Table, p: Party, c: TrafficClass): Table {
    var key := t.hash(p, c);
    if key in t.records && t.records[key].party == p then Drop(t, key) else t
  }

  /** How often the table believes the pair was deferred; the stored class is not consulted. */
  function Deferrals(t: Table, p: Party, c: TrafficClass): nat {
    var key := t.hash(p, c);
    if key in t.records && t.records[key].party == p then t.records[key].count else 0
  }

  // ---------------------------------------------------------------------------------------------
  // Invariant
  // ---------------------------------------------------------------------------------------------

  function Protected(records: map<Key, DeferRecord>): set<Key> {
    set key | key in records && records[key].protected
  }

  /** Every record is filed under its own pair's key, and has been deferred at least once. */
  ghost predicate WellFiled(hash: Hash, records: map<Key, DeferRecord>) {
    forall key | key in records ::
      hash(records[key].party, records[key].traffic) == key && records[key].count >= 1
  }

  ghost predicate TableOk(t: Table) {
    && SeparatesClasses(t.hash)
    && WellFiled(t.hash, t.records)
    && t.streaming == |Protected(t.records)|
    && |t.records| <= Max(t.limit, 1)
  }

  /** The pair a record is kept for is the pair it is found under. */
  lemma FoundUnderItsClass(t: Table, p: Party, c: TrafficClass)
    requires TableOk(t) && t.hash(p, c) in t.records && t.records[t.hash(p, c)].party == p
    ensures t.records[t.hash(p, c)].traffic == c
  {
    assert At((p, t.records[t.hash(p, c)].traffic, c));
  }

  lemma DropProtected(records: map<Key, DeferRecord>, key: Key)
    requires key in records
    ensures |Protected(records - {key})| == |Protected(records)| - (if records[key].protected then 1 else 0)
    ensures |records - {key}| == |records| - 1
  {
    assert Protected(records - {key}) == Protected(records) - {key};
    assert (records - {key}).Keys == records.Keys - {key};
  }

  lemma PutProtected(records: map<Key, DeferRecord>, key: Key, r: DeferRecord)
    requires key !in records
    ensures |Protected(records[key := r])| == |Protected(records)| + (if r.protected then 1 else 0)
    ensures |records[key := r]| == |records| + 1
  {
    var more := records[key := r];
    if r.protected {
      assert Protected(more) == Protected(records) + {key};
    } else {
      assert Protected(more) == Protected(records);
    }
  }

  /** Dropping a record keeps the table; its zero guard never acts. */
  lemma DropOk(t: Table, key: Key)
    requires TableOk(t) && key in t.records
    ensures TableOk(Drop(t, key)) && |Drop(t, key).records| == |t.records| - 1
    ensures t.records[key].protected ==> t.streaming > 0
  {
    DropProtected(t.records, key);
  }

  lemma InsertOk(t: Table, key: Key, r: DeferRecord)
    requires TableOk(t) && key !in t.records && |t.records| < Max(t.limit, 1)
    requires t.hash(r.party, r.traffic) == key && r.count >= 1
    ensures TableOk(Insert(t, key, r))
  {
    PutProtected(t.records, key, r);
  }

  lemma EmptyTableOk(hash: Hash, limit: nat)
    requires SeparatesClasses(hash)
    ensures TableOk(Table(hash, limit, map[], 0))
  {
    var records: map<Key, DeferRecord> := map[];
    assert Protected(records) == {};
  }

  lemma MakeRoomOk(t: Table, choice: Key)
    requires TableOk(t)
    ensures TableOk(MakeRoom(t, choice)) && |MakeRoom(t, choice).records| < Max(t.limit, 1)
    ensures MakeRoom(t, choice).records.Keys <= t.records.Keys
  {
    if |t.records| >= t.limit && t.records != map[] {
      DropOk(t, Victim(t, choice));
    }
  }

  lemma DisplaceOk(t: Table, p: Party, c: TrafficClass)
    requires TableOk(t)
    ensures TableOk(Displace(t, p, c))
    ensures var key := t.hash(p, c);
      key in Displace(t, p, c).records <==> key in t.records && t.records[key].party == p
  {
    var key := t.hash(p, c);
    if key in t.records && t.records[key].party != p { DropOk(t, key); }
  }

  lemma NoteOk(t: Table, p: Party, c: TrafficClass, protected: bool, now: int, choice: Key)
    requires TableOk(t)
    ensures TableOk(Note(t, p, c, protected, now, choice))
  {
    DisplaceOk(t, p, c);
    var key, t1 := t.hash(p, c), Displace(t, p, c);
    if key in t1.records {
      BumpOk(t1, key, now);
    } else {
      MakeRoomOk(t1, choice);
      InsertOk(MakeRoom(t1, choice), key, DeferRecord(p, c, 1, now, now, protected));
    }
  }

  lemma BumpOk(t: Table, key: Key, now: int)
    requires TableOk(t) && key in t.records
    ensures var r := t.records[key];
      TableOk(t.(records := t.records[key := r.(count := r.count + 1, last := now)]))
  {
    var r := t.records[key];
    var bumped := t.records[key := r.(count := r.count + 1, last := now)];
    assert Protected(bumped) == Protected(t.records);
    assert bumped.Keys == t.records.Keys;
    assert |bumped| == |bumped.Keys| == |t.records.Keys| == |t.records|;
  }

  lemma ClearOk(t: Table, p: Party, c: TrafficClass)
    requires TableOk(t)
    ensures TableOk(Clear(t, p, c))
  {
    var key := t.hash(p, c);
    if key in t.records && t.records[key].party == p { DropOk(t, key); }
  }

  // ---------------------------------------------------------------------------------------------
  // A sound cache
  // ---------------------------------------------------------------------------------------------

  /** One more deferral of the pair itself. */
  lemma NoteCounts(t: Table, p: Party, c: TrafficClass, protected: bool, now: int, choice: Key)
    requires TableOk(t)
    ensures Deferrals(Note(t, p, c, protected, now, choice), p, c) == Deferrals(t, p, c) + 1
  {
  }

  lemma DropSpares(t: Table, key: Key, q: Party, d: TrafficClass)
    requires key in t.records
    ensures Deferrals(Drop(t, key), q, d) == if key == t.hash(q, d) then 0 else Deferrals(t, q, d)
  {
  }

  lemma MakeRoomSpares(t: Table, choice: Key, q: Party, d: TrafficClass)
    ensures var t' := MakeRoom(t, choice);
      && t'.hash == t.hash
      && Deferrals(t', q, d) == if |t.records| >= t.limit && t.records != map[]
                                   && Victim(t, choice) == t.hash(q, d) then 0
                                else Deferrals(t, q, d)
  {
    if |t.records| >= t.limit && t.records != map[] { DropSpares(t, Victim(t, choice), q, d); }
  }

  lemma DisplaceSpares(t: Table, p: Party, c: TrafficClass, q: Party, d: TrafficClass)
    requires TableOk(t) && (p, c) != (q, d)
    ensures Displace(t, p, c).hash == t.hash && Displace(t, p, c).limit == t.limit
    ensures Deferrals(Displace(t, p, c), q, d) ==
            if t.hash(q, d) == t.hash(p, c) then 0 else Deferrals(t, q, d)
  {
    assert At((p, c, d));
    var key := t.hash(p, c);
    if key in t.records && t.records[key].party != p { DropSpares(t, key, q, d); }
  }

  lemma PutSpares(t: Table, key: Key, r: DeferRecord, q: Party, d: TrafficClass)
    requires key != t.hash(q, d) || (r.party != q && Deferrals(t, q, d) == 0)
    ensures Deferrals(t.(records := t.records[key := r]), q, d) == Deferrals(t, q, d)
    ensures Deferrals(Insert(t, key, r), q, d) == Deferrals(t, q, d)
  {
  }

  lemma SamePartyOtherKey(t: Table, p: Party, c: TrafficClass, q: Party, d: TrafficClass)
    requires TableOk(t) && (p, c) != (q, d)
    ensures t.hash(p, c) == t.hash(q, d) ==> p != q
  {
    assert At((p, c, d));
  }

  lemma BumpSpares(t: Table, t1: Table, p: Party, c: TrafficClass, protected: bool, now: int, choice: Key,
                   q: Party, d: TrafficClass)
    requires t1 == Displace(t, p, c) && t1.hash == t.hash && t.hash(p, c) in t1.records
    requires t1.records[t.hash(p, c)].party == p
    requires t.hash(p, c) == t.hash(q, d) ==> p != q && Deferrals(t1, q, d) == 0
    ensures Deferrals(Note(t, p, c, protected, now, choice), q, d) == Deferrals(t1, q, d)
  {
    var key := t.hash(p, c);
    PutSpares(t1, key, t1.records[key].(count := t1.records[key].count + 1, last := now), q, d);
  }

  lemma FreshSpares(t: Table, t1: Table, p: Party, c: TrafficClass, protected: bool, now: int, choice: Key,
                    q: Party, d: TrafficClass)
    requires t1 == Displace(t, p, c) && t1.hash == t.hash && t1.limit == t.limit
    requires t.hash(p, c) !in t1.records
    requires t.hash(p, c) == t.hash(q, d) ==> p != q && Deferrals(t1, q, d) == 0
    ensures Deferrals(Note(t, p, c, protected, now, choice), q, d) ==
            if |t1.records| >= t.limit && t1.records != map[] && Victim(t1, choice) == t.hash(q, d) then 0
            else Deferrals(t1, q, d)
  {
    MakeRoomSpares(t1, choice, q, d);
    PutSpares(MakeRoom(t1, choice), t.hash(p, c), DeferRecord(p, c, 1, now, now, protected), q, d);
  }

  /** Deferring a pair again touches no other pair. */
  lemma NotedAgainSpares(t: Table, p: Party, c: TrafficClass, protected: bool, now: int, choice: Key,
                         q: Party, d: TrafficClass)
    requires TableOk(t) && (p, c) != (q, d) && t.hash(p, c) in Displace(t, p, c).records
    ensures Deferrals(Note(t, p, c, protected, now, choice), q, d) == Deferrals(t, q, d)
  {
    DisplaceOk(t, p, c);
    DisplaceSpares(t, p, c, q, d);
    SamePartyOtherKey(t, p, c, q, d);
    BumpSpares(t, Displace(t, p, c), p, c, protected, now, choice, q, d);
  }

  /** Deferring a pair for the first time costs another its record only by collision or eviction. */
  lemma NotedFirstSpares(t: Table, p: Party, c: TrafficClass, protected: bool, now: int, choice: Key,
                         q: Party, d: TrafficClass)
    requires TableOk(t) && t.hash(q, d) != t.hash(p, c) && t.hash(p, c) !in Displace(t, p, c).records
    ensures var t1 := Displace(t, p, c);
      Deferrals(Note(t, p, c, protected, now, choice), q, d) ==
      if |t1.records| >= t.limit && t1.records != map[] && Victim(t1, choice) == t.hash(q, d) then 0
      else Deferrals(t, q, d)
  {
    DisplaceSpares(t, p, c, q, d);
    FreshSpares(t, Displace(t, p, c), p, c, protected, now, choice, q, d);
  }

  /**
   * Deferring (q, d) takes the record of (p, c): it makes a new record, and either both pairs share a key
   * or the table is full and the record of (p, c) is the one retired.
   */
  ghost predicate Takes(t: Table, q: Party, d: TrafficClass, choice: Key, p: Party, c: TrafficClass) {
    var t1 := Displace(t, q, d);
    && t.hash(q, d) !in t1.records
    && (|| t.hash(q, d) == t.hash(p, c)
        || (|t1.records| >= t.limit && t1.records != map[] && Victim(t1, choice) == t.hash(p, c)))
  }

  /** Another pair's deferral forgets this pair's exactly when it takes its record. */
  lemma NoteTakesExactly(t: Table, q: Party, d: TrafficClass, protected: bool, now: int, choice: Key,
                         p: Party, c: TrafficClass)
    requires TableOk(t) && (q, d) != (p, c)
    ensures Deferrals(Note(t, q, d, protected, now, choice), p, c) ==
            if Takes(t, q, d, choice, p, c) then 0 else Deferrals(t, p, c)
  {
    if t.hash(q, d) in Displace(t, q, d).records {
      NotedAgainSpares(t, q, d, protected, now, choice, p, c);
    } else if t.hash(q, d) == t.hash(p, c) {
      NotedOverForgets(t, q, d, protected, now, choice, p, c);
    } else {
      NotedNewTakes(t, q, d, protected, now, choice, p, c);
    }
  }

  lemma NotedNewTakes(t: Table, q: Party, d: TrafficClass, protected: bool, now: int, choice: Key,
                      p: Party, c: TrafficClass)
    requires TableOk(t) && t.hash(q, d) != t.hash(p, c) && t.hash(q, d) !in Displace(t, q, d).records
    ensures Deferrals(Note(t, q, d, protected, now, choice), p, c) ==
            if Takes(t, q, d, choice, p, c) then 0 else Deferrals(t, p, c)
  {
    NotedFirstSpares(t, q, d, protected, now, choice, p, c);
  }

  lemma NotedOverForgets(t: Table, q: Party, d: TrafficClass, protected: bool, now: int, choice: Key,
                         p: Party, c: TrafficClass)
    requires TableOk(t) && (q, d) != (p, c) && t.hash(q, d) == t.hash(p, c)
    ensures Deferrals(Note(t, q, d, protected, now, choice), p, c) == 0
  {
    SamePartyOtherKey(t, q, d, p, c);
    NoteFiles(t, q, d, protected, now, choice);
  }

  lemma NoteFiles(t: Table, p: Party, c: TrafficClass, protected: bool, now: int, choice: Key)
    requires TableOk(t)
    ensures var t' := Note(t, p, c, protected, now, choice);
      t'.hash == t.hash && t.hash(p, c) in t'.records && t'.records[t.hash(p, c)].party == p
  {
    DisplaceOk(t, p, c);
  }

  lemma ClearForgets(t: Table, p: Party, c: TrafficClass, q: Party, d: TrafficClass)
    requires TableOk(t)
    ensures Deferrals(Clear(t, p, c), q, d) == if (q, d) == (p, c) then 0 else Deferrals(t, q, d)
  {
    var key := t.hash(p, c);
    if (q, d) != (p, c) { SamePartyOtherKey(t, p, c, q, d); }
    if key in t.records && t.records[key].party == p { DropSpares(t, key, q, d); }
  }

  // ---------------------------------------------------------------------------------------------
  // Runs of the table
  // ---------------------------------------------------------------------------------------------

  datatype Event =
    | Deferring(party: Party, traffic: TrafficClass, protected: bool, now: int, choice: Key)
    | Clearing(party: Party, traffic: TrafficClass)

  ghost function Apply(t: Table, e: Event): Table {
    match e
    case Deferring(p, c, protected, now, choice) => Note(t, p, c, protected, now, choice)
    case Clearing(p, c) => Clear(t, p, c)
  }

  ghost function ApplyAll(t: Table, es: seq<Event>): Table
    decreases |es|
  {
    if es == [] then t else ApplyAll(Apply(t, es[0]), es[1..])
  }

  /** No event about another pair takes the pair's record, by a shared key or by eviction. */
  ghost predicate NeverLost(t: Table, es: seq<Event>, p: Party, c: TrafficClass)
    decreases |es|
  {
    es != [] ==>
      && (es[0].Deferring? && (es[0].party, es[0].traffic) != (p, c) ==>
            !Takes(t, es[0].party, es[0].traffic, es[0].choice, p, c))
      && NeverLost(Apply(t, es[0]), es[1..], p, c)
  }

  /** What a map keyed by the pair would hold. */
  function Real(n: nat, es: seq<Event>, p: Party, c: TrafficClass): nat
    decreases |es|
  {
    if es == [] then n
    else if (es[0].party, es[0].traffic) != (p, c) then Real(n, es[1..], p, c)
    else if es[0].Deferring? then Real(n + 1, es[1..], p, c)
    else Real(0, es[1..], p, c)
  }

  /** The hashed table agrees with the exact map over every run in which nothing takes the record. */
  lemma {:induction false} TableIsSoundCache(t: Table, es: seq<Event>, p: Party, c: TrafficClass)
    requires TableOk(t) && NeverLost(t, es, p, c)
    ensures TableOk(ApplyAll(t, es))
    ensures Deferrals(ApplyAll(t, es), p, c) == Real(Deferrals(t, p, c), es, p, c)
    decreases |es|
  {
    if es == [] {
    } else {
      ApplySound(t, es[0], p, c);
      TableIsSoundCache(Apply(t, es[0]), es[1..], p, c);
    }
  }

  lemma ApplySound(t: Table, e: Event, p: Party, c: TrafficClass)
    requires TableOk(t)
    ensures TableOk(Apply(t, e))
    ensures Deferrals(Apply(t, e), p, c) ==
            if (e.party, e.traffic) == (p, c) then (if e.Deferring? then Deferrals(t, p, c) + 1 else 0)
            else if e.Deferring? && Takes(t, e.party, e.traffic, e.choice, p, c) then 0
            else Deferrals(t, p, c)
  {
    match e
    case Deferring(q, d, protected, now, choice) =>
      NoteOk(t, q, d, protected, now, choice);
      NoteCounts(t, q, d, protected, now, choice);
      if (q, d) != (p, c) { NoteTakesExactly(t, q, d, protected, now, choice, p, c); }
    case Clearing(q, d) =>
      ClearOk(t, q, d);
      ClearForgets(t, q, d, p, c);
  }
}
