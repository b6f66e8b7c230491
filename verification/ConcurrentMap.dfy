/** ConcurrentMap: every operation is one critical section over an ordered map.

    `Body` says what an operation does to the map; the methods of the class are proved against it, and
    `Linearizable` shows that threads which take the lock in turn get what the same operations give
    when run one after another in the order the lock was taken. */
module ConcurrentMap {
  import opened FiniteSets

  /** Keys are ordered by their number. */
  datatype Key = Key(number: int)

  /** A callback over an entry: its answer, and the value as it leaves it. */
  type Action<!V> = (Key, V) -> (bool, V)

  datatype Operation<!V> =
    | Find(key: Key)
    | Contains(key: Key)
    | InsertOrAssign(key: Key, value: V)
    | Insert(key: Key, value: V)
    | Erase(key: Key)
    | Clear
    | Empty
    | Size
    | EraseIf(action: Action<V>)
    | ForEach(action: Action<V>)
    | Compute(key: Key, blank: V, action: Action<V>)
    | ComputeIfPresent(key: Key, action: Action<V>)
    | ComputeIfAbsent(key: Key, maker: Key -> V)

  datatype Answer<+V> = Yes | No | Done | Count(n: nat) | Value(value: V)

  function Bool<V>(b: bool): Answer<V> {
    if b then Yes else No
  }

  /** A position in the key order of a map. */
  datatype Cursor = End | At(key: Key)

  predicate Precedes(k: Key, c: Cursor) {
    c.End? || k.number < c.key.number
  }

  /** `c` is the least of the keys in `s`, or the end if there is none. */
  ghost predicate IsFirst(s: set<Key>, c: Cursor) {
    match c
    case End => s == {}
    case At(key) => key in s && forall k :: k in s ==> key.number <= k.number
  }

  lemma {:induction false} FirstExists(s: set<Key>) returns (c: Cursor)
    ensures IsFirst(s, c)
  {
    if s == {} {
      c := End;
    } else {
      var x :| x in s;
      var rest := FirstExists(s - {x});
      c := if rest.End? || x.number < rest.key.number then At(x) else rest;
      forall k | k in s ensures c.key.number <= k.number {
        assert k == x || k in s - {x};
      }
    }
  }

  ghost function First(s: set<Key>): (c: Cursor)
    ensures IsFirst(s, c)
  {
    assert exists c :: IsFirst(s, c) by {
      var c := FirstExists(s);
    }
    var c :| IsFirst(s, c);
    c
  }

  lemma FirstIsUnique(s: set<Key>, c: Cursor)
    requires IsFirst(s, c)
    ensures c == First(s)
  {
  }

  /** What EraseIf keeps: the entries the action answers false for, as the action leaves them. */
  function KeptBy<V>(m: map<Key, V>, action: Action<V>): map<Key, V> {
    map k | k in m && !action(k, m[k]).0 :: action(k, m[k]).1
  }

  /** The keys whose visit stops a ForEach. */
  function Stops<V>(m: map<Key, V>, action: Action<V>): set<Key> {
    set k | k in m && action(k, m[k]).0
  }

  /** What ForEach leaves: entries up to and including the first stop are as the action leaves them. */
  ghost function Visited<V>(m: map<Key, V>, action: Action<V>): map<Key, V> {
    var stop := First(Stops(m, action));
    map k | k in m :: if Precedes(k, stop) || stop == At(k) then action(k, m[k]).1 else m[k]
  }

  ghost function Body<V>(op: Operation<V>, m: map<Key, V>): (map<Key, V>, Answer<V>) {
    match op
    case Find(key) => (m, if key in m then Value(m[key]) else No)
    case Contains(key) => (m, Bool(key in m))
    case InsertOrAssign(key, value) => (m[key := value], Bool(key !in m))
    case Insert(key, value) => if key in m then (m, No) else (m[key := value], Yes)
    case Erase(key) => (m - {key}, Count(if key in m then 1 else 0))
    case Clear => (map[], Done)
    case Empty => (m, Bool(m == map[]))
    case Size => (m, Count(|m|))
    case EraseIf(action) => KeptFits(m, action); (KeptBy(m, action), Count(|m| - |KeptBy(m, action)|))
    case ForEach(action) => (Visited(m, action), Done)
    case Compute(key, blank, action) =>
      var (keep, value) := action(key, if key in m then m[key] else blank);
      (if keep then m[key := value] else m - {key}, Yes)
    case ComputeIfPresent(key, action) =>
      if key !in m then (m, No)
      else
        var (keep, value) := action(key, m[key]);
        (if keep then m[key := value] else m - {key}, Yes)
    case ComputeIfAbsent(key, maker) => if key in m then (m, No) else (m[key := maker(key)], Yes)
  }

  lemma KeptFits<V>(m: map<Key, V>, action: Action<V>)
    ensures |KeptBy(m, action)| <= |m|
  {
    SubsetSize(KeptBy(m, action).Keys, m.Keys);
  }

  lemma BodyErases<V>(m: map<Key, V>, action: Action<V>)
    ensures |KeptBy(m, action)| <= |m|
    ensures Body(EraseIf(action), m) == (KeptBy(m, action), Count(|m| - |KeptBy(m, action)|))
  {
    KeptFits(m, action);
  }

  /** EraseIf reports how many entries its action answered true for. */
  lemma EraseIfCounts<V>(m: map<Key, V>, action: Action<V>)
    ensures |m| - |KeptBy(m, action)| == |Stops(m, action)|
  {
    var kept, gone := KeptBy(m, action).Keys, Stops(m, action);
    assert kept + gone == m.Keys && kept !! gone;
    assert |kept + gone| == |kept| + |gone|;
  }

  // ----- what one operation means for the next -----

  /** What a lookup answers. */
  ghost function Found<V>(key: Key, m: map<Key, V>): Answer<V> {
    Body(Operation.Find(key), m).1
  }

  /** The map after an operation. */
  ghost function After<V>(op: Operation<V>, m: map<Key, V>): map<Key, V> {
    Body(op, m).0
  }

  /** A new map has no value for any key, a lookup gives back the value last assigned to its key, and two maps
      with the same lookups are the same. */
  lemma FindIsTheMap<V>(key: Key, value: V, m: map<Key, V>, n: map<Key, V>)
    ensures Found<V>(key, map[]) == No
    ensures Found(key, After(Operation.InsertOrAssign(key, value), m)) == Value(value)
    ensures (forall k :: Found(k, m) == Found(k, n)) <==> m == n
  {
    if forall k :: Found(k, m) == Found(k, n) {
      forall k ensures (k in m <==> k in n) && (k in m ==> m[k] == n[k]) {
        assert Found(k, m) == Found(k, n);
      }
      assert m.Keys == n.Keys;
    }
  }

  /** Assigning, inserting, erasing and clearing: what a lookup of any key finds afterwards. */
  lemma FindAfterUpdate<V>(key: Key, other: Key, value: V, m: map<Key, V>)
    ensures Found(other, After(Operation.InsertOrAssign(key, value), m)) ==
            if other == key then Value(value) else Found(other, m)
    ensures Found(other, After(Operation.Insert(key, value), m)) ==
            if other == key && Found(key, m) == No then Value(value) else Found(other, m)
    ensures Found(other, After(Operation.Erase(key), m)) == if other == key then No else Found(other, m)
    ensures Found(other, After(Operation.Clear, m)) == No
  {
  }

  /** The callbacks over one entry: what a lookup of any key finds afterwards. */
  lemma FindAfterCompute<V>(key: Key, other: Key, blank: V, action: Action<V>, maker: Key -> V, m: map<Key, V>)
    ensures var found := Found(key, m);
            var asked := action(key, if found.Value? then found.value else blank);
            Found(other, After(Operation.Compute(key, blank, action), m)) ==
            if other != key then Found(other, m) else if asked.0 then Value(asked.1) else No
    ensures Found(key, m).Value? ==>
              var asked := action(key, Found(key, m).value);
              Found(other, After(Operation.ComputeIfPresent(key, action), m)) ==
              if other != key then Found(other, m) else if asked.0 then Value(asked.1) else No
    ensures Found(key, m) == No ==>
              Found(other, After(Operation.ComputeIfPresent(key, action), m)) == Found(other, m)
    ensures Found(other, After(Operation.ComputeIfAbsent(key, maker), m)) ==
            if other == key && Found(key, m) == No then Value(maker(key)) else Found(other, m)
  {
  }

  /** The callbacks over all entries: EraseIf removes those its action is true for and keeps the others as the
      action leaves them; ForEach rewrites entries up to the first, in key order, whose visit answers true. */
  lemma FindAfterIteration<V>(other: Key, action: Action<V>, m: map<Key, V>)
    ensures Found(other, m) == No ==>
              Found(other, After(EraseIf(action), m)) == No && Found(other, After(ForEach(action), m)) == No
    ensures Found(other, m).Value? ==>
              var asked := action(other, Found(other, m).value);
              Found(other, After(EraseIf(action), m)) == if asked.0 then No else Value(asked.1)
    ensures Found(other, m).Value? ==>
              Found(other, After(ForEach(action), m)) ==
              if exists k: Key :: k.number < other.number && Found(k, m).Value? && action(k, Found(k, m).value).0 then
                Found(other, m)
              else
                Value(action(other, Found(other, m).value).1)
  {
    BodyErases(m, action);
    var stop := First(Stops(m, action));
    forall k: Key | k.number < other.number && Found(k, m).Value? && action(k, Found(k, m).value).0
      ensures !Precedes(other, stop) && stop != At(other)
    {
      assert k in Stops(m, action);
    }
    if stop.At? && stop.key.number < other.number {
      assert Found(stop.key, m).Value? && action(stop.key, Found(stop.key, m).value).0;
    }
  }

  /** What only reads leaves the map alone and tells what lookups find. */
  lemma ReadsTell<V>(key: Key, m: map<Key, V>)
    ensures Body(Contains(key), m) == (m, if Found(key, m) == No then No else Yes)
    ensures Body(Empty, m) == (m, if forall k :: Found(k, m) == No then Yes else No)
    ensures After(Operation.Find(key), m) == m && After(Size, m) == m
  {
    if m == map[] {
      assert forall k :: Found(k, m) == No;
    } else {
      var k :| k in m;
      assert Found(k, m) != No;
    }
  }

  /** What changes the map answers whether it found the key. */
  lemma AnswersTell<V>(key: Key, value: V, blank: V, action: Action<V>, maker: Key -> V, m: map<Key, V>)
    ensures Body(Operation.InsertOrAssign(key, value), m).1 == Body(Operation.Insert(key, value), m).1
    ensures Body(Operation.Insert(key, value), m).1 == if Found(key, m) == No then Yes else No
    ensures Body(Operation.Erase(key), m).1 == if Found(key, m) == No then Count(0) else Count(1)
    ensures Body(Operation.Compute(key, blank, action), m).1 == Yes
    ensures Body(Operation.ComputeIfPresent(key, action), m).1 == if Found(key, m) == No then No else Yes
    ensures Body(Operation.ComputeIfAbsent(key, maker), m).1 == if Found(key, m) == No then Yes else No
    ensures Body(Clear, m).1 == Done && Body(ForEach(action), m).1 == Done
  {
  }

  /** Size counts the entries: none in a new map, one more with each new key, one fewer with each erased one,
      and EraseIf answers by how many it got smaller. */
  lemma SizeCounts<V>(key: Key, value: V, action: Action<V>, m: map<Key, V>)
    ensures Body<V>(Size, map[]).1 == Count(0)
    ensures Found(key, m) == No ==>
              Body(Size, After(Operation.Insert(key, value), m)).1 == Count(Body(Size, m).1.n + 1) &&
              Body(Size, After(Operation.Erase(key), After(Operation.Insert(key, value), m))).1 == Body(Size, m).1
    ensures Body(EraseIf(action), m).1.Count? && Body(Size, m).1.Count? &&
            Body(Size, After(EraseIf(action), m)).1 == Count(Body(Size, m).1.n - Body(EraseIf(action), m).1.n)
  {
    BodyErases(m, action);
    assert key !in m ==> m[key := value] - {key} == m;
  }

  // ----- erasing in key order -----

  /** The keys before a position, in ascending order. */
  ghost predicate AskedUpTo<V>(asked: seq<Key>, m: map<Key, V>, it: Cursor) {
    (forall i, j :: 0 <= i < j < |asked| ==> asked[i].number < asked[j].number) &&
    (forall k :: k in asked <==> k in m && Precedes(k, it))
  }

  lemma AskedOneMore<V>(asked: seq<Key>, m: map<Key, V>, before: Cursor, it: Cursor)
    requires before.At? && before.key in m && AskedUpTo(asked, m, before)
    requires forall k :: k in m ==> (Precedes(k, it) <==> Precedes(k, before) || k == before.key)
    ensures AskedUpTo(asked + [before.key], m, it)
  {
    assert forall i :: 0 <= i < |asked| ==> asked[i] in asked;
  }

  lemma AskedNone<V>(m: map<Key, V>, it: Cursor)
    requires IsFirst(m.Keys, it)
    ensures AskedUpTo([], m, it)
  {
  }

  lemma AskedAll<V>(asked: seq<Key>, m: map<Key, V>)
    requires AskedUpTo(asked, m, End)
    ensures forall i, j :: 0 <= i < j < |asked| ==> asked[i].number < asked[j].number
    ensures forall k :: k in asked <==> k in m
  {
  }

  /** Before the position only the entries the action kept remain; from there on all are as they were. */
  ghost predicate Midway<V>(e: map<Key, V>, m: map<Key, V>, action: Action<V>, it: Cursor) {
    (forall k :: k in e <==> k in m && (Precedes(k, it) ==> !action(k, m[k]).0)) &&
    (forall k :: k in e ==> e[k] == if Precedes(k, it) then action(k, m[k]).1 else m[k])
  }

  lemma MidwayOneMore<V>(e: map<Key, V>, m: map<Key, V>, action: Action<V>, before: Cursor, it: Cursor)
    requires before.At? && before.key in m && Midway(e, m, action, before)
    requires forall k :: k in m ==> (Precedes(k, it) <==> Precedes(k, before) || k == before.key)
    ensures var (gone, v) := action(before.key, m[before.key]);
            Midway(if gone then e[before.key := v] - {before.key} else e[before.key := v], m, action, it)
  {
  }

  lemma MidwayHere<V>(e: map<Key, V>, m: map<Key, V>, action: Action<V>, it: Cursor)
    requires it.At? && it.key in m && Midway(e, m, action, it)
    ensures it.key in e && e[it.key] == m[it.key]
    ensures !Precedes(it.key, it)
  {
  }

  lemma PrecedesFirst(s: set<Key>, it: Cursor)
    requires IsFirst(s, it)
    ensures forall k :: k in s ==> !Precedes(k, it)
    ensures it.At? ==> it.key in s
  {
  }

  lemma MidwayDone<V>(e: map<Key, V>, m: map<Key, V>, action: Action<V>)
    requires Midway(e, m, action, End)
    ensures e == KeptBy(m, action)
  {
  }

  lemma MidwayStart<V>(m: map<Key, V>, action: Action<V>, it: Cursor)
    requires IsFirst(m.Keys, it)
    ensures Midway(m, m, action, it)
  {
  }

  /** Every later key is still there to be found. */
  lemma NothingSkipped<V>(e: map<Key, V>, m: map<Key, V>, action: Action<V>, before: Cursor, it: Cursor)
    requires before.At? && before.key in m && Midway(e, m, action, before)
    requires it.At? ==> it.key in e && before.key.number < it.key.number
    requires forall k :: k in e && before.key.number < k.number ==> it.At? && it.key.number <= k.number
    ensures it.At? ==> it.key in m
    ensures forall k :: k in m ==> (Precedes(k, it) <==> Precedes(k, before) || k == before.key)
  {
    forall k | k in m ensures Precedes(k, it) <==> Precedes(k, before) || k == before.key {
      assert k.number > before.key.number ==> k in e;
    }
  }

  // ----- visiting in key order -----

  /** Before the position no visit has stopped, and the values are as the visits left them. */
  ghost predicate MidVisit<V>(e: map<Key, V>, m: map<Key, V>, action: Action<V>, it: Cursor) {
    e.Keys == m.Keys &&
    (forall k :: k in m && Precedes(k, it) ==> !action(k, m[k]).0) &&
    (forall k :: k in m ==> e[k] == if Precedes(k, it) then action(k, m[k]).1 else m[k])
  }

  lemma VisitStart<V>(m: map<Key, V>, action: Action<V>, it: Cursor)
    requires IsFirst(m.Keys, it)
    ensures MidVisit(m, m, action, it)
  {
  }

  lemma VisitHere<V>(e: map<Key, V>, m: map<Key, V>, action: Action<V>, it: Cursor)
    requires it.At? && it.key in e && MidVisit(e, m, action, it)
    ensures it.key in m && e[it.key] == m[it.key]
    ensures !Precedes(it.key, it)
  {
  }

  lemma VisitOneMore<V>(e: map<Key, V>, m: map<Key, V>, action: Action<V>, before: Cursor, it: Cursor)
    requires before.At? && before.key in m && MidVisit(e, m, action, before) && !action(before.key, m[before.key]).0
    requires it.At? ==> it.key in e && before.key.number < it.key.number
    requires forall k :: k in e && before.key.number < k.number ==> it.At? && it.key.number <= k.number
    ensures MidVisit(e[before.key := action(before.key, m[before.key]).1], m, action, it)
    ensures forall k :: k in m ==> (Precedes(k, it) <==> Precedes(k, before) || k == before.key)
  {
    forall k | k in m ensures Precedes(k, it) <==> Precedes(k, before) || k == before.key {
      assert k.number > before.key.number ==> k in e;
    }
  }

  lemma VisitStops<V>(e: map<Key, V>, m: map<Key, V>, action: Action<V>, it: Cursor)
    requires it.At? && it.key in m && MidVisit(e, m, action, it) && action(it.key, m[it.key]).0
    ensures e[it.key := action(it.key, m[it.key]).1] == Visited(m, action)
  {
    FirstIsUnique(Stops(m, action), it);
  }

  lemma VisitEnds<V>(e: map<Key, V>, m: map<Key, V>, action: Action<V>)
    requires MidVisit(e, m, action, End)
    ensures e == Visited(m, action)
  {
    FirstIsUnique(Stops(m, action), End);
  }

  class ConcurrentMap<V> {
    var entries: map<Key, V>

    constructor ()
      ensures entries == map[]
    {
      entries := map[];
    }

    method Find(key: Key) returns (r: Answer<V>)
      ensures (entries, r) == Body(Operation.Find(key), entries)
    {
      r := if key in entries then Value(entries[key]) else No;
    }

    method Contains(key: Key) returns (present: bool)
      ensures (entries, Bool(present)) == Body(Operation.Contains(key), entries)
    {
      present := key in entries;
    }

    method Clear()
      modifies this
      ensures (entries, Done) == Body(Operation.Clear, old(entries))
    {
      entries := map[];
    }

    method Empty() returns (empty: bool)
      ensures (entries, Bool(empty)) == Body(Operation.Empty, entries)
    {
      empty := entries == map[];
    }

    method Size() returns (count: nat)
      ensures (entries, Count(count)) == Body(Operation.Size, entries)
    {
      count := |entries|;
    }

    method InsertOrAssign(key: Key, value: V) returns (inserted: bool)
      modifies this
      ensures (entries, Bool(inserted)) == Body(Operation.InsertOrAssign(key, value), old(entries))
    {
      inserted := key !in entries;
      entries := entries[key := value];
    }

    method Insert(key: Key, value: V) returns (inserted: bool)
      modifies this
      ensures (entries, Bool(inserted)) == Body(Operation.Insert(key, value), old(entries))
    {
      inserted := key !in entries;
      if inserted {
        entries := entries[key := value];
      }
    }

    method Erase(key: Key) returns (count: nat)
      modifies this
      ensures (entries, Count(count)) == Body(Operation.Erase(key), old(entries))
    {
      count := if key in entries then 1 else 0;
      entries := entries - {key};
    }

    /** The first key, or the end. */
    method Begin() returns (c: Cursor)
      ensures IsFirst(entries.Keys, c)
    {
      c := Least(entries.Keys);
    }

    /** The first key after a position: where an iterator goes next. */
    method Next(c: Cursor) returns (next: Cursor)
      requires c.At?
      ensures next.At? ==> next.key in entries && c.key.number < next.key.number
      ensures forall k :: k in entries && c.key.number < k.number ==> next.At? && next.key.number <= k.number
    {
      var later := set k | k in entries && c.key.number < k.number;
      next := Least(later);
      forall k | k in entries && c.key.number < k.number ensures next.At? && next.key.number <= k.number {
        assert k in later;
      }
    }

    static method Least(s: set<Key>) returns (c: Cursor)
      ensures IsFirst(s, c)
    {
      c := End;
      var rest := s;
      while rest != {}
        invariant rest <= s
        invariant IsFirst(s - rest, c)
      {
        var x :| x in rest;
        ghost var seen := s - rest;
        rest := rest - {x};
        assert s - rest == seen + {x};
        if c.End? || x.number < c.key.number {
          c := At(x);
        }
        forall k | k in s - rest ensures c.key.number <= k.number {
          assert k in seen || k == x;
        }
      }
      assert s - rest == s;
    }

    /** Iterate and erase; `asked` records the keys in the order the action was asked about them. */
    method EraseIf(action: Action<V>) returns (count: nat, ghost asked: seq<Key>)
      modifies this
      ensures (entries, Count(count)) == Body(Operation.EraseIf(action), old(entries))
      ensures forall i, j :: 0 <= i < j < |asked| ==> asked[i].number < asked[j].number
      ensures forall k :: k in asked <==> k in old(entries)
    {
      hide Body, KeptBy, AskedUpTo, Midway, Precedes;
      ghost var m := entries;
      asked := [];
      var size := |entries|;
      ghost var todo := entries.Keys;
      var it := Begin();
      AskedNone(m, it);
      MidwayStart(m, action, it);
      PrecedesFirst(m.Keys, it);
      while it.At?
        invariant it.At? ==> it.key in m
        invariant AskedUpTo(asked, m, it) && Midway(entries, m, action, it)
        invariant forall k :: k in todo <==> k in m && !Precedes(k, it)
        decreases |todo|
      {
        ghost var before, kept := it, entries;
        MidwayHere(entries, m, action, it);
        var answer := action(it.key, entries[it.key]);
        entries := entries[it.key := answer.1];
        var next := Next(it);
        if answer.0 {
          entries := entries - {it.key};
        }
        it := next;
        NothingSkipped(kept, m, action, before, it);
        MidwayOneMore(kept, m, action, before, it);
        AskedOneMore(asked, m, before, it);
        asked := asked + [before.key];
        todo := todo - {before.key};
      }
      AskedAll(asked, m);
      MidwayDone(entries, m, action);
      BodyErases(m, action);
      count := size - |entries|;
    }

    method ForEach(action: Action<V>)
      modifies this
      ensures (entries, Done) == Body(Operation.ForEach(action), old(entries))
    {
      hide MidVisit, Precedes, Visited;
      ghost var m := entries;
      ghost var todo := entries.Keys;
      var it := Begin();
      VisitStart(m, action, it);
      PrecedesFirst(m.Keys, it);
      while it.At?
        invariant it.At? ==> it.key in entries
        invariant MidVisit(entries, m, action, it)
        invariant forall k :: k in todo <==> k in m && !Precedes(k, it)
        decreases |todo|
      {
        ghost var before, visited := it, entries;
        VisitHere(entries, m, action, it);
        var answer := action(it.key, entries[it.key]);
        entries := entries[it.key := answer.1];
        if answer.0 {
          VisitStops(visited, m, action, it);
          return;
        }
        it := Next(it);
        VisitOneMore(visited, m, action, before, it);
        todo := todo - {before.key};
      }
      VisitEnds(entries, m, action);
    }

    method Compute(key: Key, blank: V, action: Action<V>) returns (done: bool)
      modifies this
      ensures (entries, Bool(done)) == Body(Operation.Compute(key, blank, action), old(entries))
    {
      if key !in entries {
        entries := entries[key := blank];
      }
      var (keep, value) := action(key, entries[key]);
      entries := entries[key := value];
      assert entries == old(entries)[key := value];
      if !keep {
        entries := entries - {key};
        assert entries == old(entries) - {key};
      }
      done := true;
    }

    method ComputeIfPresent(key: Key, action: Action<V>) returns (done: bool)
      modifies this
      ensures (entries, Bool(done)) == Body(Operation.ComputeIfPresent(key, action), old(entries))
    {
      if key !in entries {
        return false;
      }
      var (keep, value) := action(key, entries[key]);
      entries := entries[key := value];
      if !keep {
        entries := entries - {key};
        assert entries == old(entries) - {key};
      }
      done := true;
    }

    method ComputeIfAbsent(key: Key, maker: Key -> V) returns (done: bool)
      modifies this
      ensures (entries, Bool(done)) == Body(Operation.ComputeIfAbsent(key, maker), old(entries))
    {
      if key in entries {
        return false;
      }
      entries := entries[key := maker(key)];
      done := true;
    }
  }

  // ----- threads -----

  /** Who holds the mutex, and how far the critical section is. EraseIf and ForEach run their callback on
      one entry at a time; `size` is the number of entries EraseIf found at its start. */
  datatype Lock<!V> =
    | Free
    | Entered(thread: nat, op: Operation<V>)
    | Iterating(thread: nat, op: Operation<V>, size: nat, at: Cursor)
    | Finished(thread: nat, op: Operation<V>, answer: Answer<V>)

  datatype Call<!V> = Call(thread: nat, op: Operation<V>)

  /** `history` lists the operations in the order they took the lock. */
  datatype System<!V> = System(
    lock: Lock<V>,
    entries: map<Key, V>,
    remaining: seq<seq<Operation<V>>>,
    answers: seq<seq<Answer<V>>>,
    history: seq<Call<V>>)

  ghost predicate Acquires<V(!new)>(s: System<V>, s': System<V>, t: nat) {
    s.lock.Free? && t < |s.remaining| && s.remaining[t] != [] &&
    s' == s.(lock := Entered(t, s.remaining[t][0]),
             remaining := s.remaining[t := s.remaining[t][1..]],
             history := s.history + [Call(t, s.remaining[t][0])])
  }

  predicate Iterates<V>(op: Operation<V>) {
    op.EraseIf? || op.ForEach?
  }

  ghost predicate Runs<V(!new)>(s: System<V>, s': System<V>) {
    s.lock.Entered? && !Iterates(s.lock.op) &&
    var (entries, answer) := Body(s.lock.op, s.entries);
    s' == s.(lock := Finished(s.lock.thread, s.lock.op, answer), entries := entries)
  }

  ghost predicate Begins<V(!new)>(s: System<V>, s': System<V>) {
    s.lock.Entered? && Iterates(s.lock.op) &&
    s' == s.(lock := Iterating(s.lock.thread, s.lock.op, |s.entries|, First(s.entries.Keys)))
  }

  /** Where an iterator goes after a key. */
  ghost function NextOf<V>(e: map<Key, V>, key: Key): Cursor {
    First(set k | k in e && key.number < k.number)
  }

  /** One entry is shown to the callback. */
  ghost predicate Visits<V(!new)>(s: System<V>, s': System<V>) {
    s.lock.Iterating? && s.lock.at.At? && s.lock.at.key in s.entries &&
    var key := s.lock.at.key;
    match s.lock.op
    case EraseIf(action) =>
      var (gone, value) := action(key, s.entries[key]);
      s' == s.(lock := s.lock.(at := NextOf(s.entries, key)),
               entries := if gone then s.entries[key := value] - {key} else s.entries[key := value])
    case ForEach(action) =>
      var (stop, value) := action(key, s.entries[key]);
      s' == s.(lock := if stop then Finished(s.lock.thread, s.lock.op, Done) else s.lock.(at := NextOf(s.entries, key)),
               entries := s.entries[key := value])
    case _ => false
  }

  ghost predicate Ends<V(!new)>(s: System<V>, s': System<V>) {
    s.lock.Iterating? && s.lock.at.End? &&
    var erased: nat := if |s.entries| <= s.lock.size then s.lock.size - |s.entries| else 0;
    s' == s.(lock := Finished(s.lock.thread, s.lock.op, if s.lock.op.EraseIf? then Count(erased) else Done))
  }

  ghost predicate Releases<V(!new)>(s: System<V>, s': System<V>) {
    s.lock.Finished? && s.lock.thread < |s.answers| &&
    s' == s.(lock := Free, answers := s.answers[s.lock.thread := s.answers[s.lock.thread] + [s.lock.answer]])
  }

  ghost predicate ThreadStep<V(!new)>(s: System<V>, s': System<V>) {
    (exists t: nat :: Acquires(s, s', t)) ||
    Runs(s, s') || Begins(s, s') || Visits(s, s') || Ends(s, s') || Releases(s, s')
  }

  ghost predicate Starts<V(!new)>(s: System<V>, programs: seq<seq<Operation<V>>>, entries: map<Key, V>) {
    s == System(Free, entries, programs, seq(|programs|, _ => []), [])
  }

  ghost predicate IsTrace<V(!new)>(trace: seq<System<V>>) {
    forall i :: 0 <= i < |trace| - 1 ==> ThreadStep(trace[i], trace[i + 1])
  }

  /** The calls of one thread in a history. */
  ghost function CallsOf<V(!new)>(history: seq<Call<V>>, t: nat): seq<Operation<V>> {
    if history == [] then []
    else
      var n := |history| - 1;
      CallsOf(history[..n], t) + if history[n].thread == t then [history[n].op] else []
  }

  /** The operations of a history run one after another on a plain map: the final map, and each
      thread's answers in order. */
  ghost function Sequential<V(!new)>(history: seq<Call<V>>, entries: map<Key, V>, threads: nat)
    : (r: (map<Key, V>, seq<seq<Answer<V>>>))
    ensures |r.1| == threads
  {
    if history == [] then (entries, seq(threads, _ => []))
    else
      var n := |history| - 1;
      var (m, answers) := Sequential(history[..n], entries, threads);
      var (m', answer) := Body(history[n].op, m);
      (m', if history[n].thread < threads then
             answers[history[n].thread := answers[history[n].thread] + [answer]]
           else
             answers)
  }

  /** An operation after which a key that was there still has its value. */
  predicate Spares<V>(op: Operation<V>, key: Key) {
    match op
    case InsertOrAssign(k, _) => k != key
    case Erase(k) => k != key
    case Compute(k, _, _) => k != key
    case ComputeIfPresent(k, _) => k != key
    case Clear => false
    case EraseIf(_) => false
    case ForEach(_) => false
    case _ => true
  }

  /** However the calls interleave: the value assigned last to a key is found until some call erases the key or
      gives it to a callback. */
  lemma {:induction false} LastAssignedIsFound<V(!new)>(history: seq<Call<V>>, entries: map<Key, V>, threads: nat,
                                                        i: nat, key: Key, value: V)
    requires i < |history| && history[i].op == Operation.InsertOrAssign(key, value)
    requires forall j :: i < j < |history| ==> Spares(history[j].op, key)
    ensures Found(key, Sequential(history, entries, threads).0) == Value(value)
  {
    var n := |history| - 1;
    if i < n {
      assert history[..n][i] == history[i] && Spares(history[n].op, key);
      forall j | i < j < n ensures Spares(history[..n][j].op, key) {
        assert Spares(history[j].op, key);
      }
      LastAssignedIsFound(history[..n], entries, threads, i, key, value);
    }
  }

  /** A half-done iteration over `m` has left `e` and stands at `at`. */
  ghost predicate HalfDone<V(!new)>(op: Operation<V>, e: map<Key, V>, m: map<Key, V>, at: Cursor) {
    (at.At? ==> at.key in e) &&
    match op
    case EraseIf(action) => Midway(e, m, action, at) && (at.At? ==> at.key in m)
    case ForEach(action) => MidVisit(e, m, action, at)
    case _ => false
  }

  ghost predicate Inv<V(!new)>(s: System<V>, programs: seq<seq<Operation<V>>>, entries: map<Key, V>) {
    |s.remaining| == |programs| && |s.answers| == |programs| &&
    (forall t: nat :: t < |programs| ==> CallsOf(s.history, t) + s.remaining[t] == programs[t]) &&
    (match s.lock
     case Free => (s.entries, s.answers) == Sequential(s.history, entries, |programs|)
     case Entered(t, op) =>
       t < |programs| && s.history != [] && s.history[|s.history| - 1] == Call(t, op) &&
       (s.entries, s.answers) == Sequential(s.history[..|s.history| - 1], entries, |programs|)
     case Iterating(t, op, size, at) =>
       t < |programs| && s.history != [] && s.history[|s.history| - 1] == Call(t, op) &&
       var (m, answers) := Sequential(s.history[..|s.history| - 1], entries, |programs|);
       s.answers == answers && size == |m| && HalfDone(op, s.entries, m, at)
     case Finished(t, op, answer) =>
       t < |programs| &&
       (s.entries, s.answers[t := s.answers[t] + [answer]]) == Sequential(s.history, entries, |programs|))
  }

  lemma AcquireKeepsInv<V(!new)>(s: System<V>, s': System<V>, t: nat, programs: seq<seq<Operation<V>>>,
                                 entries: map<Key, V>)
    requires Inv(s, programs, entries) && Acquires(s, s', t)
    ensures Inv(s', programs, entries)
  {
    assert s'.history[..|s'.history| - 1] == s.history;
    forall v: nat | v < |programs| ensures CallsOf(s'.history, v) + s'.remaining[v] == programs[v] {
      assert CallsOf(s.history, v) + s.remaining[v] == programs[v];
      if v == t {
        assert s.remaining[t] == [s.remaining[t][0]] + s.remaining[t][1..];
      }
    }
  }

  lemma BeginsHalfDone<V(!new)>(op: Operation<V>, m: map<Key, V>)
    requires Iterates(op)
    ensures HalfDone(op, m, m, First(m.Keys))
  {
    match op
    case EraseIf(action) => MidwayStart(m, action, First(m.Keys));
    case ForEach(action) => VisitStart(m, action, First(m.Keys));
  }

  lemma NextIsNext<V>(e: map<Key, V>, key: Key)
    ensures var it := NextOf(e, key);
            (it.At? ==> it.key in e && key.number < it.key.number) &&
            forall k :: k in e && key.number < k.number ==> it.At? && it.key.number <= k.number
  {
    var later := set k | k in e && key.number < k.number;
    assert IsFirst(later, First(later));
    forall k | k in e && key.number < k.number ensures First(later).At? && First(later).key.number <= k.number {
      assert k in later;
    }
  }

  /** A visit leaves the iteration half done, or done. */
  lemma VisitProgresses<V(!new)>(s: System<V>, s': System<V>, m: map<Key, V>)
    requires s.lock.Iterating? && Visits(s, s') && HalfDone(s.lock.op, s.entries, m, s.lock.at) && s.lock.size == |m|
    ensures s'.lock.Iterating? ==> HalfDone(s.lock.op, s'.entries, m, s'.lock.at)
    ensures s'.lock.Finished? ==> (s'.entries, s'.lock.answer) == Body(s.lock.op, m)
  {
    var at := s.lock.at;
    var next := NextOf(s.entries, at.key);
    NextIsNext(s.entries, at.key);
    hide Midway, MidVisit, NextOf, KeptBy, Visited, Precedes;
    match s.lock.op
    case EraseIf(action) =>
      MidwayHere(s.entries, m, action, at);
      NothingSkipped(s.entries, m, action, at, next);
      MidwayOneMore(s.entries, m, action, at, next);
    case ForEach(action) =>
      VisitHere(s.entries, m, action, at);
      if s'.lock.Finished? {
        VisitStops(s.entries, m, action, at);
      } else {
        VisitOneMore(s.entries, m, action, at, next);
      }
  }

  lemma EndCompletes<V(!new)>(s: System<V>, s': System<V>, m: map<Key, V>)
    requires s.lock.Iterating? && Ends(s, s') && HalfDone(s.lock.op, s.entries, m, s.lock.at) && s.lock.size == |m|
    ensures (s'.entries, s'.lock.answer) == Body(s.lock.op, m)
  {
    match s.lock.op
    case EraseIf(action) =>
      MidwayDone(s.entries, m, action);
      BodyErases(m, action);
    case ForEach(action) => VisitEnds(s.entries, m, action);
  }

  lemma StepKeepsInv<V(!new)>(s: System<V>, s': System<V>, programs: seq<seq<Operation<V>>>, entries: map<Key, V>)
    requires Inv(s, programs, entries) && ThreadStep(s, s')
    ensures Inv(s', programs, entries)
  {
    hide Body, HalfDone, NextOf;
    if t: nat :| Acquires(s, s', t) {
      AcquireKeepsInv(s, s', t, programs, entries);
    } else if Begins(s, s') {
      BeginsHalfDone(s.lock.op, s.entries);
    } else if Visits(s, s') {
      VisitProgresses(s, s', Sequential(s.history[..|s.history| - 1], entries, |programs|).0);
    } else if Ends(s, s') {
      EndCompletes(s, s', Sequential(s.history[..|s.history| - 1], entries, |programs|).0);
    }
  }

  lemma {:induction false} TraceKeepsInv<V(!new)>(trace: seq<System<V>>, i: nat, programs: seq<seq<Operation<V>>>,
                                                  entries: map<Key, V>)
    requires IsTrace(trace) && i < |trace| && Starts(trace[0], programs, entries)
    ensures Inv(trace[i], programs, entries)
  {
    if i > 0 {
      TraceKeepsInv(trace, i - 1, programs, entries);
      StepKeepsInv(trace[i - 1], trace[i], programs, entries);
    }
  }

  /** While a call is outstanding some thread can take a step. */
  lemma NeverStuck<V(!new)>(s: System<V>, programs: seq<seq<Operation<V>>>, entries: map<Key, V>)
    returns (s': System<V>)
    requires Inv(s, programs, entries)
    requires !s.lock.Free? || exists t: nat :: t < |s.remaining| && s.remaining[t] != []
    ensures ThreadStep(s, s')
  {
    hide Body, Midway, MidVisit, Sequential;
    match s.lock
    case Free =>
      var t: nat :| t < |s.remaining| && s.remaining[t] != [];
      s' := s.(lock := Entered(t, s.remaining[t][0]),
               remaining := s.remaining[t := s.remaining[t][1..]],
               history := s.history + [Call(t, s.remaining[t][0])]);
      assert Acquires(s, s', t);
    case Entered(t, op) =>
      if Iterates(op) {
        s' := s.(lock := Iterating(t, op, |s.entries|, First(s.entries.Keys)));
        assert Begins(s, s');
      } else {
        s' := s.(lock := Finished(t, op, Body(op, s.entries).1), entries := Body(op, s.entries).0);
        assert Runs(s, s');
      }
    case Iterating(t, op, size, at) =>
      s' := Iterated(s);
      assert Visits(s, s') || Ends(s, s');
    case Finished(t, op, answer) =>
      s' := s.(lock := Free, answers := s.answers[t := s.answers[t] + [answer]]);
      assert Releases(s, s');
  }

  /** The state after the next step of an iteration. */
  ghost function Iterated<V(!new)>(s: System<V>): (s': System<V>)
    requires s.lock.Iterating? && Iterates(s.lock.op) && (s.lock.at.At? ==> s.lock.at.key in s.entries)
    ensures Visits(s, s') || Ends(s, s')
  {
    if s.lock.at.End? then
      var erased: nat := if |s.entries| <= s.lock.size then s.lock.size - |s.entries| else 0;
      s.(lock := Finished(s.lock.thread, s.lock.op, if s.lock.op.EraseIf? then Count(erased) else Done))
    else
      var key := s.lock.at.key;
      var (answer, value) := s.lock.op.action(key, s.entries[key]);
      if s.lock.op.ForEach? && answer then
        s.(lock := Finished(s.lock.thread, s.lock.op, Done), entries := s.entries[key := value])
      else
        s.(lock := s.lock.(at := NextOf(s.entries, key)),
           entries := if s.lock.op.EraseIf? && answer then s.entries[key := value] - {key} else s.entries[key := value])
  }

  /** However the steps of the threads interleave: once all calls have returned, the contents and every
      thread's answers are those of running all calls one after another in the order the lock was
      taken, and in that order each thread's calls appear as its program lists them. */
  lemma Linearizable<V(!new)>(trace: seq<System<V>>, programs: seq<seq<Operation<V>>>, entries: map<Key, V>)
    requires IsTrace(trace) && trace != [] && Starts(trace[0], programs, entries)
    requires var last := trace[|trace| - 1];
             last.lock.Free? && forall t: nat :: t < |last.remaining| ==> last.remaining[t] == []
    ensures var last := trace[|trace| - 1];
            (last.entries, last.answers) == Sequential(last.history, entries, |programs|) &&
            forall t: nat :: t < |programs| ==> CallsOf(last.history, t) == programs[t]
  {
    var last := trace[|trace| - 1];
    TraceKeepsInv(trace, |trace| - 1, programs, entries);
    forall t: nat | t < |programs| ensures CallsOf(last.history, t) == programs[t] {
      assert CallsOf(last.history, t) + last.remaining[t] == programs[t];
      assert CallsOf(last.history, t) + [] == CallsOf(last.history, t);
    }
  }
}
