/** Lua tables as seen through the raw (metamethod-free) operations of `Table`: lookup, update,
    the sequence-part editing of `raw_insert`/`raw_remove`, `contains_key`, `equals` and the
    two iterators. */
module Tables {
  import opened Interp

  /** Raw contents of a table: no nil key, no nil value (storing nil removes a key). */
  ghost predicate WellFormed(t: map<Value, Value>) {
    Nil !in t && forall k | k in t :: t[k] != Nil
  }

  /** `lua_rawget`: the value stored under `key`, nil when there is none. */
  function Get(t: map<Value, Value>, key: Value): Value {
    if key in t then t[key] else Nil
  }

  /** `lua_rawset` for a non-nil key: storing nil removes the key. */
  function Put(t: map<Value, Value>, key: Value, v: Value): (r: map<Value, Value>)
    requires key != Nil
    ensures WellFormed(t) ==> WellFormed(r)
    ensures Get(r, key) == v
    ensures forall k :: k != key ==> Get(r, k) == Get(t, k)
  {
    if v == Nil then t - {key} else t[key := v]
  }

  /** Two well-formed tables that agree on every lookup are the same table. */
  lemma Extensionality(a: map<Value, Value>, b: map<Value, Value>)
    requires WellFormed(a) && WellFormed(b)
    requires forall key :: Get(a, key) == Get(b, key)
    ensures a == b
  {
    forall key
      ensures key in a <==> key in b
    {
      assert Get(a, key) == Get(b, key);
    }
    assert a.Keys == b.Keys;
    forall key | key in a
      ensures a[key] == b[key]
    {
      assert Get(a, key) == Get(b, key);
    }
  }

  /** A set holding the keys 1..n has at least n elements. */
  lemma {:induction false} KeysBounded(s: set<Value>, n: nat)
    requires forall k :: 1 <= k <= n ==> Integer(k) in s
    ensures n <= |s|
  {
    if n > 0 {
      var s' := s - {Integer(n)};
      forall k | 1 <= k <= n - 1
        ensures Integer(k) in s'
      {
        assert Integer(k) in s;
      }
      KeysBounded(s', n - 1);
    }
  }

  /** A table with values at 1..n has at least n entries. */
  lemma PrefixBounded(t: map<Value, Value>, n: nat)
    requires forall j :: 1 <= j <= n ==> Get(t, Integer(j)) != Nil
    ensures n <= |t|
  {
    forall k | 1 <= k <= n
      ensures Integer(k) in t.Keys
    {
      assert Get(t, Integer(k)) != Nil;
    }
    KeysBounded(t.Keys, n);
  }

  /** Counts upwards from `k` to the first integer key without a value; the keys 1..k-1 are
      already known to be present. */
  function FirstNilFrom(t: map<Value, Value>, k: nat): (n: nat)
    requires 1 <= k
    requires forall j :: 1 <= j < k ==> Get(t, Integer(j)) != Nil
    ensures k - 1 <= n
    ensures forall j :: 1 <= j <= n ==> Get(t, Integer(j)) != Nil
    ensures Get(t, Integer(n + 1)) == Nil
    decreases |t| + 1 - k
  {
    if Get(t, Integer(k)) != Nil then
      PrefixBounded(t, k);
      FirstNilFrom(t, k + 1)
    else
      k - 1
  }

  /** The length `lua_rawlen` reports for a table: the least border n, where t[1..n] are all
      present and t[n+1] is nil. For a table without holes this is its only border. */
  function SeqLen(t: map<Value, Value>): (n: nat)
    ensures forall j :: 1 <= j <= n ==> Get(t, Integer(j)) != Nil
    ensures Get(t, Integer(n + 1)) == Nil
  {
    FirstNilFrom(t, 1)
  }

  /** The two properties of `SeqLen` determine it. */
  lemma SeqLenUnique(t: map<Value, Value>, n: nat)
    requires forall j :: 1 <= j <= n ==> Get(t, Integer(j)) != Nil
    requires Get(t, Integer(n + 1)) == Nil
    ensures SeqLen(t) == n
  {
  }

  /** The integer keys lo..hi. */
  function IntKeys(lo: int, hi: int): set<Value> {
    set k | lo <= k <= hi :: Integer(k)
  }

  /** What `raw_insert(idx, v)` stores under `key`, for a table of length n. */
  function InsertedGet(t: map<Value, Value>, n: nat, idx: int, v: Value, key: Value): Value {
    if key == Integer(idx) then v
    else if key.Integer? && idx < key.i <= n + 1 then Get(t, Integer(key.i - 1))
    else Get(t, key)
  }

  /** The table after `raw_insert(idx, v)` on a table of length n. */
  function InsertedAt(t: map<Value, Value>, n: nat, idx: int, v: Value): map<Value, Value>
    requires 1 <= idx <= n + 1
  {
    map key | key in t.Keys + IntKeys(idx, n + 1) && InsertedGet(t, n, idx, v, key) != Nil
            :: InsertedGet(t, n, idx, v, key)
  }

  lemma InsertedAtGet(t: map<Value, Value>, n: nat, idx: int, v: Value, key: Value)
    requires 1 <= idx <= n + 1
    ensures Get(InsertedAt(t, n, idx, v), key) == InsertedGet(t, n, idx, v, key)
  {
    if key.Integer? && idx <= key.i <= n + 1 {
      assert key in IntKeys(idx, n + 1);
    }
  }

  /** `raw_insert(idx, v)` on a table of length n: t[idx] becomes v, the elements t[idx..n] move
      up one place, and every other key keeps its value. */
  lemma InsertedAtSpec(t: map<Value, Value>, n: nat, idx: int, v: Value)
    requires 1 <= idx <= n + 1
    ensures WellFormed(t) ==> WellFormed(InsertedAt(t, n, idx, v))
    ensures Get(InsertedAt(t, n, idx, v), Integer(idx)) == v
    ensures forall k :: idx <= k <= n ==> Get(InsertedAt(t, n, idx, v), Integer(k + 1)) == Get(t, Integer(k))
    ensures forall k :: (k < idx || k > n + 1) ==> Get(InsertedAt(t, n, idx, v), Integer(k)) == Get(t, Integer(k))
    ensures forall key: Value :: !key.Integer? ==> Get(InsertedAt(t, n, idx, v), key) == Get(t, key)
  {
    forall key {
      InsertedAtGet(t, n, idx, v, key);
    }
  }

  /** What `raw_remove(idx)` leaves under `key`, for a table of length n. */
  function RemovedGet(t: map<Value, Value>, n: nat, idx: int, key: Value): Value {
    if key.Integer? && idx <= key.i < n then Get(t, Integer(key.i + 1))
    else if key == Integer(n) then Nil
    else Get(t, key)
  }

  /** The table after `raw_remove(idx)` on a table of length n. */
  function RemovedAt(t: map<Value, Value>, n: nat, idx: int): map<Value, Value>
    requires 1 <= idx <= n
  {
    map key | key in t.Keys + IntKeys(idx, n) && RemovedGet(t, n, idx, key) != Nil
            :: RemovedGet(t, n, idx, key)
  }

  lemma RemovedAtGet(t: map<Value, Value>, n: nat, idx: int, key: Value)
    requires 1 <= idx <= n
    ensures Get(RemovedAt(t, n, idx), key) == RemovedGet(t, n, idx, key)
  {
    if key.Integer? && idx <= key.i <= n {
      assert key in IntKeys(idx, n);
    }
  }

  /** `raw_remove(idx)` on a table of length n: t[idx+1..n] move down one place, t[n] becomes
      nil, and every other key keeps its value. */
  lemma RemovedAtSpec(t: map<Value, Value>, n: nat, idx: int)
    requires 1 <= idx <= n
    ensures WellFormed(t) ==> WellFormed(RemovedAt(t, n, idx))
    ensures forall k :: idx <= k < n ==> Get(RemovedAt(t, n, idx), Integer(k)) == Get(t, Integer(k + 1))
    ensures Get(RemovedAt(t, n, idx), Integer(n)) == Nil
    ensures forall k :: (k < idx || k > n) ==> Get(RemovedAt(t, n, idx), Integer(k)) == Get(t, Integer(k))
    ensures forall key: Value :: !key.Integer? ==> Get(RemovedAt(t, n, idx), key) == Get(t, key)
  {
    forall key {
      RemovedAtGet(t, n, idx, key);
    }
  }

  /** The positive integer keys of `t` are exactly 1..SeqLen(t): the table has no holes, so
      every border equals `SeqLen(t)`. */
  ghost predicate IsSequence(t: map<Value, Value>) {
    forall k :: 0 < k && Get(t, Integer(k)) != Nil ==> k <= SeqLen(t)
  }

  /** Inserting a non-nil value into a table without holes keeps it without holes and makes
      it one longer. */
  lemma InsertedLen(t: map<Value, Value>, idx: int, v: Value)
    requires IsSequence(t) && v != Nil && 1 <= idx <= SeqLen(t) + 1
    ensures SeqLen(InsertedAt(t, SeqLen(t), idx, v)) == SeqLen(t) + 1
    ensures IsSequence(InsertedAt(t, SeqLen(t), idx, v))
  {
    var n := SeqLen(t);
    var r := InsertedAt(t, n, idx, v);
    InsertedAtSpec(t, n, idx, v);
    forall j | 1 <= j <= n + 1
      ensures Get(r, Integer(j)) != Nil
    {
      if j > idx {
        assert Get(r, Integer((j - 1) + 1)) == Get(t, Integer(j - 1));
      }
    }
    assert Get(r, Integer(n + 2)) == Get(t, Integer(n + 2));
    SeqLenUnique(r, n + 1);
    assert IsSequence(r);
  }

  /** Removing position idx of a table of length n leaves length n - 1, and a table without
      holes stays without holes. */
  lemma RemovedLen(t: map<Value, Value>, idx: int)
    requires 1 <= idx <= SeqLen(t)
    ensures SeqLen(RemovedAt(t, SeqLen(t), idx)) == SeqLen(t) - 1
    ensures IsSequence(t) ==> IsSequence(RemovedAt(t, SeqLen(t), idx))
  {
    var n := SeqLen(t);
    var r := RemovedAt(t, n, idx);
    RemovedAtSpec(t, n, idx);
    forall j | 1 <= j <= n - 1
      ensures Get(r, Integer(j)) != Nil
    {
      if j >= idx {
        assert Get(r, Integer(j)) == Get(t, Integer(j + 1));
      }
    }
    SeqLenUnique(r, n - 1);
  }

  /** Round trip: removing the position just inserted at restores a table without holes. */
  lemma InsertRemoveRoundTrip(t: map<Value, Value>, idx: int, v: Value)
    requires WellFormed(t) && IsSequence(t) && v != Nil && 1 <= idx <= SeqLen(t) + 1
    ensures SeqLen(InsertedAt(t, SeqLen(t), idx, v)) == SeqLen(t) + 1
    ensures RemovedAt(InsertedAt(t, SeqLen(t), idx, v), SeqLen(t) + 1, idx) == t
  {
    var n := SeqLen(t);
    var r := InsertedAt(t, n, idx, v);
    InsertedLen(t, idx, v);
    InsertedAtSpec(t, n, idx, v);
    var back := RemovedAt(r, n + 1, idx);
    RemovedAtSpec(r, n + 1, idx);
    forall key
      ensures Get(back, key) == Get(t, key)
    {
      if key.Integer? {
        var k := key.i;
        if idx <= k < n + 1 {
          assert Get(back, Integer(k)) == Get(r, Integer(k + 1));
        } else if k == n + 1 {
          assert Get(back, Integer(n + 1)) == Nil;
        }
      }
    }
    Extensionality(back, t);
  }

  /** Lookup in a table whose slots lo+1..hi hold what slots lo..hi-1 held in `t`: the state of
      `raw_insert`'s loop once it has shifted everything above its cursor `lo`. */
  function ShiftedUpGet(t: map<Value, Value>, lo: int, hi: int, key: Value): Value {
    if key.Integer? && lo < key.i <= hi then Get(t, Integer(key.i - 1)) else Get(t, key)
  }

  /** One iteration of `raw_insert`'s loop, `table[i + 1] = table[i]`, moves its cursor down. */
  lemma ShiftUpStep(t: map<Value, Value>, e: map<Value, Value>, i: int, hi: int)
    requires 1 <= i < hi
    requires forall key :: Get(e, key) == ShiftedUpGet(t, i + 1, hi, key)
    ensures forall key :: Get(Put(e, Integer(i + 1), Get(e, Integer(i))), key) == ShiftedUpGet(t, i, hi, key)
  {
    assert Get(e, Integer(i)) == ShiftedUpGet(t, i + 1, hi, Integer(i));
  }

  /** Lookup in a table whose slots lo..hi-1 hold what slots lo+1..hi held in `t`: the state of
      `raw_remove`'s loop once its cursor has reached `hi`. */
  function ShiftedDownGet(t: map<Value, Value>, lo: int, hi: int, key: Value): Value {
    if key.Integer? && lo <= key.i < hi then Get(t, Integer(key.i + 1)) else Get(t, key)
  }

  /** One iteration of `raw_remove`'s loop, `table[i] = table[i + 1]`, moves its cursor up. */
  lemma ShiftDownStep(t: map<Value, Value>, e: map<Value, Value>, lo: int, i: int, next: int)
    requires 1 <= lo <= i && next == i + 1
    requires forall key :: Get(e, key) == ShiftedDownGet(t, lo, i, key)
    ensures forall key :: Get(Put(e, Integer(i), Get(e, Integer(next))), key) == ShiftedDownGet(t, lo, next, key)
  {
    assert Get(e, Integer(next)) == ShiftedDownGet(t, lo, i, Integer(next));
  }

  /** Once `raw_insert`'s loop has shifted t[idx..n] up, storing the value at idx completes the
      insert. */
  lemma InsertFinished(t: map<Value, Value>, e: map<Value, Value>, n: nat, idx: int, v: Value)
    requires WellFormed(t) && WellFormed(e) && 1 <= idx <= n + 1
    requires forall key :: Get(e, key) == ShiftedUpGet(t, idx, n + 1, key)
    ensures Put(e, Integer(idx), v) == InsertedAt(t, n, idx, v)
  {
    var spec := InsertedAt(t, n, idx, v);
    InsertedAtSpec(t, n, idx, v);
    forall key
      ensures Get(Put(e, Integer(idx), v), key) == Get(spec, key)
    {
      InsertedAtGet(t, n, idx, v, key);
    }
    Extensionality(Put(e, Integer(idx), v), spec);
  }

  /** Once `raw_remove`'s loop has shifted t[idx+1..n] down, clearing t[n] completes the
      remove. */
  lemma RemoveFinished(t: map<Value, Value>, e: map<Value, Value>, n: nat, idx: int)
    requires WellFormed(t) && WellFormed(e) && 1 <= idx <= n
    requires forall key :: Get(e, key) == ShiftedDownGet(t, idx, n, key)
    ensures Put(e, Integer(n), Nil) == RemovedAt(t, n, idx)
  {
    var spec := RemovedAt(t, n, idx);
    RemovedAtSpec(t, n, idx);
    forall key
      ensures Get(Put(e, Integer(n), Nil), key) == Get(spec, key)
    {
      RemovedAtGet(t, n, idx, key);
    }
    Extensionality(Put(e, Integer(n), Nil), spec);
  }

  /** The outcome of `raw_set(key, v)`: the interpreter rejects a nil key. */
  function SetOutcome(t: map<Value, Value>, key: Value, v: Value): (r: (Result<()>, map<Value, Value>))
    ensures key == Nil ==> r.0.Err? && r.1 == t
    ensures key != Nil ==> r.0 == Ok(()) && Get(r.1, key) == v
    ensures forall k :: k != key ==> Get(r.1, k) == Get(t, k)
    ensures WellFormed(t) ==> WellFormed(r.1)
  {
    if key == Nil then (Err(RuntimeError("index is nil")), t) else (Ok(()), Put(t, key, v))
  }

  /** The values `sequence_values` yields: t[1], t[2], ... up to the first nil. */
  function SequencePart(t: map<Value, Value>): (s: seq<Value>)
    ensures |s| == SeqLen(t)
    ensures forall j :: 0 <= j < |s| ==> s[j] == Get(t, Integer(j + 1)) && s[j] != Nil
  {
    seq(SeqLen(t), j requires 0 <= j < SeqLen(t) => Get(t, Integer(j + 1)))
  }

  /** The table `{[1] = 4, [2] = 5, [4] = 7, key = 2}` has sequence part 4, 5. */
  lemma SequencePartExample()
    ensures SequencePart(map[Integer(1) := Integer(4), Integer(2) := Integer(5),
                             Integer(4) := Integer(7), Str("key") := Integer(2)])
            == [Integer(4), Integer(5)]
  {
    var t := map[Integer(1) := Integer(4), Integer(2) := Integer(5),
                 Integer(4) := Integer(7), Str("key") := Integer(2)];
    SeqLenUnique(t, 2);
  }

  /** `t` lists the keys of `t` once each: the order in which `lua_next` visits them, which the
      interpreter does not specify. */
  ghost predicate IsTraversal(t: map<Value, Value>, order: seq<Value>) {
    && (forall i, j :: 0 <= i < j < |order| ==> order[i] != order[j])
    && (forall k :: k in t <==> k in order)
  }

  /** The position of `key` in `order`. */
  function IndexOf(order: seq<Value>, key: Value): (i: nat)
    requires key in order
    ensures i < |order| && order[i] == key
    ensures forall j :: 0 <= j < i ==> order[j] != key
  {
    if order[0] == key then 0 else 1 + IndexOf(order[1..], key)
  }

  /** `lua_next(t, key)` along `order`: the first key after nil, the key after `key`, nothing
      after the last key, and an error for a key that is not in the traversal. */
  function NextKey(order: seq<Value>, key: Value): (r: Result<Option<Value>>)
    ensures key == Nil ==> r == Ok(if order == [] then None else Some(order[0]))
    ensures key != Nil && key !in order ==> r.Err?
    ensures forall i :: (0 <= i < |order| && order[i] == key && key != Nil &&
                         (forall j :: 0 <= j < i ==> order[j] != key)) ==>
              r == Ok(if i + 1 < |order| then Some(order[i + 1]) else None)
  {
    if key == Nil then
      Ok(if order == [] then None else Some(order[0]))
    else if key in order then
      var i := IndexOf(order, key);
      Ok(if i + 1 < |order| then Some(order[i + 1]) else None)
    else
      Err(RuntimeError("invalid key to 'next'"))
  }

  /** Handle to a Lua table. `entries` is the raw contents; `metatable` is consulted only by
      `Equals`. */
  class Table {
    var entries: map<Value, Value>
    var metatable: Table?

    ghost predicate Valid()
      reads this
    {
      WellFormed(entries)
    }

    constructor ()
      ensures Valid() && entries == map[] && metatable == null
    {
      entries := map[];
      metatable := null;
    }

    /** `raw_get`: lookup without metamethods. */
    function RawGet(key: Value): (v: Value)
      reads this
      ensures v != Nil ==> key in entries && entries[key] == v
      ensures Valid() ==> (v == Nil <==> key !in entries)
    {
      Get(entries, key)
    }

    /** `raw_set`: update without metamethods; a nil value removes the key. */
    method RawSet(key: Value, value: Value) returns (r: Result<()>)
      requires Valid()
      modifies this`entries
      ensures Valid()
      ensures (r, entries) == SetOutcome(old(entries), key, value)
    {
      if key == Nil {
        return Err(RuntimeError("index is nil"));
      }
      entries := Put(entries, key, value);
      r := Ok(());
    }

    /** `raw_len`: the border the interpreter reports. */
    function RawLen(): (n: nat)
      reads this
      ensures forall j :: 1 <= j <= n ==> RawGet(Integer(j)) != Nil
      ensures RawGet(Integer(n + 1)) == Nil
    {
      SeqLen(entries)
    }

    /** `contains_key`: whether the value stored under `key` is non-nil. */
    function ContainsKey(key: Value): (b: bool)
      reads this
      ensures b <==> RawGet(key) != Nil
      ensures Valid() ==> (b <==> key in entries)
    {
      RawGet(key) != Nil
    }

    /** `raw_insert`: bounds-check `idx` against the length, then shift t[idx..len] up by one
        slot, starting from the top, and store `value` at `idx`. */
    method RawInsert(idx: int, value: Value) returns (r: Result<()>)
      requires Valid()
      modifies this`entries
      ensures Valid()
      ensures (idx < 1 || idx > SeqLen(old(entries)) + 1) ==>
                r == Err(RuntimeError("index out of bounds")) && entries == old(entries)
      ensures 1 <= idx <= SeqLen(old(entries)) + 1 ==>
                r == Ok(()) && entries == InsertedAt(old(entries), SeqLen(old(entries)), idx, value)
    {
      var size := RawLen();
      if idx < 1 || idx > size + 1 {
        return Err(RuntimeError("index out of bounds"));
      }
      var i := size;
      while i >= idx
        invariant idx - 1 <= i <= size
        invariant WellFormed(entries)
        invariant forall key :: Get(entries, key) == ShiftedUpGet(old(entries), i + 1, size + 1, key)
      {
        // table[i + 1] = table[i]
        ShiftUpStep(old(entries), entries, i, size + 1);
        entries := Put(entries, Integer(i + 1), Get(entries, Integer(i)));
        i := i - 1;
      }
      InsertFinished(old(entries), entries, size, idx, value);
      entries := Put(entries, Integer(idx), value);
      r := Ok(());
    }

    /** `raw_remove`: for an integer key, bounds-check it against the length, shift t[idx+1..len]
        down by one slot and clear t[len]; any other key is `raw_set(key, nil)`. */
    method RawRemove(key: Value) returns (r: Result<()>)
      requires Valid()
      modifies this`entries
      ensures Valid()
      ensures key.Integer? && (key.i < 1 || key.i > SeqLen(old(entries))) ==>
                r == Err(RuntimeError("index out of bounds")) && entries == old(entries)
      ensures key.Integer? && 1 <= key.i <= SeqLen(old(entries)) ==>
                r == Ok(()) && entries == RemovedAt(old(entries), SeqLen(old(entries)), key.i)
      ensures !key.Integer? ==> (r, entries) == SetOutcome(old(entries), key, Nil)
    {
      match key
      case Integer(idx) =>
        var size := RawLen();
        if idx < 1 || idx > size {
          return Err(RuntimeError("index out of bounds"));
        }
        var i := idx;
        while i < size
          invariant idx <= i <= size
          invariant WellFormed(entries)
          invariant forall key :: Get(entries, key) == ShiftedDownGet(old(entries), idx, i, key)
        {
          // table[i] = table[i + 1]
          ShiftDownStep(old(entries), entries, idx, i, i + 1);
          entries := Put(entries, Integer(i), Get(entries, Integer(i + 1)));
          i := i + 1;
        }
        RemoveFinished(old(entries), entries, size, idx);
        entries := Put(entries, Integer(size), Nil);
        r := Ok(());
      case _ =>
        r := RawSet(key, Nil);
    }

    /** `equals`: identical tables are equal without consulting any metatable; otherwise the
        `__eq` handler of this table's metatable decides, failing that the one of `other`'s
        metatable, and with neither the tables differ. Whichever handler decides is called with
        this table first and `other` second; `callEq(h, x, y)` is what calling handler `h` on
        `(x, y)` returns. An `__eq` entry that is not a function is a conversion error. */
    function Equals(other: Table, callEq: (Value, Table, Table) -> Result<bool>): (r: Result<bool>)
      reads this, other, metatable, other.metatable
      ensures this == other ==> r == Ok(true)
      ensures this != other && EqHandler(this).FunctionRef? ==> r == callEq(EqHandler(this), this, other)
      ensures this != other && EqHandler(this) == Nil && EqHandler(other).FunctionRef? ==>
                r == callEq(EqHandler(other), this, other)
      ensures this != other && EqHandler(this) != Nil && !EqHandler(this).FunctionRef? ==> r.Err?
      ensures this != other && EqHandler(this) == Nil && EqHandler(other) != Nil &&
              !EqHandler(other).FunctionRef? ==>
                r.Err?
      ensures this != other && EqHandler(this) == Nil && EqHandler(other) == Nil ==> r == Ok(false)
    {
      if this == other then Ok(true)
      else if EqHandler(this) != Nil then CallHandler(EqHandler(this), this, other, callEq)
      else if EqHandler(other) != Nil then CallHandler(EqHandler(other), this, other, callEq)
      else Ok(false)
    }

    /** `sequence_values`: an iterator over t[1], t[2], ... */
    method SequenceValues() returns (it: TableSequence)
      ensures fresh(it) && it.table == this && it.index == Some(1)
    {
      it := new TableSequence(this);
    }

    /** `pairs`: an iterator over every key and value, visiting keys in `order`. */
    method Pairs(order: seq<Value>) returns (it: TablePairs)
      ensures fresh(it) && it.table == this && it.order == order && it.nextKey == Some(Nil)
    {
      it := new TablePairs(this, order);
    }
  }

  /** The `__eq` entry of a table's metatable, nil when there is no metatable or no entry:
      there is a handler exactly when the metatable contains the key `__eq`. */
  function EqHandler(t: Table): (h: Value)
    reads t, t.metatable
    ensures h != Nil <==> t.metatable != null && t.metatable.ContainsKey(Str("__eq"))
  {
    if t.metatable == null then Nil else t.metatable.RawGet(Str("__eq"))
  }

  /** Calling an `__eq` handler on `(x, y)`: it must be a function, and its result decides. */
  function CallHandler(h: Value, x: Table, y: Table, callEq: (Value, Table, Table) -> Result<bool>): Result<bool> {
    if h.FunctionRef? then callEq(h, x, y) else Err(FromLuaConversionError(TypeName(h), "Function"))
  }

  /** Without `__eq` handlers, `equals` is identity of the two tables, and so symmetric. */
  lemma EqualsWithoutHandlers(a: Table, b: Table, callEq: (Value, Table, Table) -> Result<bool>)
    requires EqHandler(a) == Nil && EqHandler(b) == Nil
    ensures a.Equals(b, callEq) == Ok(a == b)
    ensures a.Equals(b, callEq) == b.Equals(a, callEq)
  {
  }

  /** The receiver's `__eq` handler takes precedence over the argument's: when both tables have
      one, comparing in the two directions calls different handlers, each with its own receiver
      first. */
  lemma EqualsReceiverFirst(a: Table, b: Table, callEq: (Value, Table, Table) -> Result<bool>)
    requires a != b && EqHandler(a).FunctionRef? && EqHandler(b).FunctionRef?
    ensures a.Equals(b, callEq) == callEq(EqHandler(a), a, b)
    ensures b.Equals(a, callEq) == callEq(EqHandler(b), b, a)
  {
  }

  /** When only one of the tables has an `__eq` handler, both directions call that handler, but
      with the arguments in the order of the comparison, so an order-sensitive handler can answer
      differently. */
  lemma EqualsArgumentOrder(a: Table, b: Table, callEq: (Value, Table, Table) -> Result<bool>)
    requires a != b && EqHandler(a) == Nil && EqHandler(b).FunctionRef?
    ensures a.Equals(b, callEq) == callEq(EqHandler(b), a, b)
    ensures b.Equals(a, callEq) == callEq(EqHandler(b), b, a)
  {
  }

  /** Iterator over the sequence part of a table (`TableSequence`). `index` is the next position
      to read; it is taken, and put back only when a value was found. */
  class TableSequence {
    const table: Table
    var index: Option<int>

    constructor (table: Table)
      ensures this.table == table && index == Some(1)
    {
      this.table := table;
      index := Some(1);
    }

    /** `next`: `fault` is the error, if any, that the interpreter raises while reading the slot. */
    method Next(fault: Option<Error>) returns (item: Option<Result<Value>>)
      modifies this`index
      ensures old(index).None? ==> item == None && index == None
      ensures old(index).Some? && fault.Some? ==> item == Some(Err(fault.value)) && index == None
      ensures old(index).Some? && fault.None? && table.RawGet(Integer(old(index).value)) == Nil ==>
                item == None && index == None
      ensures old(index).Some? && fault.None? && table.RawGet(Integer(old(index).value)) != Nil ==>
                item == Some(Ok(table.RawGet(Integer(old(index).value)))) && index == Some(old(index).value + 1)
    {
      match index
      case None =>
        item := None;
      case Some(i) =>
        index := None;
        if fault.Some? {
          item := Some(Err(fault.value));
        } else {
          var v := table.RawGet(Integer(i));
          if v == Nil {
            item := None;
          } else {
            index := Some(i + 1);
            item := Some(Ok(v));
          }
        }
    }
  }

  /** Iterator over all pairs of a table (`TablePairs`). `order` stands for the traversal order
      of `lua_next`; `nextKey` is the key to continue from, taken and put back after each pair. */
  class TablePairs {
    const table: Table
    const order: seq<Value>
    var nextKey: Option<Value>

    constructor (table: Table, order: seq<Value>)
      ensures this.table == table && this.order == order && nextKey == Some(Nil)
    {
      this.table := table;
      this.order := order;
      nextKey := Some(Nil);
    }

    /** `next`: one step of `lua_next` from the stored key. `fault` is the error, if any, that
        the interpreter raises in the protected call other than for an unknown key (pushing the
        key, running out of memory); the key is then gone and the iterator is finished. */
    method Next(fault: Option<Error>) returns (item: Option<Result<(Value, Value)>>)
      modifies this`nextKey
      ensures old(nextKey).None? ==> item == None && nextKey == None
      ensures old(nextKey).Some? && fault.Some? ==> item == Some(Err(fault.value)) && nextKey == None
      ensures old(nextKey).Some? && fault.None? && NextKey(order, old(nextKey).value).Err? ==>
                item == Some(Err(NextKey(order, old(nextKey).value).error)) && nextKey == None
      ensures old(nextKey).Some? && fault.None? && NextKey(order, old(nextKey).value) == Ok(None) ==>
                item == None && nextKey == None
      ensures old(nextKey).Some? && fault.None? && NextKey(order, old(nextKey).value).Ok? &&
              NextKey(order, old(nextKey).value).value.Some? ==>
                var k := NextKey(order, old(nextKey).value).value.value;
                item == Some(Ok((k, table.RawGet(k)))) && nextKey == Some(k)
    {
      match nextKey
      case None =>
        item := None;
      case Some(key) =>
        nextKey := None;
        if fault.Some? {
          item := Some(Err(fault.value));
        } else {
          match NextKey(order, key)
          case Err(e) =>
            item := Some(Err(e));
          case Ok(None) =>
            item := None;
          case Ok(Some(k)) =>
            nextKey := Some(k);
            item := Some(Ok((k, table.RawGet(k))));
        }
    }
  }

  /** Driving `sequence_values` to the end yields exactly the sequence part, t[1..len], and the
      exhausted iterator yields nothing more. */
  method CollectSequence(t: Table) returns (values: seq<Value>, after: Option<Result<Value>>)
    ensures values == SequencePart(t.entries)
    ensures after == None
  {
    var it := t.SequenceValues();
    values := [];
    var item := it.Next(None);
    while item != None
      invariant |values| <= SeqLen(t.entries)
      invariant values == SequencePart(t.entries)[..|values|]
      invariant item.Some? ==> item == Some(Ok(Get(t.entries, Integer(|values| + 1)))) &&
                               Get(t.entries, Integer(|values| + 1)) != Nil &&
                               it.index == Some(|values| + 2)
      invariant item.None? ==> it.index == None && Get(t.entries, Integer(|values| + 1)) == Nil
      decreases SeqLen(t.entries) - |values|
    {
      values := values + [item.value.value];
      item := it.Next(None);
    }
    SeqLenUnique(t.entries, |values|);
    after := it.Next(None);
  }

  /** Driving `pairs` over a traversal of the table yields every key once, in traversal order,
      each with its value, and the exhausted iterator yields nothing more. */
  method CollectPairs(t: Table, order: seq<Value>) returns (pairs: seq<(Value, Value)>, after: Option<Result<(Value, Value)>>)
    requires t.Valid() && IsTraversal(t.entries, order)
    ensures |pairs| == |order|
    ensures forall j :: 0 <= j < |pairs| ==> pairs[j] == (order[j], t.entries[order[j]])
    ensures after == None
  {
    var it := t.Pairs(order);
    pairs := [];
    var item := it.Next(None);
    while item != None
      invariant |pairs| <= |order|
      invariant forall j :: 0 <= j < |pairs| ==> pairs[j] == (order[j], t.entries[order[j]])
      invariant item.Some? ==> |pairs| < |order| && item == Some(Ok((order[|pairs|], t.entries[order[|pairs|]]))) &&
                               it.nextKey == Some(order[|pairs|])
      invariant item.None? ==> it.nextKey == None && |pairs| == |order|
      decreases |order| - |pairs|
    {
      var n := |pairs|;
      pairs := pairs + [item.value.value];
      item := it.Next(None);
      assert IndexOf(order, order[n]) == n;
    }
    after := it.Next(None);
  }
}
