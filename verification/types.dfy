/** Handles into the interpreter: references to stack/registry slots (`LuaRef`) and registry
    keys (`RegistryKey`), with their equality and their debug text. */
module Types {
  import opened Interp

  // ---------------------------------------------------------------------------------------
  // Decimal text of a slot number, as the debug formatting writes it.

  function DigitChar(d: nat): char
    requires d < 10
  {
    "0123456789"[d]
  }

  function DigitValue(c: char): nat {
    if '0' <= c <= '9' then (c as int - '0' as int) as nat else 0
  }

  predicate IsDigit(c: char) {
    '0' <= c <= '9'
  }

  /** Decimal digits of `n`, most significant first, without leading zeros. */
  function NatToDecimal(n: nat): (s: string)
    ensures |s| > 0
    ensures forall i :: 0 <= i < |s| ==> IsDigit(s[i])
    decreases n
  {
    if n < 10 then [DigitChar(n)] else NatToDecimal(n / 10) + [DigitChar(n % 10)]
  }

  /** `{}` of an integer: a minus sign before the digits of a negative number. */
  function IntToDecimal(i: int): (s: string)
    ensures |s| > 0
    ensures i < 0 <==> s[0] == '-'
  {
    if i < 0 then "-" + NatToDecimal(-i) else NatToDecimal(i)
  }

  /** The value of a string of decimal digits. */
  function ParseNat(s: string): nat
    decreases |s|
  {
    if s == [] then 0 else ParseNat(s[..|s| - 1]) * 10 + DigitValue(s[|s| - 1])
  }

  function ParseInt(s: string): int {
    if |s| > 0 && s[0] == '-' then -(ParseNat(s[1..]) as int) else ParseNat(s)
  }

  lemma DigitRoundTrip(d: nat)
    requires d < 10
    ensures DigitValue(DigitChar(d)) == d
  {
  }

  /** Reading back the digits of `n` gives `n`. */
  lemma {:induction false} NatRoundTrip(n: nat)
    ensures ParseNat(NatToDecimal(n)) == n
    decreases n
  {
    DigitRoundTrip(n % 10);
    if n >= 10 {
      NatRoundTrip(n / 10);
      var s := NatToDecimal(n);
      assert s[..|s| - 1] == NatToDecimal(n / 10);
    }
  }

  /** Reading back the decimal text of `i` gives `i`. */
  lemma IntRoundTrip(i: int)
    ensures ParseInt(IntToDecimal(i)) == i
  {
    if i < 0 {
      var digits := NatToDecimal(-i);
      var s := "-" + digits;
      assert IntToDecimal(i) == s;
      assert s[1..] == digits;
      NatRoundTrip(-i);
      assert ParseInt(s) == -(ParseNat(digits) as int);
    } else {
      var digits := NatToDecimal(i);
      assert IntToDecimal(i) == digits;
      assert IsDigit(digits[0]);
      assert ParseInt(digits) == ParseNat(digits);
      NatRoundTrip(i);
    }
  }

  /** Distinct numbers are written differently. */
  lemma IntToDecimalInjective(a: int, b: int)
    ensures IntToDecimal(a) == IntToDecimal(b) ==> a == b
  {
    IntRoundTrip(a);
    IntRoundTrip(b);
  }

  /** `prefix + IntToDecimal(i) + ")"` read back: the number between the prefix and the closing
      parenthesis. */
  function ParseWrapped(prefix: string, s: string): int {
    if |s| > |prefix| then ParseInt(s[|prefix|..|s| - 1]) else 0
  }

  function Wrapped(prefix: string, i: int): string {
    prefix + IntToDecimal(i) + ")"
  }

  lemma WrappedRoundTrip(prefix: string, i: int)
    ensures ParseWrapped(prefix, Wrapped(prefix, i)) == i
  {
    var s := Wrapped(prefix, i);
    assert s[|prefix|..|s| - 1] == IntToDecimal(i);
    IntRoundTrip(i);
  }

  // ---------------------------------------------------------------------------------------
  // References to interpreter slots.

  /** A reference to a slot the host keeps for a Lua value (`LuaRef`). */
  datatype LuaRef = LuaRef(index: int)

  /** `LuaRef`'s debug text. */
  function RefDebug(r: LuaRef): (s: string)
    ensures |s| > 5 && s[..4] == "Ref(" && s[|s| - 1] == ')'
    ensures ParseWrapped("Ref(", s) == r.index
  {
    WrappedRoundTrip("Ref(", r.index);
    Wrapped("Ref(", r.index)
  }

  /** Two references have the same debug text only if they name the same slot. */
  lemma RefDebugInjective(a: LuaRef, b: LuaRef)
    ensures RefDebug(a) == RefDebug(b) <==> a == b
  {
    if RefDebug(a) == RefDebug(b) {
      assert ParseWrapped("Ref(", RefDebug(a)) == ParseWrapped("Ref(", RefDebug(b));
    }
  }

  /** `LuaRef`'s equality: the two referenced values are raw-equal (same primitive value, or
      the same object), whatever slots hold them. */
  predicate RefEquals(lua: Lua, a: LuaRef, b: LuaRef): (r: bool)
    reads lua
    requires a.index in lua.registry && b.index in lua.registry
    ensures a.index == b.index ==> r
  {
    lua.registry[a.index] == lua.registry[b.index]
  }

  /** Reference equality is an equivalence, and two slots holding the same value are equal
      references even when they are different slots. */
  lemma RefEqualsEquivalence(lua: Lua, a: LuaRef, b: LuaRef, c: LuaRef)
    requires a.index in lua.registry && b.index in lua.registry && c.index in lua.registry
    ensures RefEquals(lua, a, a)
    ensures RefEquals(lua, a, b) <==> RefEquals(lua, b, a)
    ensures RefEquals(lua, a, b) && RefEquals(lua, b, c) ==> RefEquals(lua, a, c)
    ensures RefEquals(lua, a, b) <==> lua.registry[a.index] == lua.registry[b.index]
  {
  }

  // ---------------------------------------------------------------------------------------
  // Registry keys.

  /** The list of registry slots awaiting release, shared between the interpreter and its keys;
      `None` once the interpreter is gone. */
  class UnrefList {
    var ids: Option<seq<int>>

    constructor (ids: Option<seq<int>>)
      ensures this.ids == ids
    {
      this.ids := ids;
    }
  }

  /** A key to a value kept in the registry (`RegistryKey`). `consumed` records that the key
      has been dropped or taken, which ownership allows only once. */
  class RegistryKey {
    const registryId: int
    const unrefList: UnrefList
    ghost var consumed: bool

    constructor (registryId: int, unrefList: UnrefList)
      ensures this.registryId == registryId && this.unrefList == unrefList && !consumed
    {
      this.registryId := registryId;
      this.unrefList := unrefList;
      consumed := false;
    }

    /** `RegistryKey`'s debug text. */
    function Debug(): (s: string)
      ensures |s| > 13 && s[..12] == "RegistryKey(" && s[|s| - 1] == ')'
      ensures ParseWrapped("RegistryKey(", s) == registryId
    {
      WrappedRoundTrip("RegistryKey(", registryId);
      Wrapped("RegistryKey(", registryId)
    }

    /** Dropping the key queues its slot for release, when the interpreter still exists. */
    method Drop()
      requires !consumed
      modifies this`consumed, unrefList`ids
      ensures consumed
      ensures old(unrefList.ids).Some? ==> unrefList.ids == Some(old(unrefList.ids).value + [registryId])
      ensures old(unrefList.ids).None? ==> unrefList.ids == None
    {
      if unrefList.ids.Some? {
        unrefList.ids := Some(unrefList.ids.value + [registryId]);
      }
      consumed := true;
    }

    /** `take`: consumes the key and hands out its slot without queueing it for release. */
    method Take() returns (id: int)
      requires !consumed
      modifies this`consumed
      ensures consumed && id == registryId
    {
      id := registryId;
      consumed := true;
    }
  }

  /** Of two keys sharing one release list, the taken one is never queued and the dropped one is
      queued exactly once; after the interpreter is gone, dropping a key queues nothing. */
  method KeyLifecycle(taken: int, dropped: int) returns (id: int, queued: Option<seq<int>>, orphan: Option<seq<int>>)
    ensures id == taken
    ensures queued == Some([dropped])
    ensures orphan == None
  {
    var list := new UnrefList(Some([]));
    var k1 := new RegistryKey(taken, list);
    var k2 := new RegistryKey(dropped, list);
    id := k1.Take();
    k2.Drop();
    assert [] + [dropped] == [dropped];
    queued := list.ids;
    var gone := new UnrefList(None);
    var k3 := new RegistryKey(dropped, gone);
    k3.Drop();
    orphan := gone.ids;
  }
}
