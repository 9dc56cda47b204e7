/**
 * The deduplicating string table (compiler/src/string_table.rs): one
 * append-only UTF-8 buffer and a cache from strings to the [start, end)
 * byte ranges handed out for them.
 */
module StringTables {
  import opened Common

  datatype Address = Address(start: nat, end: nat)

  /** The table's contents: the buffer's bytes and the cache of addresses. */
  datatype TableState = TableState(buffer: seq<byte>, addresses: map<string, Address>)

  predicate OccursAt(hay: seq<byte>, needle: seq<byte>, i: nat)
  {
    i + |needle| <= |hay| && hay[i..i + |needle|] == needle
  }

  /** The first position at or after `from` where `needle` occurs in `hay`. */
  function FindFrom(hay: seq<byte>, needle: seq<byte>, from: nat): (r: Option<nat>)
    ensures r.Some? ==> from <= r.value && OccursAt(hay, needle, r.value)
    ensures r.Some? ==> forall j :: from <= j < r.value ==> !OccursAt(hay, needle, j)
    ensures r.None? ==> forall j :: from <= j ==> !OccursAt(hay, needle, j)
    decreases |hay| - from
  {
    if from + |needle| > |hay| then None
    else if hay[from..from + |needle|] == needle then Some(from)
    else FindFrom(hay, needle, from + 1)
  }

  /** Rust's `str::find` on the buffer: the first byte offset where `needle` occurs. */
  function Find(hay: seq<byte>, needle: seq<byte>): (r: Option<nat>)
    ensures r.Some? ==> OccursAt(hay, needle, r.value)
    ensures r.Some? ==> forall j :: 0 <= j < r.value ==> !OccursAt(hay, needle, j)
    ensures r.None? ==> forall j :: !OccursAt(hay, needle, j)
  {
    FindFrom(hay, needle, 0)
  }

  /** Every cached address spells its string in the buffer. */
  predicate Valid(t: TableState)
  {
    forall s :: s in t.addresses ==>
      (OccursAt(t.buffer, Encode(s), t.addresses[s].start)
       && t.addresses[s].end == t.addresses[s].start + |Encode(s)|)
  }

  const Empty: TableState := TableState([], map[])

  /** What `put` does, as a function of the table before the call. */
  function PutSpec(t: TableState, s: string): (TableState, Address)
  {
    if s in t.addresses then (t, t.addresses[s])
    else
      var bytes := Encode(s);
      match Find(t.buffer, bytes)
      case Some(start) =>
        var a := Address(start, start + |bytes|);
        (TableState(t.buffer, t.addresses[s := a]), a)
      case None =>
        var a := Address(|t.buffer|, |t.buffer| + |bytes|);
        (TableState(t.buffer + bytes, t.addresses[s := a]), a)
  }

  class StringTable {
    var buffer: seq<byte>
    var addresses: map<string, Address>

    function State(): TableState
      reads this
    {
      TableState(buffer, addresses)
    }

    constructor ()
      ensures State() == Empty
    {
      buffer := [];
      addresses := map[];
    }

    method Put(s: string) returns (address: Address)
      modifies this
      ensures (State(), address) == PutSpec(old(State()), s)
    {
      if s in addresses {
        address := addresses[s];
        return;
      }
      var bytes := Encode(s);
      var found := Find(buffer, bytes);
      if found.Some? {
        address := Address(found.value, found.value + |bytes|);
      } else {
        var start := |buffer|;
        buffer := buffer + bytes;
        address := Address(start, |buffer|);
      }
      addresses := addresses[s := address];
    }

    /** The whole buffer, as the bytecode's string segment. */
    function GetString(): (r: seq<byte>)
      reads this
      ensures r == State().buffer
    {
      buffer
    }

    function Len(): (n: nat)
      reads this
      ensures n == |State().buffer|
    {
      |buffer|
    }
  }

  /** The table starts valid, and every `put` keeps it valid. */
  lemma EmptyValid()
    ensures Valid(Empty)
  {
  }

  lemma PutKeepsValid(t: TableState, s: string)
    requires Valid(t)
    ensures Valid(PutSpec(t, s).0)
  {
    var (t', a) := PutSpec(t, s);
    if s !in t.addresses && Find(t.buffer, Encode(s)).None? {
      forall u | u in t'.addresses
        ensures OccursAt(t'.buffer, Encode(u), t'.addresses[u].start)
      {
        if u != s {
          assert OccursAt(t.buffer, Encode(u), t.addresses[u].start);
          PrefixOccurrence(t.buffer, Encode(s), Encode(u), t.addresses[u].start);
        } else {
          assert t'.buffer[|t.buffer|..] == Encode(s);
        }
      }
    }
  }

  lemma PrefixOccurrence(hay: seq<byte>, extra: seq<byte>, needle: seq<byte>, i: nat)
    requires OccursAt(hay, needle, i)
    ensures OccursAt(hay + extra, needle, i)
  {
    assert (hay + extra)[i..i + |needle|] == hay[i..i + |needle|];
  }

  /**
   * The address of a put string spans exactly its UTF-8 bytes, the buffer
   * holds those bytes there, and the address is cached under the string.
   */
  lemma PutAddressSpellsString(t: TableState, s: string)
    requires Valid(t)
    ensures var (t', a) := PutSpec(t, s);
      a.end - a.start == Utf8Length(s) && a.end <= |t'.buffer|
      && t'.buffer[a.start..a.end] == Encode(s)
      && s in t'.addresses && t'.addresses[s] == a
  {
    var (t', a) := PutSpec(t, s);
    if s in t.addresses {
      assert OccursAt(t.buffer, Encode(s), t.addresses[s].start);
    }
  }

  /** The buffer only grows, so every address handed out earlier stays valid. */
  lemma PutOnlyAppends(t: TableState, s: string)
    requires Valid(t)
    ensures var t' := PutSpec(t, s).0;
      IsPrefix(t.buffer, t'.buffer)
      && (forall u :: u in t.addresses ==> u in t'.addresses && t'.addresses[u] == t.addresses[u])
  {
    assert (t.buffer + Encode(s))[..|t.buffer|] == t.buffer;
  }

  /** `t'` holds `t`'s buffer as a prefix and every address `t` cached. */
  predicate Extends(t: TableState, t': TableState)
  {
    IsPrefix(t.buffer, t'.buffer)
    && forall u :: u in t.addresses ==> u in t'.addresses && t'.addresses[u] == t.addresses[u]
  }

  lemma ExtendsTrans(t1: TableState, t2: TableState, t3: TableState)
    requires Extends(t1, t2) && Extends(t2, t3)
    ensures Extends(t1, t3)
  {
    assert t3.buffer[..|t1.buffer|] == t3.buffer[..|t2.buffer|][..|t1.buffer|];
  }

  /** A `put` extends the table, whether or not it was valid. */
  lemma PutExtends(t: TableState, s: string)
    ensures Extends(t, PutSpec(t, s).0)
  {
    assert (t.buffer + Encode(s))[..|t.buffer|] == t.buffer;
  }

  /** Putting the same string again returns the same address and changes nothing. */
  lemma PutTwice(t: TableState, s: string)
    ensures var (t1, a1) := PutSpec(t, s);
      PutSpec(t1, s) == (t1, a1)
  {
  }

  /** A string already spelled in the buffer is not appended: it gets its first occurrence. */
  lemma PutReusesFirstOccurrence(t: TableState, s: string, i: nat)
    requires s !in t.addresses
    requires OccursAt(t.buffer, Encode(s), i)
    ensures var (t', a) := PutSpec(t, s);
      t'.buffer == t.buffer && a.start <= i
      && forall j :: 0 <= j < a.start ==> !OccursAt(t.buffer, Encode(s), j)
  {
  }

  /** A string found nowhere is appended at the old end of the buffer. */
  lemma PutAppendsNewString(t: TableState, s: string)
    requires s !in t.addresses
    requires forall j :: !OccursAt(t.buffer, Encode(s), j)
    ensures var (t', a) := PutSpec(t, s);
      a == Address(|t.buffer|, |t.buffer| + Utf8Length(s)) && |t'.buffer| == |t.buffer| + Utf8Length(s)
      && t' == TableState(t.buffer + Encode(s), t.addresses[s := a])
  {
    assert Find(t.buffer, Encode(s)).None?;
  }

  /** The example's names are plain ASCII, so each char is one byte. */
  lemma RiverAscii(space: string, time: string, river: string)
    requires space == "a river in space" && time == "a river in time" && river == "a river"
    ensures IsAscii(space) && IsAscii(time) && IsAscii(river)
  {
  }

  lemma TimeNotInSpace(space: string, time: string)
    requires space == "a river in space" && time == "a river in time"
    ensures forall j :: !OccursAt(Encode(space), Encode(time), j)
  {
    RiverAscii(space, time, "a river");
    EncodeAscii(space);
    EncodeAscii(time);
    forall j ensures !OccursAt(Encode(space), Encode(time), j) {
      if j <= 1 {
        assert Encode(space)[j + 11] != Encode(time)[11];
      }
    }
  }

  /**
   * The table's own example: two appends, a cache hit, and a reused prefix.
   * (The strings are parameters so that the verifier does not unfold the
   * encoding of each literal eagerly.)
   */
  lemma RiverExample(space: string, time: string, river: string)
    requires space == "a river in space" && time == "a river in time" && river == "a river"
    ensures var (t1, a1) := PutSpec(Empty, space);
      var (t2, a2) := PutSpec(t1, time);
      var (t3, a3) := PutSpec(t2, space);
      var (t4, a4) := PutSpec(t3, river);
      a1 == Address(0, 16) && a2 == Address(16, 31) && a3 == Address(0, 16) && a4 == Address(0, 7)
  {
    RiverAscii(space, time, river);
    EncodeAscii(space);
    EncodeAscii(time);
    EncodeAscii(river);
    TimeNotInSpace(space, time);
    var t1 := FirstPut(space);
    var t2 := SecondPut(t1, space, time);
    assert PutSpec(t2, space) == (t2, Address(0, 16));
    ThirdPut(t2, space, time, river);
  }

  lemma FirstPut(space: string) returns (t1: TableState)
    requires space == "a river in space"
    ensures PutSpec(Empty, space) == (t1, Address(0, 16))
    ensures t1 == TableState(Encode(space), map[space := Address(0, 16)])
  {
    RiverAscii(space, "a river in time", "a river");
    EncodeAscii(space);
    t1 := TableState(Encode(space), map[space := Address(0, 16)]);
    assert Find([], Encode(space)) == None;
    assert [] + Encode(space) == Encode(space);
  }

  lemma SecondPut(t1: TableState, space: string, time: string) returns (t2: TableState)
    requires space == "a river in space" && time == "a river in time"
    requires t1 == TableState(Encode(space), map[space := Address(0, 16)])
    ensures PutSpec(t1, time) == (t2, Address(16, 31))
    ensures t2 == TableState(Encode(space) + Encode(time), t1.addresses[time := Address(16, 31)])
  {
    RiverAscii(space, time, "a river");
    EncodeAscii(space);
    EncodeAscii(time);
    TimeNotInSpace(space, time);
    assert time != space by {
      assert |time| != |space|;
    }
    PutAppendsNewString(t1, time);
    t2 := TableState(Encode(space) + Encode(time), t1.addresses[time := Address(16, 31)]);
  }

  lemma ThirdPut(t2: TableState, space: string, time: string, river: string)
    requires space == "a river in space" && time == "a river in time" && river == "a river"
    requires t2 == TableState(Encode(space) + Encode(time), map[space := Address(0, 16), time := Address(16, 31)])
    ensures PutSpec(t2, river).1 == Address(0, 7)
  {
    RiverAscii(space, time, river);
    EncodeAscii(space);
    EncodeAscii(river);
    assert t2.buffer[0..7] == Encode(river) by {
      forall k | 0 <= k < 7 ensures t2.buffer[k] == Encode(river)[k] {
        assert space[k] == river[k];
      }
    }
    assert Find(t2.buffer, Encode(river)) == Some(0);
  }
}
