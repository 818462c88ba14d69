/**
  The string hash map of functions/libs/strmap.c against a mathematical map.
*/
module StringMap {
  import opened Http

  const NUL: byte := '\0'
  const TWO_32: nat := 0x1_0000_0000
  const TWO_64: nat := 0x1_0000_0000_0000_0000

  /** What a char pointer points at, up to its terminating NUL. */
  type cstring = s: seq<byte> | NUL !in s witness []

  /** An unsigned int, and what an unsigned value becomes when it is returned as an int. */
  type u32 = n: nat | n < TWO_32

  function Wrap(n: nat): u32 { n % TWO_32 }

  function AsInt(n: u32): int { if n < TWO_32 / 2 then n else n - TWO_32 }

  /** A string that a char pointer's length, kept in an unsigned int, and one more byte can describe. */
  predicate Storable(s: cstring) { |s| + 1 < TWO_32 }

  /** The size asked for to hold a string: its length and the NUL, both in unsigned arithmetic. */
  function RoomFor(s: cstring): u32 { Wrap(Wrap(|s|) + 1) }

  /** That size holds the string exactly when the string is storable. */
  lemma RoomSuffices(s: cstring)
    ensures RoomFor(s) > |s| <==> Storable(s)
    ensures Storable(s) ==> RoomFor(s) == |s| + 1 && Wrap(|s|) == |s|
  {
  }

  /** The rooms are the sizes of the allocations that hold the key and the value. */
  datatype Pair = Pair(key: cstring, value: cstring, keyRoom: u32, room: u32)

  // ---------------------------------------------------------------- the hash

  /** A byte as a char, which is signed. */
  function CharValue(b: byte): int { if b as int < 128 then b as int else b as int - 256 }

  /** The polynomial the hash stands for, over the integers. */
  function Polynomial(s: seq<byte>): int {
    if s == [] then 5381 else 33 * Polynomial(s[..|s| - 1]) + CharValue(s[|s| - 1])
  }

  function HashOf(s: seq<byte>): nat { Polynomial(s) % TWO_64 }

  lemma WrapsOnce(h: nat, p: int, c: int)
    requires h == p % TWO_64
    ensures ((h * 32 % TWO_64 + h) % TWO_64 + c) % TWO_64 == (33 * p + c) % TWO_64
  {
    var a := p / TWO_64;
    assert p == a * TWO_64 + h;
    var b, d := h * 32 / TWO_64, (h * 32 % TWO_64 + h) / TWO_64;
    assert h * 32 == b * TWO_64 + h * 32 % TWO_64;
    var x := (h * 32 % TWO_64 + h) % TWO_64 + c;
    assert 33 * p + c == x + (33 * a + b + d) * TWO_64;
    Multiples(x, 33 * a + b + d);
  }

  lemma Multiples(x: int, n: int)
    ensures (x + n * TWO_64) % TWO_64 == x % TWO_64
  {
    var q, r := x / TWO_64, x % TWO_64;
    assert x + n * TWO_64 == (q + n) * TWO_64 + r;
  }

  /** `hash`: 64-bit wrap-around at every step gives the polynomial, reduced once. */
  method Hash(str: cstring) returns (hash: nat)
    ensures hash == HashOf(str)
  {
    hash := 5381;
    var i := 0;
    while i < |str|
      invariant 0 <= i <= |str| && hash == HashOf(str[..i])
    {
      WrapsOnce(hash, Polynomial(str[..i]), CharValue(str[i]));
      assert str[..i + 1][..i] == str[..i];
      hash := ((hash * 32 % TWO_64 + hash) % TWO_64 + CharValue(str[i])) % TWO_64;
      i := i + 1;
    }
    assert str[..i] == str;
  }

  // ---------------------------------------------------------------- what the buckets mean

  function SlotOf(key: cstring, n: nat): (r: nat)
    requires n > 0
    ensures r < n
  {
    HashOf(key) % n
  }

  /** The bindings of one bucket. */
  function Bindings(b: seq<Pair>): map<cstring, cstring> {
    if b == [] then map[] else Bindings(b[..|b| - 1])[b[|b| - 1].key := b[|b| - 1].value]
  }

  function Contents(bs: seq<seq<Pair>>): map<cstring, cstring> {
    if bs == [] then map[] else Contents(bs[..|bs| - 1]) + Bindings(bs[|bs| - 1])
  }

  predicate Held(p: Pair) { |p.key| < p.keyRoom && |p.value| < p.room && Storable(p.value) }

  /** A bucket's keys are different, hash to it, and their values fit their allocations. */
  predicate Tidy(b: seq<Pair>, slot: nat, n: nat)
    requires n > 0
  {
    && (forall i, j :: 0 <= i < j < |b| ==> b[i].key != b[j].key)
    && (forall i :: 0 <= i < |b| ==> SlotOf(b[i].key, n) == slot && Held(b[i]))
  }

  lemma {:induction false} BindingsAre(b: seq<Pair>, key: cstring)
    requires forall i, j :: 0 <= i < j < |b| ==> b[i].key != b[j].key
    ensures key in Bindings(b) <==> exists i :: 0 <= i < |b| && b[i].key == key
    ensures forall i :: 0 <= i < |b| && b[i].key == key ==> Bindings(b)[key] == b[i].value
    ensures |Bindings(b)| == |b|
  {
    if b != [] {
      var front, last := b[..|b| - 1], b[|b| - 1];
      BindingsAre(front, key);
      if last.key != key { BindingsAre(front, last.key); }
      if key in Bindings(front) {
        var i :| 0 <= i < |front| && front[i].key == key;
        assert b[i].key == key;
      }
      assert last.key !in Bindings(front);
    }
  }

  /** Buckets do not share keys: a key is looked up in its own bucket only. */
  lemma {:induction false} ContentsAt(bs: seq<seq<Pair>>, n: nat, key: cstring)
    requires n > 0 && forall i :: 0 <= i < |bs| ==> Tidy(bs[i], i, n)
    ensures var slot := SlotOf(key, n);
            if slot < |bs| then
              && (key in Contents(bs) <==> key in Bindings(bs[slot]))
              && (key in Contents(bs) ==> Contents(bs)[key] == Bindings(bs[slot])[key])
            else key !in Contents(bs)
  {
    hide SlotOf, Bindings;
    if bs != [] {
      var front, last := bs[..|bs| - 1], bs[|bs| - 1];
      ContentsAt(front, n, key);
      BindingsAre(last, key);
    }
  }

  function Total(bs: seq<seq<Pair>>): nat {
    if bs == [] then 0 else Total(bs[..|bs| - 1]) + |bs[|bs| - 1]|
  }

  lemma {:induction false} ContentsSize(bs: seq<seq<Pair>>, n: nat)
    requires n > 0 && forall i :: 0 <= i < |bs| ==> Tidy(bs[i], i, n)
    ensures |Contents(bs)| == Total(bs)
  {
    if bs != [] {
      var front, last := bs[..|bs| - 1], bs[|bs| - 1];
      ContentsSize(front, n);
      BindingsAre(last, []);
      forall key | key in Contents(front) && key in Bindings(last) ensures false {
        ContentsAt(front, n, key);
        BindingsAre(last, key);
      }
      DisjointSizes(Contents(front), Bindings(last));
    }
  }

  lemma DisjointSizes(a: map<cstring, cstring>, b: map<cstring, cstring>)
    requires a.Keys !! b.Keys
    ensures |a + b| == |a| + |b|
  {
    assert (a + b).Keys == a.Keys + b.Keys;
    assert |(a + b).Keys| == |a.Keys| + |b.Keys|;
  }

  // ---------------------------------------------------------------- the two ways a put changes a bucket

  lemma BindingsAppend(b: seq<Pair>, p: Pair)
    ensures Bindings(b + [p]) == Bindings(b)[p.key := p.value]
  {
    assert (b + [p])[..|b|] == b;
  }

  lemma {:induction false} BindingsReplace(b: seq<Pair>, j: nat, p: Pair)
    requires j < |b| && b[j].key == p.key && forall i, j :: 0 <= i < j < |b| ==> b[i].key != b[j].key
    ensures Bindings(b[j := p]) == Bindings(b)[p.key := p.value]
  {
    var front, last := b[..|b| - 1], b[|b| - 1];
    if j == |b| - 1 {
      assert b[j := p][..|b| - 1] == front;
    } else {
      assert b[j := p][..|b| - 1] == front[j := p];
      BindingsReplace(front, j, p);
      assert last.key != p.key;
    }
  }

  /** Changing one bucket changes the map at the keys of that bucket only. */
  lemma ContentsUpdate(bs: seq<seq<Pair>>, n: nat, b: seq<Pair>, key: cstring, value: cstring)
    requires n == |bs| > 0 && forall i :: 0 <= i < |bs| ==> Tidy(bs[i], i, n)
    requires var slot := SlotOf(key, n); Tidy(b, slot, n) && Bindings(b) == Bindings(bs[slot])[key := value]
    ensures Contents(bs[SlotOf(key, n) := b]) == Contents(bs)[key := value]
  {
    hide SlotOf, Tidy, Contents, Bindings;
    var slot := SlotOf(key, n);
    var after := bs[slot := b];
    assert forall i :: 0 <= i < |after| ==> Tidy(after[i], i, n);
    forall k: cstring
      ensures k in Contents(after) <==> k in Contents(bs)[key := value]
      ensures k in Contents(after) ==> Contents(after)[k] == Contents(bs)[key := value][k]
    {
      ContentsAt(bs, n, k);
      ContentsAt(after, n, k);
    }
  }

  lemma {:induction false} EmptyContents(bs: seq<seq<Pair>>)
    requires forall i :: 0 <= i < |bs| ==> bs[i] == []
    ensures Contents(bs) == map[]
  {
    if bs != [] { EmptyContents(bs[..|bs| - 1]); }
  }

  // ---------------------------------------------------------------- enumeration

  function Entries(b: seq<Pair>): seq<(cstring, cstring)> {
    seq(|b|, i requires 0 <= i < |b| => (b[i].key, b[i].value))
  }

  function Flat(bs: seq<seq<Pair>>): seq<(cstring, cstring)> {
    if bs == [] then [] else Flat(bs[..|bs| - 1]) + Entries(bs[|bs| - 1])
  }

  /** The list of all pairs, bucket by bucket, has each binding of the map exactly once. */
  lemma {:induction false} FlatIsContents(bs: seq<seq<Pair>>, n: nat, key: cstring, value: cstring)
    requires n > 0 && forall i :: 0 <= i < |bs| ==> Tidy(bs[i], i, n)
    ensures (key, value) in Flat(bs) <==> key in Contents(bs) && Contents(bs)[key] == value
    ensures |Flat(bs)| == Total(bs)
  {
    if bs != [] {
      var front, last := bs[..|bs| - 1], bs[|bs| - 1];
      FlatIsContents(front, n, key, value);
      ContentsAt(front, n, key);
      BindingsAre(last, key);
      if (key, value) in Entries(last) {
        var i :| 0 <= i < |last| && Entries(last)[i] == (key, value);
        assert last[i].key == key && last[i].value == value;
      }
      if key in Bindings(last) && Bindings(last)[key] == value {
        var i :| 0 <= i < |last| && last[i].key == key;
        assert Entries(last)[i] == (key, value);
      }
      hide SlotOf;
    }
  }

  // ---------------------------------------------------------------- the map

  /** Which of the allocations of one call are granted. */
  datatype Grants = Grants(growValue: bool, newKey: bool, newValue: bool, pairs: bool)

  class StrMap {
    var buckets: array<seq<Pair>>

    ghost predicate Valid()
      reads this, buckets
    {
      forall i :: 0 <= i < buckets.Length ==> Tidy(buckets[i], i, buckets.Length)
    }

    ghost function Map(): map<cstring, cstring>
      reads this, buckets
    {
      Contents(buckets[..])
    }

    constructor (capacity: nat)
      ensures Valid() && Map() == map[] && fresh(buckets) && buckets.Length == capacity
    {
      buckets := new seq<Pair>[capacity](_ => []);
      new;
      EmptyContents(buckets[..]);
    }
  }

  /** `sm_new`, with any capacity; a map without buckets can be counted and enumerated, and no more. */
  method SmNew(capacity: u32, grantMap: bool, grantBuckets: bool) returns (m: StrMap?)
    ensures m != null <==> grantMap && grantBuckets
    ensures m != null ==> fresh(m) && fresh(m.buckets) && m.buckets.Length == capacity && m.Valid() && m.Map() == map[]
  {
    if !grantMap || !grantBuckets { return null; }
    m := new StrMap(capacity);
  }

  /** `get_pair`: where the bucket has the key. */
  method GetPair(bucket: seq<Pair>, key: cstring) returns (r: Option<nat>)
    ensures r.Some? ==> r.value < |bucket| && bucket[r.value].key == key
    ensures r.None? ==> forall i :: 0 <= i < |bucket| ==> bucket[i].key != key
  {
    if |bucket| == 0 { return None; }
    var i := 0;
    while i < |bucket|
      invariant 0 <= i <= |bucket| && forall j :: 0 <= j < i ==> bucket[j].key != key
    {
      if bucket[i].key == key { return Some(i); }
      i := i + 1;
    }
    r := None;
  }

  /** The bucket of a key and where the key is in it: exactly what the map knows of the key. */
  method Locate(m: StrMap, key: cstring) returns (index: nat, r: Option<nat>)
    requires m.Valid() && m.buckets.Length > 0
    ensures index == SlotOf(key, m.buckets.Length)
    ensures r.Some? ==> r.value < |m.buckets[index]| && m.buckets[index][r.value].key == key
    ensures r.Some? ==> key in m.Map() && m.Map()[key] == m.buckets[index][r.value].value
    ensures r.None? ==> key !in m.Map() && forall i :: 0 <= i < |m.buckets[index]| ==> m.buckets[index][i].key != key
  {
    var hash := Hash(key);
    index := hash % m.buckets.Length;
    r := GetPair(m.buckets[index], key);
    ContentsAt(m.buckets[..], m.buckets.Length, key);
    BindingsAre(m.buckets[index], key);
  }

  /** The hash of a key is divided by the number of buckets, so there must be some. */
  predicate HasBuckets(m: StrMap?, key: Option<cstring>)
    reads m
  {
    m != null && key.Some? ==> m.buckets.Length > 0
  }

  method SmExists(m: StrMap?, key: Option<cstring>) returns (r: nat)
    requires (m != null ==> m.Valid()) && HasBuckets(m, key)
    ensures r == if m != null && key.Some? && key.value in m.Map() then 1 else 0
  {
    if m == null { return 0; }
    if key == None { return 0; }
    var _, pair := Locate(m, key.value);
    r := if pair == None then 0 else 1;
  }

  method StrCpy(dest: array<byte>, src: cstring)
    requires |src| < dest.Length
    modifies dest
    ensures dest[..] == src + [NUL] + old(dest[|src| + 1..])
  {
    var i := 0;
    while i < |src|
      invariant 0 <= i <= |src| && dest[..i] == src[..i]
      invariant forall j :: i <= j < dest.Length ==> dest[j] == old(dest[j])
    {
      dest[i] := src[i];
      i := i + 1;
    }
    dest[i] := NUL;
  }

  /**
    `sm_get`: the size of the value as an int, or a copy of the value and its NUL, or 0 with the buffer
    untouched.
  */
  method SmGet(m: StrMap?, key: Option<cstring>, outBuf: array?<byte>, n: u32) returns (r: int)
    requires (m != null ==> m.Valid()) && HasBuckets(m, key)
    requires outBuf != null ==> n <= outBuf.Length
    modifies outBuf
    ensures m == null || key == None || key.value !in m.Map() ==>
              r == 0 && (outBuf != null ==> outBuf[..] == old(outBuf[..]))
    ensures m != null && key.Some? && key.value in m.Map() ==>
              var v := m.Map()[key.value];
              if outBuf == null then r == if n == 0 then AsInt(Wrap(|v| + 1)) else 0
              else if |v| >= n then r == 0 && outBuf[..] == old(outBuf[..])
              else r == 1 && outBuf[..] == v + [NUL] + old(outBuf[|v| + 1..])
  {
    if m == null { return 0; }
    if key == None { return 0; }
    var index, pair := Locate(m, key.value);
    if pair == None { return 0; }
    var value := m.buckets[index][pair.value].value;
    if outBuf == null && n == 0 { return AsInt(Wrap(|value| + 1)); }
    if outBuf == null { return 0; }
    if |value| >= n { return 0; }
    ghost var was := m.buckets[..];
    StrCpy(outBuf, value);
    assert m.buckets[..] == was;
    r := 1;
  }

  /**
    A size query followed by a get with that size yields the value of a bound key exactly when the size
    fits in an int; a larger one comes back negative.
  */
  method SizeThenGet(m: StrMap, key: cstring) returns (buf: array?<byte>)
    requires m.Valid() && m.buckets.Length > 0
    ensures buf != null <==> key in m.Map() && |m.Map()[key]| + 1 < TWO_32 / 2
    ensures buf != null ==> buf[..] == m.Map()[key] + [NUL]
  {
    var n := SmGet(m, Some(key), null, 0);
    StoredIsStorable(m, key);
    if n <= 0 { return null; }
    buf := new byte[n];
    ghost var was := m.buckets[..];
    var r := SmGet(m, Some(key), buf, n);
    assert m.buckets[..] == was;
  }

  lemma StoredIsStorable(m: StrMap, key: cstring)
    requires m.Valid() && m.buckets.Length > 0
    ensures key in m.Map() ==> Storable(m.Map()[key])
  {
    var slot := SlotOf(key, m.buckets.Length);
    ContentsAt(m.buckets[..], m.buckets.Length, key);
    BindingsAre(m.buckets[slot], key);
    if key in m.Map() {
      var i :| 0 <= i < |m.buckets[slot]| && m.buckets[slot][i].key == key;
      assert Held(m.buckets[slot][i]);
    }
  }

  /** Whether a put gets the memory it asks for, and so copies its strings. */
  predicate Granted(before: map<cstring, cstring>, key: cstring, value: cstring, g: Grants) {
    if key in before then |before[key]| >= Wrap(|value|) || g.growValue else g.newKey && g.newValue && g.pairs
  }

  /** Whether the strings it copies fit the memory it has asked for, in unsigned arithmetic. */
  predicate Fits(before: map<cstring, cstring>, key: cstring, value: cstring) {
    Storable(value) && (key in before || Storable(key))
  }

  /**
    `sm_put`: as long as what it copies fits, it succeeds exactly when its arguments are there and its
    allocations are granted; then the map has the new binding and otherwise the buckets are as they were.  The
    lengths are kept in unsigned ints: of a copy that does not fit nothing more is said.
  */
  method SmPut(m: StrMap?, key: Option<cstring>, value: Option<cstring>, g: Grants) returns (r: nat, fits: bool)
    requires (m != null ==> m.Valid()) && (value.Some? ==> HasBuckets(m, key))
    modifies if m == null then {} else {m.buckets}
    ensures fits <==>
              (m != null && key.Some? && value.Some? && old(Granted(m.Map(), key.value, value.value, g)) ==>
                old(Fits(m.Map(), key.value, value.value)))
    ensures fits && m != null ==> m.Valid() && m.buckets == old(m.buckets)
    ensures fits ==> r == if m != null && key.Some? && value.Some? && old(Granted(m.Map(), key.value, value.value, g))
                          then 1 else 0
    ensures fits && r == 1 ==> m.Map() == old(m.Map())[key.value := value.value]
    ensures fits && r == 0 && m != null ==> m.buckets[..] == old(m.buckets[..])
  {
    fits := true;
    if m == null { return 0, fits; }
    if key == None || value == None { return 0, fits; }
    var k, v := key.value, value.value;
    RoomSuffices(k);
    RoomSuffices(v);
    var valueLen := Wrap(|v|);
    var index, pair := Locate(m, k);
    var bucket := m.buckets[index];
    hide Wrap;
    if pair.Some? {
      var p := bucket[pair.value];
      var room := p.room;
      if |p.value| < valueLen {
        if !g.growValue { return 0, fits; }
        room := RoomFor(v);
      }
      if room <= |v| { return 0, false; }
      Rebind(m, index, pair.value, k, v, room);
      return 1, fits;
    }
    if !g.newKey { return 0, fits; }
    if !g.newValue { return 0, fits; }
    if !g.pairs { return 0, fits; }
    if RoomFor(k) <= |k| || RoomFor(v) <= |v| { return 0, false; }
    var added := Pair(k, v, RoomFor(k), RoomFor(v));
    BindingsAppend(bucket, added);
    Store(m, index, bucket + [added], k, v);
    r := 1;
  }

  /** The value of a pair is overwritten where it is. */
  method Rebind(m: StrMap, index: nat, i: nat, ghost key: cstring, value: cstring, room: u32)
    requires m.Valid() && m.buckets.Length > 0 && index == SlotOf(key, m.buckets.Length)
    requires i < |m.buckets[index]| && m.buckets[index][i].key == key && Storable(value) && |value| < room
    modifies m.buckets
    ensures m.Valid() && m.Map() == old(m.Map())[key := value]
  {
    var bucket := m.buckets[index];
    var changed := bucket[i].(value := value, room := room);
    BindingsReplace(bucket, i, changed);
    Store(m, index, bucket[i := changed], key, value);
  }

  /** The bucket of a key is replaced by one that also binds the key. */
  method Store(m: StrMap, index: nat, bucket: seq<Pair>, ghost key: cstring, ghost value: cstring)
    requires m.buckets.Length > 0 && index == SlotOf(key, m.buckets.Length)
    requires m.Valid() && Tidy(bucket, index, m.buckets.Length)
    requires Bindings(bucket) == Bindings(m.buckets[index])[key := value]
    modifies m.buckets
    ensures m.Valid() && m.Map() == old(m.Map())[key := value]
  {
    ContentsUpdate(m.buckets[..], m.buckets.Length, bucket, key, value);
    m.buckets[index] := bucket;
    assert m.buckets[..] == old(m.buckets[..])[index := bucket];
  }

  lemma WrapNext(n: nat)
    ensures (Wrap(n) + 1) % TWO_32 == Wrap(n + 1)
  {
  }

  /** `sm_get_count`: the number of bindings, in 32 bits. */
  method SmGetCount(m: StrMap?) returns (r: int)
    requires m != null ==> m.Valid()
    ensures r == if m == null then 0 else AsInt(|m.Map()| % TWO_32)
  {
    if m == null { return 0; }
    hide Wrap, Total, Tidy, Contents;
    var i, count := 0, 0;
    ghost var bs := m.buckets[..];
    WrapNone(bs);
    while i < m.buckets.Length
      invariant 0 <= i <= m.buckets.Length && count == Wrap(Total(bs[..i]))
    {
      var j := 0;
      while j < |m.buckets[i]|
        invariant 0 <= j <= |m.buckets[i]| && count == Wrap(Total(bs[..i]) + j)
      {
        WrapNext(Total(bs[..i]) + j);
        count := (count + 1) % TWO_32;
        j := j + 1;
      }
      TotalNext(bs, i);
      i := i + 1;
    }
    assert bs[..i] == bs;
    TotalIsSize(bs);
    r := AsInt(count);
  }

  lemma WrapNone(bs: seq<seq<Pair>>)
    ensures bs[..0] == [] && Wrap(Total([])) == 0
  {
  }

  lemma TotalIsSize(bs: seq<seq<Pair>>)
    requires forall i :: 0 <= i < |bs| ==> Tidy(bs[i], i, |bs|)
    ensures Wrap(Total(bs)) == |Contents(bs)| % TWO_32
  {
    if bs != [] { ContentsSize(bs, |bs|); }
    hide Tidy;
  }

  lemma TotalNext(bs: seq<seq<Pair>>, i: nat)
    requires i < |bs|
    ensures Total(bs[..i + 1]) == Total(bs[..i]) + |bs[i]|
  {
    assert bs[..i + 1][..i] == bs[..i];
  }

  /** `sm_enum`: the callback is called once with every binding. */
  method SmEnum(m: StrMap?, callback: bool) returns (r: nat, visited: seq<(cstring, cstring)>)
    requires m != null ==> m.Valid()
    ensures r == if m != null && callback then 1 else 0
    ensures r == 0 ==> visited == []
    ensures r == 1 ==> |visited| == |m.Map()|
    ensures r == 1 ==> forall k, v :: (k, v) in visited <==> k in m.Map() && m.Map()[k] == v
  {
    visited := [];
    if m == null { return 0, visited; }
    if !callback { return 0, visited; }
    var i := 0;
    while i < m.buckets.Length
      invariant 0 <= i <= m.buckets.Length && visited == Flat(m.buckets[..i])
    {
      assert m.buckets[..i + 1][..i] == m.buckets[..i];
      var j := 0;
      while j < |m.buckets[i]|
        invariant 0 <= j <= |m.buckets[i]| && visited == Flat(m.buckets[..i]) + Entries(m.buckets[i])[..j]
      {
        visited := visited + [(m.buckets[i][j].key, m.buckets[i][j].value)];
        j := j + 1;
      }
      assert Entries(m.buckets[i])[..j] == Entries(m.buckets[i]);
      i := i + 1;
    }
    assert m.buckets[..i] == m.buckets[..];
    if m.buckets.Length > 0 {
      ContentsSize(m.buckets[..], m.buckets.Length);
      FlatIsContents(m.buckets[..], m.buckets.Length, [], []);
      forall k, v ensures (k, v) in visited <==> k in m.Map() && m.Map()[k] == v {
        FlatIsContents(m.buckets[..], m.buckets.Length, k, v);
      }
    }
    r := 1;
  }
}
