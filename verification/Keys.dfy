/** The keys of the store's buckets: numbers in eight bytes, most significant first, ordered as byte strings. */
module StoreKeys {
  import opened Basics

  type Byte = x: int | 0 <= x < 256

  type Key = seq<Byte>

  function Pow256(w: nat): nat {
    if w == 0 then 1 else 256 * Pow256(w - 1)
  }

  /** How many numbers fit a key. */
  const LIMIT: nat := Pow256(8)

  function BigEndian(n: nat, width: nat): (k: Key)
    ensures |k| == width
  {
    if width == 0 then [] else BigEndian(n / 256, width - 1) + [n % 256]
  }

  function U64Key(id: nat): Key {
    BigEndian(id, 8)
  }

  function Decoded(k: Key): nat {
    if k == [] then 0 else Decoded(k[..|k| - 1]) * 256 + k[|k| - 1]
  }

  /** The store's order on keys: byte by byte. */
  predicate LexLess(a: Key, b: Key) {
    b != [] && (a == [] || a[0] < b[0] || (a[0] == b[0] && LexLess(a[1..], b[1..])))
  }

  method PutUint64(id: nat) returns (k: array<Byte>)
    ensures fresh(k) && k[..] == U64Key(id)
  {
    k := new Byte[8](_ => 0);
    var i, rest := 8, id;
    while i > 0
      invariant 0 <= i <= 8
      invariant BigEndian(id, 8) == BigEndian(rest, i) + k[i..]
    {
      k[i - 1] := rest % 256;
      assert k[i - 1..] == [rest % 256] + k[i..];
      MoveBrackets(BigEndian(rest / 256, i - 1), [rest % 256], k[i..], BigEndian(id, 8));
      rest, i := rest / 256, i - 1;
    }
    assert k[0..] == k[..] && BigEndian(rest, 0) + k[0..] == k[0..];
  }

  lemma {:induction false} DecodeBigEndian(n: nat, width: nat)
    requires n < Pow256(width)
    ensures Decoded(BigEndian(n, width)) == n
  {
    if width > 0 {
      DecodeBigEndian(n / 256, width - 1);
      assert BigEndian(n, width)[..width - 1] == BigEndian(n / 256, width - 1);
    }
  }

  /** Keys read back as the number they were made from, so different numbers have different keys. */
  lemma KeyReadsBack(id: nat)
    requires id < LIMIT
    ensures Decoded(U64Key(id)) == id
  {
    DecodeBigEndian(id, 8);
  }

  lemma {:induction false} LexSnoc(a: Key, b: Key, x: Byte, y: Byte)
    requires |a| == |b|
    ensures LexLess(a + [x], b + [y]) <==> LexLess(a, b) || (a == b && x < y)
  {
    if a == [] {
      assert (a + [x])[1..] == [] && (b + [y])[1..] == [];
    } else {
      assert (a + [x])[1..] == a[1..] + [x] && (b + [y])[1..] == b[1..] + [y];
      LexSnoc(a[1..], b[1..], x, y);
      assert a == [a[0]] + a[1..] && b == [b[0]] + b[1..];
    }
  }

  lemma DigitOrder(m: nat, n: nat)
    ensures m < n <==> m / 256 < n / 256 || (m / 256 == n / 256 && m % 256 < n % 256)
  {
  }

  lemma {:induction false} BigEndianOrder(m: nat, n: nat, width: nat)
    requires m < Pow256(width) && n < Pow256(width)
    ensures LexLess(BigEndian(m, width), BigEndian(n, width)) <==> m < n
  {
    if width > 0 {
      var a, b := m / 256, n / 256;
      DigitOrder(m, n);
      BigEndianOrder(a, b, width - 1);
      DecodeBigEndian(a, width - 1);
      DecodeBigEndian(b, width - 1);
      hide LexLess, Decoded;
      LexSnoc(BigEndian(a, width - 1), BigEndian(b, width - 1), m % 256, n % 256);
      assert BigEndian(a, width - 1) == BigEndian(b, width - 1) ==> a == b;
    }
  }

  /** The order of the keys is the order of the numbers. */
  lemma KeyOrder(m: nat, n: nat)
    requires m < LIMIT && n < LIMIT
    ensures LexLess(U64Key(m), U64Key(n)) <==> m < n
    ensures U64Key(m) == U64Key(n) ==> m == n
  {
    BigEndianOrder(m, n, 8);
    KeyReadsBack(m);
    KeyReadsBack(n);
  }

  // ---- buckets filled from a sequence counter, and the cursor that walks them backwards ----

  /** The keys of the numbers 1 to n. */
  ghost function KeysTo(n: nat): set<Key> {
    set i | 1 <= i <= n :: U64Key(i)
  }

  lemma KeysPlus(n: nat)
    requires n + 1 < LIMIT
    ensures KeysTo(n + 1) == KeysTo(n) + {U64Key(n + 1)} && U64Key(n + 1) !in KeysTo(n)
  {
    hide U64Key, LIMIT;
    forall i | 1 <= i <= n
      ensures U64Key(i) != U64Key(n + 1)
    {
      KeyOrder(i, n + 1);
    }
  }

  /** The bucket holds the values, in order, under the keys of 1, 2, 3 and so on. */
  ghost predicate Holds<V>(bucket: map<Key, V>, values: seq<V>) {
    && bucket.Keys == KeysTo(|values|)
    && forall i :: 1 <= i <= |values| ==> U64Key(i) in bucket && bucket[U64Key(i)] == values[i - 1]
  }

  /** Putting one more value under the next number. */
  lemma HoldsPut<V>(bucket: map<Key, V>, values: seq<V>, v: V)
    requires Holds(bucket, values) && |values| + 1 < LIMIT
    ensures Holds(bucket[U64Key(|values| + 1) := v], values + [v])
  {
    hide U64Key, LIMIT;
    var n := |values|;
    KeysPlus(n);
    forall i | 1 <= i <= n
      ensures U64Key(i) != U64Key(n + 1)
    {
      assert U64Key(i) in KeysTo(n);
    }
    var after := bucket[U64Key(n + 1) := v];
    assert after.Keys == bucket.Keys + {U64Key(n + 1)};
  }

  lemma KeyInKeys(id: nat, n: nat)
    requires id < LIMIT && n < LIMIT
    ensures U64Key(id) in KeysTo(n) <==> 1 <= id <= n
  {
    hide U64Key, LIMIT;
    if U64Key(id) in KeysTo(n) {
      var i :| 1 <= i <= n && U64Key(i) == U64Key(id);
      KeyOrder(i, id);
    }
  }

  /** The last key of the bucket that comes before `bound`, or the last of all without a bound. */
  predicate IsLast(keys: set<Key>, bound: Option<Key>, k: Key) {
    && k in keys && (bound.Some? ==> LexLess(k, bound.value))
    && forall x :: x in keys && (bound.Some? ==> LexLess(x, bound.value)) ==> x == k || LexLess(x, k)
  }

  /** The cursor finds the number before the one it stands on. */
  lemma LastIs(n: nat, i: nat, k: Key)
    requires i <= n < LIMIT - 1
    ensures i >= 1 ==> (IsLast(KeysTo(n), if i == n then None else Some(U64Key(i + 1)), k) <==> k == U64Key(i))
    ensures i == 0 && n > 0 ==> !IsLast(KeysTo(n), Some(U64Key(1)), k)
    ensures n == 0 ==> !IsLast(KeysTo(n), None, k)
  {
    hide U64Key, LIMIT, LexLess;
    forall a: nat, b: nat | a <= n + 1 && b <= n + 1
      ensures LexLess(U64Key(a), U64Key(b)) <==> a < b
      ensures U64Key(a) == U64Key(b) ==> a == b
    {
      KeyOrder(a, b);
    }
    if i >= 1 {
      assert U64Key(i) in KeysTo(n);
    }
  }

  /** List a bucket from its last key backwards, at most `limit` values (100 if the limit is not positive). */
  function Cap(limit: int): nat {
    if limit <= 0 then 100 else limit
  }

  method ListNewest<V>(bucket: map<Key, V>, limit: int, ghost values: seq<V>) returns (out: seq<V>)
    requires |values| < LIMIT - 1 && Holds(bucket, values)
    ensures var most := if limit <= 0 then 100 else limit; |out| == if |values| < most then |values| else most
    ensures forall j :: 0 <= j < |out| ==> out[j] == values[|values| - 1 - j]
  {
    hide U64Key, LIMIT, LexLess;
    out := [];
    var at: Option<Key> := None;
    ghost var n := |values|;
    ghost var i := n;
    var more := true;
    while more && |out| < Cap(limit)
      invariant 0 <= i <= n && |out| == n - i <= Cap(limit)
      invariant at == if i == n then None else Some(U64Key(i + 1))
      invariant !more ==> i == 0
      invariant forall j :: 0 <= j < |out| ==> out[j] == values[n - 1 - j]
      decreases more, i
    {
      var next := CursorStep(bucket, at, n, i);
      if next.None? {
        more := false;
      } else {
        out := out + [bucket[next.value]];
        at := next;
        i := i - 1;
      }
    }
  }

  /** c.Last() without a position, c.Prev() with one. */
  method CursorStep<V>(bucket: map<Key, V>, at: Option<Key>, ghost n: nat, ghost i: nat) returns (next: Option<Key>)
    requires i <= n < LIMIT - 1 && bucket.Keys == KeysTo(n)
    requires at == if i == n then None else Some(U64Key(i + 1))
    ensures next == if i == 0 then None else Some(U64Key(i))
    ensures next.Some? ==> next.value in bucket
  {
    hide U64Key, LIMIT, LexLess;
    forall k: Key
      ensures i >= 1 ==> (IsLast(bucket.Keys, at, k) <==> k == U64Key(i))
      ensures i == 0 ==> !IsLast(bucket.Keys, at, k)
    {
      LastIs(n, i, k);
    }
    if i >= 1 {
      assert U64Key(i) in bucket.Keys && IsLast(bucket.Keys, at, U64Key(i));
    }
    if k :| k in bucket.Keys && IsLast(bucket.Keys, at, k) {
      return Some(k);
    }
    return None;
  }
}
