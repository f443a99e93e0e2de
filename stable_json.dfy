/** index.js, stableStringify: a deterministic JSON serialisation of a request
    body, in which object keys are emitted in sorted order, so that the HMAC
    over it does not depend on the order in which the client built the object. */
module StableJson {

  /** A parsed JSON value. An object's members are in insertion order; a
      JavaScript object never holds two members with the same key. */
  datatype Json =
    | Null
    | Bool(b: bool)
    | Number(n: real)
    | Str(s: string)
    | Array(items: seq<Json>)
    | Object(members: seq<Member>)

  datatype Member = Member(key: string, value: Json)

  /** JSON.stringify on a string and on a number, whose escaping and number
      formatting are not modelled. */
  datatype Encoders = Encoders(quote: string -> string, number: real -> string)

  // ---------------------------------------------------------------------------
  // The order Array.prototype.sort uses on strings: lexicographic by character.

  predicate Less(a: string, b: string)
  {
    if a == [] then b != []
    else if b == [] then false
    else a[0] < b[0] || (a[0] == b[0] && Less(a[1..], b[1..]))
  }

  lemma {:induction false} LessIrreflexive(a: string)
    ensures !Less(a, a)
  {
    if a != [] {
      LessIrreflexive(a[1..]);
    }
  }

  lemma {:induction false} LessTransitive(a: string, b: string, c: string)
    requires Less(a, b) && Less(b, c)
    ensures Less(a, c)
  {
    if a != [] && b != [] && c != [] && a[0] == b[0] == c[0] {
      LessTransitive(a[1..], b[1..], c[1..]);
    }
  }

  lemma {:induction false} LessTotal(a: string, b: string)
    requires a != b
    ensures Less(a, b) || Less(b, a)
  {
    if a != [] && b != [] && a[0] == b[0] {
      assert a == [a[0]] + a[1..] && b == [b[0]] + b[1..];
      LessTotal(a[1..], b[1..]);
    }
  }

  lemma LessAsymmetric(a: string, b: string)
    requires Less(a, b)
    ensures !Less(b, a)
  {
    if Less(b, a) {
      LessTransitive(a, b, a);
      LessIrreflexive(a);
    }
  }

  predicate StrictlySorted(s: seq<string>)
  {
    forall i, j :: 0 <= i < j < |s| ==> Less(s[i], s[j])
  }

  predicate NoDuplicates(s: seq<string>)
  {
    forall i, j :: 0 <= i < j < |s| ==> s[i] != s[j]
  }

  // ---------------------------------------------------------------------------
  // Object.keys(obj).sort()

  /** Inserts k before the first element that is not below it. */
  function Insert(k: string, s: seq<string>): (r: seq<string>)
    ensures |r| == |s| + 1
    ensures forall x :: x in r <==> x == k || x in s
  {
    if s == [] || !Less(s[0], k) then [k] + s
    else [s[0]] + Insert(k, s[1..])
  }

  lemma {:induction false} InsertAddsOne(k: string, s: seq<string>)
    ensures multiset(Insert(k, s)) == multiset(s) + multiset{k}
  {
    if s != [] && Less(s[0], k) {
      InsertAddsOne(k, s[1..]);
      assert s == [s[0]] + s[1..];
    }
  }

  lemma {:induction false} InsertKeepsSorted(k: string, s: seq<string>)
    requires StrictlySorted(s) && k !in s
    ensures StrictlySorted(Insert(k, s))
  {
    if s == [] {
    } else if !Less(s[0], k) {
      LessTotal(k, s[0]);
      forall j | 0 <= j < |s| ensures Less(k, s[j]) {
        if j > 0 { LessTransitive(k, s[0], s[j]); }
      }
    } else {
      assert StrictlySorted(s[1..]);
      InsertKeepsSorted(k, s[1..]);
      var rest := Insert(k, s[1..]);
      forall x | x in rest ensures Less(s[0], x) {
        if x != k {
          var j :| 0 <= j < |s[1..]| && s[1..][j] == x;
          assert s[j + 1] == x;
        }
      }
    }
  }

  /** The sorted keys: a permutation of the input, in ascending order when the
      keys are distinct, as an object's keys are. */
  function SortKeys(ks: seq<string>): (r: seq<string>)
    ensures |r| == |ks|
    ensures forall x :: x in r <==> x in ks
    ensures NoDuplicates(ks) ==> StrictlySorted(r)
  {
    if ks == [] then []
    else
      assert ks == [ks[0]] + ks[1..];
      var rest := SortKeys(ks[1..]);
      if NoDuplicates(ks) then
        assert NoDuplicates(ks[1..]) && ks[0] !in ks[1..];
        InsertKeepsSorted(ks[0], rest);
        Insert(ks[0], rest)
      else
        Insert(ks[0], rest)
  }

  /** Sorting only reorders: every key occurs as often in the result as in the input. */
  lemma {:induction false} SortKeysIsPermutation(ks: seq<string>)
    ensures multiset(SortKeys(ks)) == multiset(ks)
  {
    if ks != [] {
      SortKeysIsPermutation(ks[1..]);
      InsertAddsOne(ks[0], SortKeys(ks[1..]));
      assert ks == [ks[0]] + ks[1..];
    }
  }

  /** Two ascending sequences with the same elements are equal: the sorted key
      list does not depend on the order the keys came in, nor on the sorting algorithm. */
  lemma {:induction false} StrictlySortedUnique(x: seq<string>, y: seq<string>)
    requires StrictlySorted(x) && StrictlySorted(y)
    requires forall s :: s in x <==> s in y
    ensures x == y
  {
    if x != [] {
      assert x[0] in x;
    }
    if y != [] {
      assert y[0] in y;
    }
    if x != [] && y != [] {
      assert x[0] in y && y[0] in x;
      if x[0] != y[0] {
        var i :| 0 <= i < |x| && x[i] == y[0];
        var j :| 0 <= j < |y| && y[j] == x[0];
        assert i > 0 && j > 0;
        assert Less(x[0], y[0]) && Less(y[0], x[0]);
        LessAsymmetric(x[0], y[0]);
      }
      forall s ensures s in x[1..] <==> s in y[1..] {
        if s in x[1..] {
          var i :| 0 <= i < |x[1..]| && x[1..][i] == s;
          assert Less(x[0], s);
          LessIrreflexive(s);
          assert s in y;
        }
        if s in y[1..] {
          var i :| 0 <= i < |y[1..]| && y[1..][i] == s;
          assert Less(y[0], s);
          LessIrreflexive(s);
          assert s in x;
        }
      }
      StrictlySortedUnique(x[1..], y[1..]);
      assert x == [x[0]] + x[1..] && y == [y[0]] + y[1..];
    }
  }

  // ---------------------------------------------------------------------------
  // stableStringify

  function KeysOf(ms: seq<Member>): (ks: seq<string>)
    ensures |ks| == |ms| && forall i :: 0 <= i < |ms| ==> ks[i] == ms[i].key
  {
    seq(|ms|, i requires 0 <= i < |ms| => ms[i].key)
  }

  predicate DistinctKeys(ms: seq<Member>)
  {
    forall i, j :: 0 <= i < j < |ms| ==> ms[i].key != ms[j].key
  }

  /** obj[k]: the member holding key k. */
  function Get(ms: seq<Member>, k: string): (m: Member)
    requires k in KeysOf(ms)
    ensures m.key == k
    ensures exists i :: 0 <= i < |ms| && ms[i] == m
  {
    if ms[0].key == k then ms[0]
    else
      assert KeysOf(ms) == [ms[0].key] + KeysOf(ms[1..]);
      var m := Get(ms[1..], k);
      m
  }

  /** Array.prototype.join. */
  function Join(parts: seq<string>, sep: string): string
  {
    if |parts| == 0 then ""
    else if |parts| == 1 then parts[0]
    else parts[0] + sep + Join(parts[1..], sep)
  }

  function Stringify(enc: Encoders, j: Json): (s: string)
    ensures j.Array? ==> |s| >= 2 && s[0] == '[' && s[|s| - 1] == ']'
    ensures j.Object? ==> |s| >= 2 && s[0] == '{' && s[|s| - 1] == '}'
    decreases j, 1, 0
  {
    match j
    case Null => "null"
    case Bool(b) => if b then "true" else "false"
    case Number(n) => enc.number(n)
    case Str(s) => enc.quote(s)
    case Array(items) => "[" + Join(ItemEncodings(enc, j, 0), ",") + "]"
    case Object(members) => "{" + Join(MemberEncodings(enc, j, SortKeys(KeysOf(members)), 0), ",") + "}"
  }

  /** obj.map(stableStringify), from index i on. */
  function ItemEncodings(enc: Encoders, j: Json, i: nat): seq<string>
    requires j.Array? && i <= |j.items|
    decreases j, 0, |j.items| - i
  {
    if i == |j.items| then []
    else [Stringify(enc, j.items[i])] + ItemEncodings(enc, j, i + 1)
  }

  /** keys.map(k => JSON.stringify(k) + ':' + stableStringify(obj[k])), from index i on. */
  function MemberEncodings(enc: Encoders, j: Json, keys: seq<string>, i: nat): seq<string>
    requires j.Object? && i <= |keys| && forall k :: k in keys ==> k in KeysOf(j.members)
    decreases j, 0, |keys| - i
  {
    if i == |keys| then []
    else
      var m := Get(j.members, keys[i]);
      [enc.quote(keys[i]) + ":" + Stringify(enc, m.value)] + MemberEncodings(enc, j, keys, i + 1)
  }

  // ---------------------------------------------------------------------------
  // Properties of stableStringify

  lemma {:induction false} ItemEncodingsFrom(enc: Encoders, j: Json, i: nat)
    requires j.Array? && i <= |j.items|
    ensures |ItemEncodings(enc, j, i)| == |j.items| - i
    ensures forall k :: 0 <= k < |j.items| - i ==> ItemEncodings(enc, j, i)[k] == Stringify(enc, j.items[i + k])
    decreases |j.items| - i
  {
    if i < |j.items| {
      ItemEncodingsFrom(enc, j, i + 1);
    }
  }

  /** An array is written as '[', its elements' encodings in their original
      order joined by ',', then ']'; the empty array gives "[]". */
  lemma ArrayEncoding(enc: Encoders, items: seq<Json>)
    ensures Stringify(enc, Array(items))
            == "[" + Join(seq(|items|, i requires 0 <= i < |items| => Stringify(enc, items[i])), ",") + "]"
    ensures items == [] ==> Stringify(enc, Array(items)) == "[]"
  {
    ItemEncodingsFrom(enc, Array(items), 0);
    assert ItemEncodings(enc, Array(items), 0) == seq(|items|, i requires 0 <= i < |items| => Stringify(enc, items[i]));
  }

  lemma {:induction false} MemberEncodingsFrom(enc: Encoders, j: Json, keys: seq<string>, i: nat)
    requires j.Object? && i <= |keys| && forall k :: k in keys ==> k in KeysOf(j.members)
    ensures |MemberEncodings(enc, j, keys, i)| == |keys| - i
    ensures forall n :: 0 <= n < |keys| - i ==>
              MemberEncodings(enc, j, keys, i)[n] == enc.quote(keys[i + n]) + ":" + Stringify(enc, Get(j.members, keys[i + n]).value)
    decreases |keys| - i
  {
    if i < |keys| {
      MemberEncodingsFrom(enc, j, keys, i + 1);
    }
  }

  /** An object is written as '{', then for each key in ascending order the
      quoted key, ':' and the encoding of its value, joined by ',', then '}';
      the empty object gives "{}". */
  lemma ObjectEncoding(enc: Encoders, ms: seq<Member>)
    ensures var keys := SortKeys(KeysOf(ms));
            Stringify(enc, Object(ms))
            == "{" + Join(seq(|keys|, n requires 0 <= n < |keys| =>
                            enc.quote(keys[n]) + ":" + Stringify(enc, Get(ms, keys[n]).value)), ",") + "}"
    ensures ms == [] ==> Stringify(enc, Object(ms)) == "{}"
  {
    var keys := SortKeys(KeysOf(ms));
    var parts := MemberEncodings(enc, Object(ms), keys, 0);
    var expected := seq(|keys|, n requires 0 <= n < |keys| => enc.quote(keys[n]) + ":" + Stringify(enc, Get(ms, keys[n]).value));
    MemberEncodingsFrom(enc, Object(ms), keys, 0);
    forall n | 0 <= n < |keys| ensures parts[n] == expected[n] {
    }
    assert parts == expected;
  }

  /** The keys of an object are emitted in strictly ascending order, each exactly once. */
  lemma ObjectKeysAscending(ms: seq<Member>)
    requires DistinctKeys(ms)
    ensures StrictlySorted(SortKeys(KeysOf(ms)))
    ensures multiset(SortKeys(KeysOf(ms))) == multiset(KeysOf(ms))
  {
    assert NoDuplicates(KeysOf(ms));
    SortKeysIsPermutation(KeysOf(ms));
  }

  lemma {:induction false} MemberEncodingsAgree(enc: Encoders, a: Json, b: Json, keys: seq<string>, i: nat)
    requires a.Object? && b.Object? && i <= |keys|
    requires forall k :: k in keys ==> k in KeysOf(a.members) && k in KeysOf(b.members)
    requires forall k :: k in keys ==> Get(a.members, k) == Get(b.members, k)
    ensures MemberEncodings(enc, a, keys, i) == MemberEncodings(enc, b, keys, i)
    decreases |keys| - i
  {
    if i < |keys| {
      MemberEncodingsAgree(enc, a, b, keys, i + 1);
    }
  }

  /** Objects with the same members have the same keys. */
  lemma SameMembersSameKeys(a: seq<Member>, b: seq<Member>)
    requires forall m :: m in a <==> m in b
    ensures forall k :: k in KeysOf(a) <==> k in KeysOf(b)
  {
    forall k | k in KeysOf(a) ensures k in KeysOf(b) {
      var i :| 0 <= i < |a| && KeysOf(a)[i] == k;
      assert a[i] in b;
      var j :| 0 <= j < |b| && b[j] == a[i];
      assert KeysOf(b)[j] == k;
    }
    forall k | k in KeysOf(b) ensures k in KeysOf(a) {
      var j :| 0 <= j < |b| && KeysOf(b)[j] == k;
      assert b[j] in a;
      var i :| 0 <= i < |a| && a[i] == b[j];
      assert KeysOf(a)[i] == k;
    }
  }

  /** With distinct keys, obj[k] depends only on the set of members. */
  lemma SameMembersSameLookup(a: seq<Member>, b: seq<Member>, k: string)
    requires DistinctKeys(b)
    requires forall m :: m in a <==> m in b
    requires k in KeysOf(a) && k in KeysOf(b)
    ensures Get(a, k) == Get(b, k)
  {
    var ma, mb := Get(a, k), Get(b, k);
    assert ma in a;
    assert ma in b;
    var j :| 0 <= j < |b| && b[j] == ma;
    var j' :| 0 <= j' < |b| && b[j'] == mb;
    assert b[j].key == b[j'].key;
  }

  /** Objects with distinct keys and the same members sort to the same key list. */
  lemma SameMembersSameSortedKeys(a: seq<Member>, b: seq<Member>)
    requires DistinctKeys(a) && DistinctKeys(b)
    requires forall m :: m in a <==> m in b
    ensures SortKeys(KeysOf(a)) == SortKeys(KeysOf(b))
  {
    assert NoDuplicates(KeysOf(a));
    assert NoDuplicates(KeysOf(b));
    SameMembersSameKeys(a, b);
    StrictlySortedUnique(SortKeys(KeysOf(a)), SortKeys(KeysOf(b)));
  }

  /** An object's encoding is fixed by the encodings of its sorted members. */
  lemma ObjectEncodingFromMembers(enc: Encoders, a: seq<Member>, b: seq<Member>)
    requires MemberEncodings(enc, Object(a), SortKeys(KeysOf(a)), 0) == MemberEncodings(enc, Object(b), SortKeys(KeysOf(b)), 0)
    ensures Stringify(enc, Object(a)) == Stringify(enc, Object(b))
  {
  }

  /** With distinct keys, objects with the same members agree on every lookup. */
  lemma SameMembersSameLookups(a: seq<Member>, b: seq<Member>, keys: seq<string>)
    requires DistinctKeys(b)
    requires forall m :: m in a <==> m in b
    requires forall k :: k in keys ==> k in KeysOf(a) && k in KeysOf(b)
    ensures forall k :: k in keys ==> Get(a, k) == Get(b, k)
  {
    forall k | k in keys ensures Get(a, k) == Get(b, k) {
      SameMembersSameLookup(a, b, k);
    }
  }

  /** Two objects holding the same key/value pairs serialise identically,
      whatever order their members were inserted in. */
  lemma InsertionOrderIrrelevant(enc: Encoders, a: seq<Member>, b: seq<Member>)
    requires DistinctKeys(a) && DistinctKeys(b)
    requires forall m :: m in a <==> m in b
    ensures Stringify(enc, Object(a)) == Stringify(enc, Object(b))
  {
    var keys := SortKeys(KeysOf(a));
    SameMembersSameSortedKeys(a, b);
    SameMembersSameKeys(a, b);
    SameMembersSameLookups(a, b, keys);
    MemberEncodingsAgree(enc, Object(a), Object(b), keys, 0);
    ObjectEncodingFromMembers(enc, a, b);
  }

  /** Two JSON values are the same value when they differ at most in the order
      their objects' members were inserted, at any depth. */
  ghost predicate SameValue(a: Json, b: Json)
    decreases a
  {
    match a
    case Array(xs) =>
      && b.Array? && |xs| == |b.items|
      && forall i :: 0 <= i < |xs| ==> SameValue(xs[i], b.items[i])
    case Object(ms) =>
      && b.Object? && DistinctKeys(ms) && DistinctKeys(b.members)
      && (forall k :: k in KeysOf(ms) <==> k in KeysOf(b.members))
      && forall i, j :: 0 <= i < |ms| && 0 <= j < |b.members| && ms[i].key == b.members[j].key ==>
           SameValue(ms[i].value, b.members[j].value)
    case _ => a == b
  }

  /** stableStringify is stable: the same value serialises to the same text,
      however the members of its objects, nested ones included, were inserted. */
  lemma SameValueSameEncoding(enc: Encoders, a: Json, b: Json)
    requires SameValue(a, b)
    ensures Stringify(enc, a) == Stringify(enc, b)
    decreases a, 1
  {
    if a.Array? {
      SameItemsSameEncodings(enc, a, b, 0);
      ArrayEncodingFromItems(enc, a, b);
    } else if a.Object? {
      SameObjectsSameEncoding(enc, a, b);
    }
  }

  lemma {:induction false} SameItemsSameEncodings(enc: Encoders, a: Json, b: Json, i: nat)
    requires a.Array? && SameValue(a, b) && i <= |a.items|
    ensures b.Array? && ItemEncodings(enc, a, i) == ItemEncodings(enc, b, i)
    decreases a, 0, |a.items| - i
  {
    if i < |a.items| {
      SameValueSameEncoding(enc, a.items[i], b.items[i]);
      SameItemsSameEncodings(enc, a, b, i + 1);
    }
  }

  /** An array's encoding is fixed by the encodings of its items. */
  lemma ArrayEncodingFromItems(enc: Encoders, a: Json, b: Json)
    requires a.Array? && b.Array? && ItemEncodings(enc, a, 0) == ItemEncodings(enc, b, 0)
    ensures Stringify(enc, a) == Stringify(enc, b)
  {
  }

  /** Under SameValue, two objects have the same sorted keys. */
  lemma SameValueSameSortedKeys(a: Json, b: Json)
    requires a.Object? && SameValue(a, b)
    ensures b.Object?
    ensures SortKeys(KeysOf(a.members)) == SortKeys(KeysOf(b.members))
  {
    assert NoDuplicates(KeysOf(a.members));
    assert NoDuplicates(KeysOf(b.members));
    StrictlySortedUnique(SortKeys(KeysOf(a.members)), SortKeys(KeysOf(b.members)));
  }

  /** Under SameValue, the members at key k of two objects hold the same value. */
  lemma SameValueAtKey(a: Json, b: Json, k: string) returns (i: nat, j: nat)
    requires a.Object? && SameValue(a, b) && k in KeysOf(a.members)
    ensures b.Object? && i < |a.members| && j < |b.members|
    ensures a.members[i] == Get(a.members, k) && b.members[j] == Get(b.members, k)
    ensures SameValue(a.members[i].value, b.members[j].value)
  {
    assert k in KeysOf(b.members);
    i :| 0 <= i < |a.members| && a.members[i] == Get(a.members, k);
    j :| 0 <= j < |b.members| && b.members[j] == Get(b.members, k);
  }

  lemma SameObjectsSameEncoding(enc: Encoders, a: Json, b: Json)
    requires a.Object? && SameValue(a, b)
    ensures Stringify(enc, a) == Stringify(enc, b)
    decreases a, 0
  {
    var keys := SortKeys(KeysOf(a.members));
    SameValueSameSortedKeys(a, b);
    MemberEncodingsFrom(enc, a, keys, 0);
    MemberEncodingsFrom(enc, b, keys, 0);
    forall n | 0 <= n < |keys|
      ensures MemberEncodings(enc, a, keys, 0)[n] == MemberEncodings(enc, b, keys, 0)[n]
    {
      var i, j := SameValueAtKey(a, b, keys[n]);
      SameValueSameEncoding(enc, a.members[i].value, b.members[j].value);
    }
    assert MemberEncodings(enc, a, keys, 0) == MemberEncodings(enc, b, keys, 0);
    ObjectEncodingFromMembers(enc, a.members, b.members);
  }

  /** The two bodies {"k":{"x":null,"y":null}} and {"k":{"y":null,"x":null}}
      serialise identically. */
  lemma NestedReorderingIrrelevant(enc: Encoders)
    ensures Stringify(enc, Object([Member("k", Object([Member("x", Null), Member("y", Null)]))]))
         == Stringify(enc, Object([Member("k", Object([Member("y", Null), Member("x", Null)]))]))
  {
    var inner1 := Object([Member("x", Null), Member("y", Null)]);
    var inner2 := Object([Member("y", Null), Member("x", Null)]);
    assert KeysOf(inner1.members) == ["x", "y"];
    assert KeysOf(inner2.members) == ["y", "x"];
    assert forall k :: k in KeysOf(inner1.members) <==> k == "x" || k == "y";
    assert forall k :: k in KeysOf(inner2.members) <==> k == "x" || k == "y";
    assert SameValue(inner1, inner2);
    var outer1 := Object([Member("k", inner1)]);
    var outer2 := Object([Member("k", inner2)]);
    assert KeysOf(outer1.members) == ["k"] == KeysOf(outer2.members);
    assert SameValue(outer1, outer2);
    SameValueSameEncoding(enc, outer1, outer2);
  }
}
