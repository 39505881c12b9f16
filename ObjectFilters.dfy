/**
  The object helpers `exclude`, `only` and `pluckFromList`.

  A JavaScript object is modelled as its own properties in the order the
  language enumerates them (`Object.keys`, spread): the array indices first,
  in ascending numeric order, then the other keys in the order they were
  added (`IsObject`). A value of None is a property that holds `undefined`.
  Reading a property that is absent also gives `undefined`.
 */
module ObjectFilters {
  import opened Wrappers
  import Decimal

  type Record<V> = seq<(string, Option<V>)>

  /** `Object.keys(r)`: the keys, in the record's order, which for an object is the order JavaScript enumerates them. */
  function Keys<V>(r: Record<V>): (ks: seq<string>)
    ensures |ks| == |r|
    ensures forall i :: 0 <= i < |r| ==> ks[i] == r[i].0
  {
    if r == [] then [] else [r[0].0] + Keys(r[1..])
  }

  /** No key appears twice, as in every JavaScript object. */
  predicate DistinctKeys<V>(r: Record<V>) {
    forall i, j :: 0 <= i < j < |r| ==> r[i].0 != r[j].0
  }

  /**
    An array index in the sense of ECMAScript: a key that is the decimal
    rendering of a number below 2^32 - 1, the number being read back from it.
   */
  predicate IsArrayIndex(k: string) {
    var n := Decimal.ParseNat(k);
    n.Some? && n.value < 0xFFFF_FFFF && Decimal.NatToString(n.value) == k
  }

  function IndexValue(k: string): nat
    requires IsArrayIndex(k)
  {
    Decimal.ParseNat(k).value
  }

  /** Two different array indices have different numbers. */
  lemma IndexValueInjective(a: string, b: string)
    requires IsArrayIndex(a) && IsArrayIndex(b) && a != b
    ensures IndexValue(a) != IndexValue(b)
  {
  }

  /**
    Key `a` may be enumerated before key `b`: an array index comes only after
    the smaller array indices; any other key may come after any key.
   */
  predicate Precedes(a: string, b: string) {
    IsArrayIndex(b) ==> IsArrayIndex(a) && IndexValue(a) < IndexValue(b)
  }

  /** The record lists a JavaScript object's properties: distinct keys, in enumeration order. */
  predicate IsObject<V>(r: Record<V>) {
    && DistinctKeys(r)
    && forall i, j :: 0 <= i < j < |r| ==> Precedes(r[i].0, r[j].0)
  }

  lemma IsObjectPrefix<V>(a: Record<V>, b: Record<V>)
    requires IsObject(a + b)
    ensures IsObject(a)
  {
    forall i | 0 <= i < |a|
      ensures (a + b)[i] == a[i]
    {
    }
  }

  lemma IsObjectTail<V>(r: Record<V>)
    requires IsObject(r) && r != []
    ensures IsObject(r[1..])
  {
    forall i | 0 <= i < |r| - 1
      ensures r[1..][i] == r[i + 1]
    {
    }
  }

  /** `r[k]`: the value of the property, or undefined when there is none. */
  function Prop<V>(r: Record<V>, k: string): Option<V> {
    if r == [] then None else if r[0].0 == k then r[0].1 else Prop(r[1..], k)
  }

  /**
    Spreading `r` and then a one-property object: the properties of `r` in order, with `k` set to
    `v` where it already is. A new key goes in before the first key it may
    not follow: an array index among the indices by its number, any other key
    at the end.
   */
  function Put<V>(r: Record<V>, k: string, v: Option<V>): Record<V> {
    if r == [] then [(k, v)]
    else if r[0].0 == k then [(k, v)] + r[1..]
    else if !Precedes(r[0].0, k) then [(k, v)] + r
    else [r[0]] + Put(r[1..], k, v)
  }

  /** Where a new key `k` goes in `r`: after the keys that may precede it. */
  function InsertionPoint<V>(r: Record<V>, k: string): (p: nat)
    ensures p <= |r|
    ensures forall i :: 0 <= i < p ==> Precedes(r[i].0, k)
    ensures p < |r| ==> !Precedes(r[p].0, k)
    ensures !IsArrayIndex(k) ==> p == |r|
  {
    if r == [] || !Precedes(r[0].0, k) then 0
    else
      var p := InsertionPoint(r[1..], k);
      assert forall i :: 1 <= i < p + 1 ==> r[i] == r[1..][i - 1];
      1 + p
  }

  /** After the assignment `k` reads as `v` and every other key as before. */
  lemma {:induction false} PutProp<V>(r: Record<V>, k: string, v: Option<V>, k': string)
    ensures Prop(Put(r, k, v), k') == if k' == k then v else Prop(r, k')
  {
    if r != [] && r[0].0 != k && Precedes(r[0].0, k) {
      PutProp(r[1..], k, v, k');
      assert Put(r, k, v)[1..] == Put(r[1..], k, v);
    } else if r != [] && r[0].0 != k {
      assert Put(r, k, v)[1..] == r;
    } else if r != [] {
      assert Put(r, k, v)[1..] == r[1..];
    }
  }

  /** The assignment adds `k` to the keys and no other. */
  lemma {:induction false} PutKeys<V>(r: Record<V>, k: string, v: Option<V>, k': string)
    ensures k' in Keys(Put(r, k, v)) <==> k' in Keys(r) || k' == k
  {
    if r != [] && r[0].0 != k && Precedes(r[0].0, k) {
      PutKeys(r[1..], k, v, k');
      assert Keys(r) == [r[0].0] + Keys(r[1..]);
      assert Keys(Put(r, k, v)) == [r[0].0] + Keys(Put(r[1..], k, v));
    } else if r != [] && r[0].0 != k {
      assert Keys(Put(r, k, v)) == [k] + Keys(r);
    } else if r != [] {
      assert Keys(r) == [r[0].0] + Keys(r[1..]);
      assert Keys(Put(r, k, v)) == [k] + Keys(r[1..]);
    }
  }

  /** A key already present keeps its place and takes the new value. */
  lemma {:induction false} PutPresent<V>(r: Record<V>, k: string, v: Option<V>, m: nat)
    requires IsObject(r) && m < |r| && r[m].0 == k
    ensures Put(r, k, v) == r[m := (k, v)]
    decreases m
  {
    if m > 0 {
      assert r[0].0 != k && Precedes(r[0].0, k);
      IsObjectTail(r);
      assert r[1..][m - 1].0 == k;
      PutPresent(r[1..], k, v, m - 1);
      assert [r[0]] + r[1..][m - 1 := (k, v)] == r[m := (k, v)];
    }
  }

  /**
    A new key goes in at its insertion point, so a key that is not an array
    index is appended at the end.
   */
  lemma {:induction false} PutAbsent<V>(r: Record<V>, k: string, v: Option<V>)
    requires k !in Keys(r)
    ensures var p := InsertionPoint(r, k);
      Put(r, k, v) == r[..p] + [(k, v)] + r[p..]
    ensures !IsArrayIndex(k) ==> Put(r, k, v) == r + [(k, v)]
  {
    var p := InsertionPoint(r, k);
    if r != [] {
      assert Keys(r)[0] == r[0].0;
      if Precedes(r[0].0, k) {
        assert k !in Keys(r[1..]) by {
          assert Keys(r) == [r[0].0] + Keys(r[1..]);
        }
        PutAbsent(r[1..], k, v);
        InsertAfterHead(r, InsertionPoint(r[1..], k), (k, v));
      }
    }
    if !IsArrayIndex(k) {
      assert p == |r| && r[..p] == r && r[p..] == [];
    }
  }

  /** Inserting after the head of a sequence is inserting into its tail. */
  lemma InsertAfterHead<T>(a: seq<T>, p: nat, x: T)
    requires a != [] && p <= |a| - 1
    ensures a[..p + 1] + [x] + a[p + 1..] == [a[0]] + (a[1..][..p] + [x] + a[1..][p..])
  {
    assert a[..p + 1] == [a[0]] + a[1..][..p];
    assert a[p + 1..] == a[1..][p..];
  }

  /** A new key that may not follow the first key of an object may precede every key of it. */
  lemma FirstFollowsNew<V>(r: Record<V>, k: string, j: nat)
    requires IsObject(r) && r != [] && k !in Keys(r) && !Precedes(r[0].0, k)
    requires j < |r|
    ensures Precedes(k, r[j].0)
  {
    var a, b := r[j].0, r[0].0;
    if IsArrayIndex(a) {
      assert IsArrayIndex(k);
      if j == 0 {
        assert b != k by {
          assert Keys(r)[0] == b;
        }
        IndexValueInjective(b, k);
      } else {
        assert Precedes(b, a);
      }
    }
  }

  /** Putting a property in front of an object it precedes entirely gives an object. */
  lemma IsObjectCons<V>(x: (string, Option<V>), t: Record<V>)
    requires IsObject(t)
    requires forall j :: 0 <= j < |t| ==> x.0 != t[j].0 && Precedes(x.0, t[j].0)
    ensures IsObject([x] + t)
  {
    var q := [x] + t;
    assert forall i :: 0 < i < |q| ==> q[i] == t[i - 1];
  }

  /** Adding the key "0" to an object holding "name" puts it first, where `Object.keys` lists it. */
  lemma PutIndexBeforeName<V>(a: Option<V>, b: Option<V>)
    ensures Put([("name", a)], "0", b) == [("0", b), ("name", a)]
  {
    assert Decimal.ParseNat("0") == Some(0);
    assert Decimal.NatToString(0) == "0";
    assert IsArrayIndex("0");
    assert !Decimal.IsDigit("name"[0]);
    assert !IsArrayIndex("name");
  }

  /** The assignment keeps the record an object: distinct keys in enumeration order. */
  lemma {:induction false} PutIsObject<V>(r: Record<V>, k: string, v: Option<V>)
    requires IsObject(r)
    ensures IsObject(Put(r, k, v))
  {
    if r != [] {
      IsObjectTail(r);
      if r[0].0 == k {
        var q := Put(r, k, v);
        assert forall i :: 0 <= i < |q| ==> q[i].0 == r[i].0;
      } else if !Precedes(r[0].0, k) {
        assert k !in Keys(r) by {
          forall m | 0 <= m < |r|
            ensures r[m].0 != k
          {
            if m > 0 {
              assert Precedes(r[0].0, r[m].0);
            }
          }
        }
        forall j | 0 <= j < |r|
          ensures k != r[j].0 && Precedes(k, r[j].0)
        {
          assert Keys(r)[j] == r[j].0;
          FirstFollowsNew(r, k, j);
        }
        IsObjectCons((k, v), r);
      } else {
        var t := Put(r[1..], k, v);
        PutIsObject(r[1..], k, v);
        forall j | 0 <= j < |t|
          ensures r[0].0 != t[j].0 && Precedes(r[0].0, t[j].0)
        {
          assert t[j].0 in Keys(t);
          PutKeys(r[1..], k, v, t[j].0);
          if t[j].0 != k {
            var m :| 0 <= m < |r[1..]| && Keys(r[1..])[m] == t[j].0;
            assert r[1..][m] == r[m + 1];
          }
        }
        IsObjectCons(r[0], t);
      }
    }
  }

  /** The `reduce` both filters end with: each key in turn set to its value in `source`. */
  function Assemble<V>(result: Record<V>, keys: seq<string>, source: Record<V>): Record<V>
    decreases keys
  {
    if keys == [] then result else Assemble(Put(result, keys[0], Prop(source, keys[0])), keys[1..], source)
  }

  lemma {:induction false} AssembleProp<V>(result: Record<V>, keys: seq<string>, source: Record<V>, k: string)
    ensures Prop(Assemble(result, keys, source), k) == if k in keys then Prop(source, k) else Prop(result, k)
    ensures k in Keys(Assemble(result, keys, source)) <==> k in Keys(result) || k in keys
    decreases keys
  {
    if keys != [] {
      var next := Put(result, keys[0], Prop(source, keys[0]));
      PutProp(result, keys[0], Prop(source, keys[0]), k);
      PutKeys(result, keys[0], Prop(source, keys[0]), k);
      AssembleProp(next, keys[1..], source, k);
      assert k in keys <==> k == keys[0] || k in keys[1..];
    }
  }

  lemma {:induction false} AssembleIsObject<V>(result: Record<V>, keys: seq<string>, source: Record<V>)
    requires IsObject(result)
    ensures IsObject(Assemble(result, keys, source))
    decreases keys
  {
    if keys != [] {
      PutIsObject(result, keys[0], Prop(source, keys[0]));
      AssembleIsObject(Put(result, keys[0], Prop(source, keys[0])), keys[1..], source);
    }
  }

  // ---------------------------------------------------------------------------
  // exclude
  // ---------------------------------------------------------------------------

  /** The keys that are not among the exclusion keys, in their order. */
  function KeysNotIn(keys: seq<string>, exclusionKeys: seq<string>): (ks: seq<string>)
    ensures forall k :: k in ks <==> k in keys && k !in exclusionKeys
  {
    if keys == [] then []
    else (if keys[0] in exclusionKeys then [] else [keys[0]]) + KeysNotIn(keys[1..], exclusionKeys)
  }

  /** `exclude(source, exclusionKeys)`: a fresh object with every property of `source` but the excluded ones. */
  function Exclude<V>(source: Record<V>, exclusionKeys: seq<string>): Record<V> {
    Assemble([], KeysNotIn(Keys(source), exclusionKeys), source)
  }

  /** Reference reading: the properties of `r` whose key is not excluded, in order. */
  function Without<V>(r: Record<V>, exclusionKeys: seq<string>): Record<V> {
    if r == [] then [] else (if r[0].0 in exclusionKeys then [] else [r[0]]) + Without(r[1..], exclusionKeys)
  }

  lemma {:induction false} KeysWithout<V>(r: Record<V>, exclusionKeys: seq<string>)
    ensures Keys(Without(r, exclusionKeys)) == KeysNotIn(Keys(r), exclusionKeys)
  {
    if r != [] {
      KeysWithout(r[1..], exclusionKeys);
      var head: Record<V> := if r[0].0 in exclusionKeys then [] else [r[0]];
      KeysAppend(head, Without(r[1..], exclusionKeys));
      assert Keys(r)[1..] == Keys(r[1..]);
    }
  }

  lemma {:induction false} KeysAppend<V>(a: Record<V>, b: Record<V>)
    ensures Keys(a + b) == Keys(a) + Keys(b)
  {
  }

  /** In an object, the value read for a listed key is the one listed with it. */
  lemma {:induction false} PropAt<V>(r: Record<V>, i: nat)
    requires DistinctKeys(r) && i < |r|
    ensures Prop(r, r[i].0) == r[i].1
    decreases i
  {
    if i > 0 {
      assert r[0].0 != r[i].0;
      PropAt(r[1..], i - 1);
    }
  }

  /** In an object whose last key is `k`, setting `k` on the others appends it. */
  lemma PutAppends<V>(r: Record<V>, k: string, v: Option<V>, v': Option<V>)
    requires IsObject(r + [(k, v')])
    ensures Put(r, k, v) == r + [(k, v)]
  {
    var s := r + [(k, v')];
    forall i | 0 <= i < |r|
      ensures r[i].0 != k && Precedes(r[i].0, k)
    {
      assert s[i] == r[i] && s[|r|] == (k, v');
    }
    PutAbsent(r, k, v);
    var p := InsertionPoint(r, k);
    assert p == |r|;
    assert r[..p] == r && r[p..] == [];
  }

  /**
    The collecting fold over the non-excluded keys of `t` appends them to
    `result`, in order, with the values `source` reads for them, when the
    outcome is an object.
   */
  lemma {:induction false} AssembleWithout<V>(result: Record<V>, t: Record<V>, source: Record<V>, exclusionKeys: seq<string>)
    requires IsObject(result + Without(t, exclusionKeys))
    requires forall i :: 0 <= i < |t| ==> Prop(source, t[i].0) == t[i].1
    ensures Assemble(result, KeysNotIn(Keys(t), exclusionKeys), source) == result + Without(t, exclusionKeys)
    decreases t
  {
    if t == [] {
      assert result + [] == result;
    } else {
      var k := t[0].0;
      var tail := t[1..];
      var ks := KeysNotIn(Keys(t), exclusionKeys);
      assert Keys(t) == [k] + Keys(tail);
      assert forall i :: 0 <= i < |tail| ==> tail[i] == t[i + 1];
      if k in exclusionKeys {
        assert ks == KeysNotIn(Keys(tail), exclusionKeys);
        assert Without(t, exclusionKeys) == Without(tail, exclusionKeys);
        AssembleWithout(result, tail, source, exclusionKeys);
      } else {
        var next := result + [t[0]];
        var rest := Without(tail, exclusionKeys);
        assert Without(t, exclusionKeys) == [t[0]] + rest;
        assert result + Without(t, exclusionKeys) == next + rest by {
          AppendAssoc(result, [t[0]], rest);
        }
        assert Assemble(result, ks, source) == Assemble(next, KeysNotIn(Keys(tail), exclusionKeys), source) by {
          assert ks == [k] + KeysNotIn(Keys(tail), exclusionKeys);
          assert Prop(source, k) == t[0].1;
          IsObjectPrefix(next, rest);
          PutAppends(result, k, t[0].1, t[0].1);
        }
        AssembleWithout(next, tail, source, exclusionKeys);
      }
    }
  }

  lemma AppendAssoc<T>(a: seq<T>, b: seq<T>, c: seq<T>)
    ensures (a + b) + c == a + (b + c)
  {
  }

  /**
    `exclude` keeps the properties that are not excluded, in their order and
    with their values; the order is the source's enumeration order, array
    indices included.
   */
  lemma ExcludeIsWithout<V>(source: Record<V>, exclusionKeys: seq<string>)
    requires IsObject(source)
    ensures Exclude(source, exclusionKeys) == Without(source, exclusionKeys)
  {
    WithoutIsObject(source, exclusionKeys);
    assert [] + Without(source, exclusionKeys) == Without(source, exclusionKeys);
    forall i | 0 <= i < |source|
      ensures Prop(source, source[i].0) == source[i].1
    {
      PropAt(source, i);
    }
    AssembleWithout([], source, source, exclusionKeys);
    assert [] + Without(source, exclusionKeys) == Without(source, exclusionKeys);
  }

  lemma {:induction false} WithoutProp<V>(r: Record<V>, exclusionKeys: seq<string>, k: string)
    ensures Prop(Without(r, exclusionKeys), k) == if k in exclusionKeys then None else Prop(r, k)
  {
    if r != [] {
      WithoutProp(r[1..], exclusionKeys, k);
      var rest := Without(r[1..], exclusionKeys);
      if r[0].0 !in exclusionKeys {
        assert Without(r, exclusionKeys) == [r[0]] + rest;
        assert ([r[0]] + rest)[1..] == rest;
      } else {
        assert Without(r, exclusionKeys) == rest;
      }
    }
  }

  lemma {:induction false} WithoutNothing<V>(r: Record<V>)
    ensures Without(r, []) == r
  {
    if r != [] {
      WithoutNothing(r[1..]);
    }
  }

  lemma {:induction false} WithoutTwice<V>(r: Record<V>, exclusionKeys: seq<string>)
    ensures Without(Without(r, exclusionKeys), exclusionKeys) == Without(r, exclusionKeys)
  {
    if r != [] {
      WithoutTwice(r[1..], exclusionKeys);
      var head: Record<V> := if r[0].0 in exclusionKeys then [] else [r[0]];
      WithoutAppend(head, Without(r[1..], exclusionKeys), exclusionKeys);
    }
  }

  lemma {:induction false} WithoutAppend<V>(a: Record<V>, b: Record<V>, exclusionKeys: seq<string>)
    ensures Without(a + b, exclusionKeys) == Without(a, exclusionKeys) + Without(b, exclusionKeys)
  {
    if a != [] {
      WithoutAppend(a[1..], b, exclusionKeys);
      assert (a + b)[1..] == a[1..] + b;
    } else {
      assert a + b == b;
    }
  }

  /** Leaving properties out of an object gives an object. */
  lemma {:induction false} WithoutIsObject<V>(r: Record<V>, exclusionKeys: seq<string>)
    requires IsObject(r)
    ensures IsObject(Without(r, exclusionKeys))
  {
    if r != [] {
      IsObjectTail(r);
      WithoutIsObject(r[1..], exclusionKeys);
      KeysWithout(r[1..], exclusionKeys);
      var rest := Without(r[1..], exclusionKeys);
      if r[0].0 !in exclusionKeys {
        forall j | 0 <= j < |rest|
          ensures r[0].0 != rest[j].0 && Precedes(r[0].0, rest[j].0)
        {
          assert rest[j].0 in Keys(rest);
          assert rest[j].0 in Keys(r[1..]);
          var m :| 0 <= m < |r[1..]| && Keys(r[1..])[m] == rest[j].0;
          assert r[1..][m] == r[m + 1];
        }
        var w := [r[0]] + rest;
        assert forall i :: 0 < i < |w| ==> w[i] == rest[i - 1];
      }
    }
  }

  /** The keys of `exclude(source, K)` are exactly the keys of `source` not in K. */
  lemma ExcludeKeys<V>(source: Record<V>, exclusionKeys: seq<string>, k: string)
    requires IsObject(source)
    ensures k in Keys(Exclude(source, exclusionKeys)) <==> k in Keys(source) && k !in exclusionKeys
  {
    ExcludeIsWithout(source, exclusionKeys);
    KeysWithout(source, exclusionKeys);
  }

  /** Every property `exclude` keeps has the value it has in `source`; excluded keys read as undefined. */
  lemma ExcludeValues<V>(source: Record<V>, exclusionKeys: seq<string>, k: string)
    requires IsObject(source)
    ensures Prop(Exclude(source, exclusionKeys), k) == if k in exclusionKeys then None else Prop(source, k)
  {
    ExcludeIsWithout(source, exclusionKeys);
    WithoutProp(source, exclusionKeys, k);
  }

  /** Excluding nothing gives a copy of `source`, order included. */
  lemma ExcludeNothing<V>(source: Record<V>)
    requires IsObject(source)
    ensures Exclude(source, []) == source
  {
    ExcludeIsWithout(source, []);
    WithoutNothing(source);
  }

  /** Excluding the same keys again changes nothing. */
  lemma ExcludeIdempotent<V>(source: Record<V>, exclusionKeys: seq<string>)
    requires IsObject(source)
    ensures Exclude(Exclude(source, exclusionKeys), exclusionKeys) == Exclude(source, exclusionKeys)
  {
    ExcludeIsWithout(source, exclusionKeys);
    WithoutIsObject(source, exclusionKeys);
    ExcludeIsWithout(Without(source, exclusionKeys), exclusionKeys);
    WithoutTwice(source, exclusionKeys);
  }

  // ---------------------------------------------------------------------------
  // only
  // ---------------------------------------------------------------------------

  /** The selected keys whose value in `source` is defined, in the order they were selected. */
  function DefinedKeys<V>(selectionKeys: seq<string>, source: Record<V>): (ks: seq<string>)
    ensures forall k :: k in ks <==> k in selectionKeys && Prop(source, k).Some?
  {
    if selectionKeys == [] then []
    else
      (if Prop(source, selectionKeys[0]).Some? then [selectionKeys[0]] else [])
      + DefinedKeys(selectionKeys[1..], source)
  }

  /** `only(source, selectionKeys)`: a fresh object with the selected properties that are defined in `source`. */
  function Only<V>(source: Record<V>, selectionKeys: seq<string>): (r: Record<V>) {
    Assemble([], DefinedKeys(selectionKeys, source), source)
  }

  /** The keys of `only(source, K)` are exactly the members of K whose value in `source` is defined. */
  lemma OnlyKeys<V>(source: Record<V>, selectionKeys: seq<string>, k: string)
    ensures k in Keys(Only(source, selectionKeys)) <==> k in selectionKeys && Prop(source, k).Some?
  {
    AssembleProp([], DefinedKeys(selectionKeys, source), source, k);
  }

  /** A selected key reads as in `source`; any other key reads as undefined. */
  lemma OnlyValues<V>(source: Record<V>, selectionKeys: seq<string>, k: string)
    ensures Prop(Only(source, selectionKeys), k) == if k in selectionKeys then Prop(source, k) else None
  {
    AssembleProp([], DefinedKeys(selectionKeys, source), source, k);
  }

  /**
    The result is an object: even a key selected twice appears once, and the
    selected array indices come first in ascending order, whatever the order
    of selection.
   */
  lemma OnlyIsObject<V>(source: Record<V>, selectionKeys: seq<string>)
    ensures IsObject(Only(source, selectionKeys))
  {
    AssembleIsObject([], DefinedKeys(selectionKeys, source), source);
  }

  // ---------------------------------------------------------------------------
  // pluckFromList
  // ---------------------------------------------------------------------------

  /** The item is defined and so is its property `key`. */
  predicate Plucks<V>(item: Option<Record<V>>, key: string) {
    item.Some? && Prop(item.value, key).Some?
  }

  /**
    The values under `key` of the items that are defined and define it, in
    list order; an undefined item is None.
   */
  function PluckFromList<V>(list: seq<Option<Record<V>>>, key: string): (vs: seq<V>)
    ensures |vs| <= |list|
  {
    if list == [] then []
    else
      (if Plucks(list[0], key) then [Prop(list[0].value, key).value] else [])
      + PluckFromList(list[1..], key)
  }

  /** Plucking a concatenation plucks each part in turn: input order is kept. */
  lemma {:induction false} PluckAppend<V>(a: seq<Option<Record<V>>>, b: seq<Option<Record<V>>>, key: string)
    ensures PluckFromList(a + b, key) == PluckFromList(a, key) + PluckFromList(b, key)
  {
    if a != [] {
      PluckAppend(a[1..], b, key);
      assert (a + b)[1..] == a[1..] + b;
    } else {
      assert a + b == b;
    }
  }

  /** A value is plucked exactly when some defined item holds it under `key`. */
  lemma {:induction false} PluckMembership<V>(list: seq<Option<Record<V>>>, key: string, v: V)
    ensures v in PluckFromList(list, key) <==>
      exists i :: 0 <= i < |list| && Plucks(list[i], key) && Prop(list[i].value, key) == Some(v)
  {
    if list != [] {
      PluckMembership(list[1..], key, v);
      if v in PluckFromList(list[1..], key) {
        var i :| 0 <= i < |list[1..]| && Plucks(list[1..][i], key) && Prop(list[1..][i].value, key) == Some(v);
        assert list[i + 1] == list[1..][i];
      }
      if exists i :: 0 <= i < |list| && Plucks(list[i], key) && Prop(list[i].value, key) == Some(v) {
        var i :| 0 <= i < |list| && Plucks(list[i], key) && Prop(list[i].value, key) == Some(v);
        if i > 0 {
          assert list[1..][i - 1] == list[i];
        }
      }
    }
  }

  /** When every item and its property are defined, plucking is mapping over the whole list. */
  lemma {:induction false} PluckAllDefined<V>(list: seq<Option<Record<V>>>, key: string)
    requires forall i :: 0 <= i < |list| ==> list[i].Some? && Prop(list[i].value, key).Some?
    ensures |PluckFromList(list, key)| == |list|
    ensures forall i :: 0 <= i < |list| ==> PluckFromList(list, key)[i] == Prop(list[i].value, key).value
  {
    if list != [] {
      PluckAllDefined(list[1..], key);
      var rest := PluckFromList(list[1..], key);
      assert PluckFromList(list, key) == [Prop(list[0].value, key).value] + rest;
      forall i | 1 <= i < |list|
        ensures PluckFromList(list, key)[i] == Prop(list[i].value, key).value
      {
        assert list[1..][i - 1] == list[i];
      }
    }
  }
}
