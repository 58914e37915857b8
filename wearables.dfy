/**
 * `transformWearable`: a catalogue record with flat `slots[N]` keys becomes a
 * wearable with an ordered slot list. The keys starting with `slots[` are
 * taken in key order, sorted (stably) by the first run of digits in the key
 * (0 when there is none), mapped to their values, and blank values dropped.
 */
module Wearables {
  import opened Types
  import opened Wrappers
  import Seqs
  import Text

  const SlotKeyPrefix: string := "slots["

  predicate IsSlotField(f: Field)
  {
    Text.StartsWith(f.key, SlotKeyPrefix)
  }

  /** `parseInt(key.match(/\d+/)?.[0] ?? "0")`. */
  function SlotIndex(key: string): nat
  {
    match Text.FirstDigitRun(key)
    case None => 0
    case Some(digits) => Text.DigitsValue(digits)
  }

  function Index(f: Field): nat
  {
    SlotIndex(f.key)
  }

  /** The numeric index of the canonical key `slots[n]` is `n`. */
  lemma SlotIndexOfKey(n: nat)
    ensures SlotIndex(SlotKeyPrefix + Text.Decimal(n) + "]") == n
  {
    var p := SlotKeyPrefix;
    assert forall i :: 0 <= i < |p| ==> !Text.IsDigit(p[i]);
    Text.FirstDigitRunAfter(p, Text.Decimal(n), "]");
    Text.DigitsValueOfDecimal(n);
  }

  /** A key without digits sorts as index 0. */
  lemma SlotIndexWithoutDigits(key: string)
    requires forall i :: 0 <= i < |key| ==> !Text.IsDigit(key[i])
    ensures SlotIndex(key) == 0
  {
    Text.FirstDigitRunNone(key);
  }

  // The sort and its proofs take the index function as a parameter `key`;
  // `transformWearable` uses `Index`.

  predicate SortedBy(fs: seq<Field>, key: Field -> nat)
  {
    forall i, j :: 0 <= i < j < |fs| ==> key(fs[i]) <= key(fs[j])
  }

  function KeyIs(key: Field -> nat, n: nat): Field -> bool
  {
    f => key(f) == n
  }

  /** The fields of `fs` whose key is `n`, in their order in `fs`. */
  function WithKey(fs: seq<Field>, key: Field -> nat, n: nat): seq<Field>
  {
    Seqs.Filter(fs, KeyIs(key, n))
  }

  /** Places `f` after every element whose key is at most its own. */
  function Insert(s: seq<Field>, f: Field, key: Field -> nat): (r: seq<Field>)
    ensures multiset(r) == multiset(s) + multiset{f}
  {
    if s == [] || key(s[|s| - 1]) <= key(f) then s + [f]
    else
      var init := s[..|s| - 1];
      assert s == init + [s[|s| - 1]];
      Insert(init, f, key) + [s[|s| - 1]]
  }

  /** `Array.prototype.sort` with a key comparator: a stable sort by key. */
  function SortBy(fs: seq<Field>, key: Field -> nat): (r: seq<Field>)
    ensures multiset(r) == multiset(fs)
  {
    if fs == [] then []
    else
      var init := fs[..|fs| - 1];
      assert fs == init + [fs[|fs| - 1]];
      Insert(SortBy(init, key), fs[|fs| - 1], key)
  }

  lemma InsertMembers(s: seq<Field>, f: Field, key: Field -> nat)
    ensures forall x :: x in Insert(s, f, key) <==> x == f || x in s
  {
    var r := Insert(s, f, key);
    forall x ensures x in r <==> x == f || x in s {
      assert x in r <==> x in multiset(r);
      assert x in s <==> x in multiset(s);
    }
  }

  lemma SortByMembers(fs: seq<Field>, key: Field -> nat)
    ensures forall x :: x in SortBy(fs, key) <==> x in fs
  {
    var r := SortBy(fs, key);
    forall x ensures x in r <==> x in fs {
      assert x in r <==> x in multiset(r);
      assert x in fs <==> x in multiset(fs);
    }
  }

  lemma {:induction false} InsertSorted(s: seq<Field>, f: Field, key: Field -> nat)
    requires SortedBy(s, key)
    ensures SortedBy(Insert(s, f, key), key)
  {
    if !(s == [] || key(s[|s| - 1]) <= key(f)) {
      var init, last := s[..|s| - 1], s[|s| - 1];
      InsertSorted(init, f, key);
      var r := Insert(init, f, key);
      InsertMembers(init, f, key);
      forall x | x in r ensures key(x) <= key(last) {
        if x != f {
          var k :| 0 <= k < |init| && init[k] == x;
          assert s[k] == x;
        }
      }
      forall i, j | 0 <= i < j < |r + [last]|
        ensures key((r + [last])[i]) <= key((r + [last])[j])
      {
        if j == |r| { assert (r + [last])[i] in r; }
      }
    }
  }

  lemma WithKeyAppend(a: seq<Field>, b: seq<Field>, key: Field -> nat, n: nat)
    ensures WithKey(a + b, key, n) == WithKey(a, key, n) + WithKey(b, key, n)
  {
    Seqs.FilterAppend(a, b, KeyIs(key, n));
  }

  /** Inserting `f` adds it at the end of its own key class and leaves the other classes alone. */
  lemma {:induction false} InsertClasses(s: seq<Field>, f: Field, key: Field -> nat, n: nat)
    ensures WithKey(Insert(s, f, key), key, n) == WithKey(s, key, n) + WithKey([f], key, n)
  {
    if s == [] || key(s[|s| - 1]) <= key(f) {
      WithKeyAppend(s, [f], key, n);
    } else {
      var init, last := s[..|s| - 1], s[|s| - 1];
      assert s == init + [last];
      InsertClasses(init, f, key, n);
      WithKeyAppend(Insert(init, f, key), [last], key, n);
      WithKeyAppend(init, [last], key, n);
      assert WithKey([f], key, n) == [] || WithKey([last], key, n) == [];
    }
  }

  /** The sort orders by key and keeps, for every key, the fields carrying it in their original order. */
  lemma {:induction false} SortBySpec(fs: seq<Field>, key: Field -> nat)
    ensures SortedBy(SortBy(fs, key), key)
    ensures forall n :: WithKey(SortBy(fs, key), key, n) == WithKey(fs, key, n)
  {
    if fs != [] {
      var init, last := fs[..|fs| - 1], fs[|fs| - 1];
      assert fs == init + [last];
      SortBySpec(init, key);
      InsertSorted(SortBy(init, key), last, key);
      forall n ensures WithKey(SortBy(fs, key), key, n) == WithKey(fs, key, n) {
        InsertClasses(SortBy(init, key), last, key, n);
        WithKeyAppend(init, [last], key, n);
      }
    }
  }

  /** Two sorted sequences with the same key classes end in fields of the same key. */
  lemma LastKeyAgrees(a: seq<Field>, b: seq<Field>, key: Field -> nat)
    requires SortedBy(a, key) && SortedBy(b, key) && a != []
    requires forall n :: WithKey(a, key, n) == WithKey(b, key, n)
    ensures b != [] && key(a[|a| - 1]) == key(b[|b| - 1])
  {
    var x := a[|a| - 1];
    ClassMember(a, x, key);
    ClassMember(b, x, key);
    var y := b[|b| - 1];
    ClassMember(b, y, key);
    ClassMember(a, y, key);
    var ka :| 0 <= ka < |a| && a[ka] == y;
    var kb :| 0 <= kb < |b| && b[kb] == x;
    assert key(y) <= key(x) by { if ka < |a| - 1 { } }
    assert key(x) <= key(y) by { if kb < |b| - 1 { } }
  }

  /** Removing last fields of equal key keeps the classes equal; the fields themselves are equal. */
  lemma DropLastAgrees(a': seq<Field>, x: Field, b': seq<Field>, y: Field, key: Field -> nat)
    requires key(x) == key(y)
    requires forall n :: WithKey(a' + [x], key, n) == WithKey(b' + [y], key, n)
    ensures x == y
    ensures forall n :: WithKey(a', key, n) == WithKey(b', key, n)
  {
    var m := key(x);
    WithKeyAppend(a', [x], key, m);
    WithKeyAppend(b', [y], key, m);
    assert WithKey([x], key, m) == [x] && WithKey([y], key, m) == [y];
    var l1, l2 := WithKey(a', key, m) + [x], WithKey(b', key, m) + [y];
    assert l1 == l2;
    assert l1[|l1| - 1] == x && l2[|l2| - 1] == y;
    assert WithKey(a', key, m) == l1[..|l1| - 1] && WithKey(b', key, m) == l2[..|l2| - 1];
    forall n ensures WithKey(a', key, n) == WithKey(b', key, n) {
      WithKeyAppend(a', [x], key, n);
      WithKeyAppend(b', [y], key, n);
      if n != m {
        assert WithKey([x], key, n) == [] && WithKey([y], key, n) == [];
        assert WithKey(a', key, n) + [] == WithKey(a', key, n) && WithKey(b', key, n) + [] == WithKey(b', key, n);
      }
    }
  }

  /**
   * Being sorted by key with the same key classes determines a sequence:
   * the stable order is the only one.
   */
  lemma {:induction false} StableOrderUnique(a: seq<Field>, b: seq<Field>, key: Field -> nat)
    requires SortedBy(a, key) && SortedBy(b, key)
    requires forall n :: WithKey(a, key, n) == WithKey(b, key, n)
    ensures a == b
    decreases |a|
  {
    if a == [] {
      if b != [] {
        LastKeyAgrees(b, a, key);
      }
    } else {
      LastKeyAgrees(a, b, key);
      var a', b' := a[..|a| - 1], b[..|b| - 1];
      assert a == a' + [a[|a| - 1]] && b == b' + [b[|b| - 1]];
      DropLastAgrees(a', a[|a| - 1], b', b[|b| - 1], key);
      StableOrderUnique(a', b', key);
    }
  }

  lemma ClassMember(s: seq<Field>, x: Field, key: Field -> nat)
    ensures x in WithKey(s, key, key(x)) <==> x in s
  {
    Seqs.FilterMembers(s, KeyIs(key, key(x)));
  }

  function SlotFields(fs: seq<Field>): seq<Field>
  {
    Seqs.Filter(fs, IsSlotField)
  }

  function Values(fs: seq<Field>): (vs: seq<string>)
    ensures |vs| == |fs| && forall i :: 0 <= i < |fs| ==> vs[i] == fs[i].value
  {
    if fs == [] then [] else [fs[0].value] + Values(fs[1..])
  }

  predicate NotBlank(s: string)
  {
    Text.Trim(s) != ""
  }

  function NonBlank(vs: seq<string>): seq<string>
  {
    Seqs.Filter(vs, NotBlank)
  }

  /** `transformWearable(wearable)`. */
  function TransformWearable(w: RawWearable): (r: Wearable)
    ensures r.id == w.id && r.aiDescription == w.aiDescription
  {
    Wearable(w.id, w.aiDescription, NonBlank(Values(SortBy(SlotFields(w.fields), Index))))
  }

  /**
   * The slot list is the non-blank values of any arrangement of the slot
   * fields that is sorted by index and keeps each index's fields in key
   * order; and it is an order-preserving selection of those values.
   */
  lemma SlotsInIndexOrder(w: RawWearable, g: seq<Field>)
    requires SortedBy(g, Index)
    requires forall n :: WithKey(g, Index, n) == WithKey(SlotFields(w.fields), Index, n)
    ensures TransformWearable(w).slots == NonBlank(Values(g))
    ensures Seqs.IsSubsequence(TransformWearable(w).slots, Values(g))
  {
    SortBySpec(SlotFields(w.fields), Index);
    StableOrderUnique(SortBy(SlotFields(w.fields), Index), g, Index);
    Seqs.FilterIsSubsequence(Values(g), NotBlank);
  }

  /** A value is a slot exactly when some `slots[` key holds it and it is not all whitespace. */
  lemma SlotsMembers(w: RawWearable)
    ensures forall x :: x in TransformWearable(w).slots <==>
      (exists f :: f in w.fields && IsSlotField(f) && f.value == x) && !Text.IsBlank(x)
  {
    SortedValuesMembers(w);
    Seqs.FilterMembers(Values(SortBy(SlotFields(w.fields), Index)), NotBlank);
    NotBlankIff();
  }

  lemma NotBlankIff()
    ensures forall x :: NotBlank(x) <==> !Text.IsBlank(x)
  {
    forall x ensures NotBlank(x) <==> !Text.IsBlank(x) {
      Text.TrimEmptyIffBlank(x);
    }
  }

  /** Sorting and taking values keeps exactly the values of the slot fields. */
  lemma SortedValuesMembers(w: RawWearable)
    ensures forall x :: x in Values(SortBy(SlotFields(w.fields), Index)) <==>
      exists f :: f in w.fields && IsSlotField(f) && f.value == x
  {
    var sorted := SortBy(SlotFields(w.fields), Index);
    Seqs.FilterMembers(w.fields, IsSlotField);
    SortByMembers(SlotFields(w.fields), Index);
    forall x ensures x in Values(sorted) <==> exists f :: f in w.fields && IsSlotField(f) && f.value == x {
      if x in Values(sorted) {
        var i :| 0 <= i < |sorted| && Values(sorted)[i] == x;
        assert sorted[i] in sorted;
      }
      if f :| f in w.fields && IsSlotField(f) && f.value == x {
        var i :| 0 <= i < |sorted| && sorted[i] == f;
        assert Values(sorted)[i] == x;
      }
    }
  }

  /** `{_id: "w1", aiDescription: "red cap", "slots[0]": "HAT", "slots[1]": ""}` normalises to slots `["HAT"]`. */
  lemma RedCapExample()
    ensures TransformWearable(RawWearable("w1", "red cap", [Field("slots[0]", "HAT"), Field("slots[1]", "")]))
      == Wearable("w1", "red cap", ["HAT"])
  {
    var f0, f1 := Field("slots[0]", "HAT"), Field("slots[1]", "");
    var w := RawWearable("w1", "red cap", [f0, f1]);
    RedCapSlotFields(f0, f1);
    RedCapSorted(f0, f1);
    RedCapValues(f0, f1);
    RedCapNonBlank();
  }

  lemma RedCapValues(f0: Field, f1: Field)
    requires f0 == Field("slots[0]", "HAT") && f1 == Field("slots[1]", "")
    ensures Values([f0, f1]) == ["HAT", ""]
  {
    assert Values([f0, f1])[0] == "HAT" && Values([f0, f1])[1] == "";
  }

  lemma RedCapSlotFields(f0: Field, f1: Field)
    requires f0 == Field("slots[0]", "HAT") && f1 == Field("slots[1]", "")
    ensures SlotFields([f0, f1]) == [f0, f1]
  {
    assert IsSlotField(f0) && IsSlotField(f1);
    Seqs.FilterPair(f0, f1, IsSlotField);
  }

  lemma RedCapSorted(f0: Field, f1: Field)
    requires f0 == Field("slots[0]", "HAT") && f1 == Field("slots[1]", "")
    ensures SortBy([f0, f1], Index) == [f0, f1]
  {
    CanonicalIndex(f0, 0);
    CanonicalIndex(f1, 1);
    SortPair(f0, f1, Index);
  }

  lemma CanonicalIndex(f: Field, n: nat)
    requires n < 10 && f.key == SlotKeyPrefix + [('0' as int + n) as char] + "]"
    ensures Index(f) == n
  {
    SlotIndexOfKey(n);
    assert Text.Decimal(n) == [('0' as int + n) as char];
  }

  lemma SortPair(f0: Field, f1: Field, key: Field -> nat)
    requires key(f0) <= key(f1)
    ensures SortBy([f0, f1], key) == [f0, f1]
  {
    assert [f0, f1][..1] == [f0];
    assert [f0][..0] == [];
    assert SortBy([f0], key) == [f0];
  }

  lemma RedCapNonBlank()
    ensures NonBlank(["HAT", ""]) == ["HAT"]
  {
    NotBlankIff();
    assert !Text.IsSpace("HAT"[0]);
    Seqs.FilterPair("HAT", "", NotBlank);
  }
}
