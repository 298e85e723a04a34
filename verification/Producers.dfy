/**
 wasm-metadata's producers section: insertion-ordered maps from field to tool to version.
 */
module Producers {
  import opened Common

  /** An insertion-ordered map; keys are meant to be distinct. */
  type Entries<V> = seq<(string, V)>

  type Versions = Entries<string>
  type Fields = Entries<Versions>

  predicate HasKey<V>(m: Entries<V>, k: string) {
    exists i :: 0 <= i < |m| && m[i].0 == k
  }

  function Get<V>(m: Entries<V>, k: string): Option<V> {
    if m == [] then None else if m[0].0 == k then Some(m[0].1) else Get(m[1..], k)
  }

  /** Replaces in place, or appends. */
  function Insert<V>(m: Entries<V>, k: string, v: V): Entries<V> {
    if m == [] then [(k, v)]
    else if m[0].0 == k then [(k, v)] + m[1..]
    else [m[0]] + Insert(m[1..], k, v)
  }

  ghost predicate DistinctKeys<V>(m: Entries<V>) {
    forall i, j :: 0 <= i < j < |m| ==> m[i].0 != m[j].0
  }

  lemma {:induction false} GetHasKey<V>(m: Entries<V>, k: string)
    ensures Get(m, k).Some? <==> HasKey(m, k)
  {
    if m != [] {
      GetHasKey(m[1..], k);
      if HasKey(m[1..], k) {
        var i :| 0 <= i < |m[1..]| && m[1..][i].0 == k;
        assert m[i + 1].0 == k;
      }
      if m[0].0 != k && HasKey(m, k) {
        var i :| 0 <= i < |m| && m[i].0 == k;
        assert m[1..][i - 1].0 == k;
      }
    }
  }

  lemma {:induction false} InsertGet<V>(m: Entries<V>, k: string, v: V, k': string)
    ensures Get(Insert(m, k, v), k') == if k' == k then Some(v) else Get(m, k')
  {
    if m != [] && m[0].0 != k {
      InsertGet(m[1..], k, v, k');
      assert Insert(m, k, v)[1..] == Insert(m[1..], k, v);
    } else if m != [] {
      assert Insert(m, k, v)[1..] == m[1..];
    }
  }

  lemma {:induction false} InsertKeys<V>(m: Entries<V>, k: string, v: V, i: nat)
    requires i < |Insert(m, k, v)|
    ensures Insert(m, k, v)[i].0 == k || (i < |m| && Insert(m, k, v)[i].0 == m[i].0)
  {
    if m != [] && m[0].0 != k && i > 0 {
      InsertKeys(m[1..], k, v, i - 1);
    }
  }

  lemma {:induction false} InsertDistinct<V>(m: Entries<V>, k: string, v: V)
    requires DistinctKeys(m)
    ensures DistinctKeys(Insert(m, k, v))
  {
    if m != [] && m[0].0 != k {
      InsertDistinct(m[1..], k, v);
      forall i | 0 <= i < |Insert(m[1..], k, v)| ensures Insert(m[1..], k, v)[i].0 != m[0].0 {
        InsertKeys(m[1..], k, v, i);
      }
    }
  }

  /** Inserting an absent key appends it. */
  lemma {:induction false} InsertNew<V>(m: Entries<V>, k: string, v: V)
    requires forall i :: 0 <= i < |m| ==> m[i].0 != k
    ensures Insert(m, k, v) == m + [(k, v)]
  {
    if m != [] {
      InsertNew(m[1..], k, v);
    }
  }

  // ----- reading a section, and writing it back -----

  /** Inserts all entries in order, as reading does. */
  function Collect<V>(raw: Entries<V>): Entries<V> {
    if raw == [] then [] else Insert(Collect(raw[..|raw| - 1]), raw[|raw| - 1].0, raw[|raw| - 1].1)
  }

  lemma {:induction false} CollectDistinct<V>(raw: Entries<V>)
    ensures DistinctKeys(Collect(raw))
  {
    if raw != [] {
      CollectDistinct(raw[..|raw| - 1]);
      InsertDistinct(Collect(raw[..|raw| - 1]), raw[|raw| - 1].0, raw[|raw| - 1].1);
    }
  }

  /** Reading back a map that was written entry by entry gives the same map, in the same order. */
  lemma {:induction false} CollectRoundTrip<V>(m: Entries<V>)
    requires DistinctKeys(m)
    ensures Collect(m) == m
  {
    if m != [] {
      CollectRoundTrip(m[..|m| - 1]);
      InsertNew(m[..|m| - 1], m[|m| - 1].0, m[|m| - 1].1);
    }
  }

  /** No later entry has the same key. */
  ghost predicate LastAt<V>(m: Entries<V>, i: int, k: string) {
    0 <= i < |m| && m[i].0 == k && forall j :: i < j < |m| ==> m[j].0 != k
  }

  /** Of entries with the same key the last one counts. */
  lemma {:induction false} CollectGet<V>(raw: Entries<V>, k: string)
    ensures forall i :: LastAt(raw, i, k) ==> Get(Collect(raw), k) == Some(raw[i].1)
    ensures !HasKey(raw, k) ==> Get(Collect(raw), k) == None
  {
    if raw != [] {
      var n := |raw| - 1;
      CollectGet(raw[..n], k);
      InsertGet(Collect(raw[..n]), raw[n].0, raw[n].1, k);
      forall i | LastAt(raw, i, k)
        ensures Get(Collect(raw), k) == Some(raw[i].1)
      {
        assert i < n ==> LastAt(raw[..n], i, k);
      }
      if !HasKey(raw, k) {
        assert raw[n].0 != k && !HasKey(raw[..n], k);
      }
    }
  }

  /** Keys are in the order in which they came first. */
  lemma {:induction false} CollectKeys<V>(raw: Entries<V>)
    ensures Keys(Collect(raw)) == FirstOf(Keys(raw))
  {
    if raw != [] {
      var n := |raw| - 1;
      CollectKeys(raw[..n]);
      assert Keys(raw)[..n] == Keys(raw[..n]);
      InsertedKeys(Collect(raw[..n]), raw[n].0, raw[n].1);
    }
  }

  function Keys<V>(m: Entries<V>): (ks: seq<string>)
    ensures |ks| == |m| && forall i :: 0 <= i < |m| ==> ks[i] == m[i].0
  {
    seq(|m|, i requires 0 <= i < |m| => m[i].0)
  }

  /** Without repetitions. */
  function FirstOf(ks: seq<string>): seq<string> {
    if ks == [] then []
    else
      var n := |ks| - 1;
      var init := FirstOf(ks[..n]);
      if ks[n] in init then init else init + [ks[n]]
  }

  lemma {:induction false} InsertedKeys<V>(m: Entries<V>, k: string, v: V)
    ensures Keys(Insert(m, k, v)) == if k in Keys(m) then Keys(m) else Keys(m) + [k]
  {
    hide Keys;
    if m == [] {
      KeysCons((k, v), m);
      assert Insert(m, k, v) == [(k, v)] + m;
    } else {
      var rest := m[1..];
      assert m == [m[0]] + rest;
      KeysCons(m[0], rest);
      if m[0].0 != k {
        InsertedKeys(rest, k, v);
        KeysCons(m[0], Insert(rest, k, v));
      } else {
        KeysCons((k, v), rest);
      }
    }
  }

  lemma KeysCons<V>(x: (string, V), m: Entries<V>)
    ensures Keys([x] + m) == [x.0] + Keys(m)
  {
  }

  function CollectEach(raw: Fields): Fields {
    if raw == [] then [] else [(raw[0].0, Collect(raw[0].1))] + CollectEach(raw[1..])
  }

  /** What `from_bytes` makes of the fields listed in a section. */
  function FromSection(raw: Fields): Fields {
    Collect(CollectEach(raw))
  }

  /** What is read for a name is the last entry of that name in the last field of that kind. */
  lemma FromSectionLookup(raw: Fields, field: string, name: string)
    ensures !HasKey(raw, field) ==> Lookup(FromSection(raw), field, name) == None
    ensures forall i :: LastAt(raw, i, field) && !HasKey(raw[i].1, name) ==>
              Lookup(FromSection(raw), field, name) == None
    ensures forall i, j :: LastAt(raw, i, field) && LastAt(raw[i].1, j, name) ==>
              Lookup(FromSection(raw), field, name) == Some(raw[i].1[j].1)
  {
    hide Collect;
    CollectEachIs(raw);
    var each := CollectEach(raw);
    CollectGet(each, field);
    assert HasKey(each, field) <==> HasKey(raw, field) by {
      SameKeys(raw);
    }
    forall i | LastAt(raw, i, field)
      ensures Get(Collect(each), field) == Some(Collect(raw[i].1))
    {
      assert LastAt(each, i, field);
    }
    if i :| LastAt(raw, i, field) {
      CollectGet(raw[i].1, name);
    }
  }

  lemma SameKeys(raw: Fields)
    ensures forall k :: HasKey(CollectEach(raw), k) <==> HasKey(raw, k)
  {
    CollectEachIs(raw);
    forall k
      ensures HasKey(CollectEach(raw), k) <==> HasKey(raw, k)
    {
      if HasKey(raw, k) {
        var i :| 0 <= i < |raw| && raw[i].0 == k;
        assert CollectEach(raw)[i].0 == k;
      }
      if HasKey(CollectEach(raw), k) {
        var i :| 0 <= i < |raw| && CollectEach(raw)[i].0 == k;
        assert raw[i].0 == k;
      }
    }
  }

  ghost predicate WellFormed(p: Fields) {
    DistinctKeys(p) && forall i :: 0 <= i < |p| ==> DistinctKeys(p[i].1)
  }

  lemma {:induction false} CollectEachIs(raw: Fields)
    ensures |CollectEach(raw)| == |raw|
    ensures forall i :: 0 <= i < |raw| ==> CollectEach(raw)[i] == (raw[i].0, Collect(raw[i].1))
  {
    if raw != [] {
      CollectEachIs(raw[1..]);
    }
  }

  /** Writing a section and reading it again is the identity. */
  lemma SectionRoundTrip(p: Fields)
    requires WellFormed(p)
    ensures FromSection(p) == p
  {
    CollectEachIs(p);
    forall i | 0 <= i < |p| ensures CollectEach(p)[i] == p[i] {
      CollectRoundTrip(p[i].1);
    }
    assert CollectEach(p) == p;
    CollectRoundTrip(p);
  }

  lemma FromSectionWellFormed(raw: Fields)
    ensures WellFormed(FromSection(raw))
  {
    CollectEachIs(raw);
    var each := CollectEach(raw);
    forall i | 0 <= i < |each| ensures DistinctKeys(each[i].1) {
      CollectDistinct(raw[i].1);
    }
    CollectDistinct(each);
    CollectValues(each);
  }

  lemma {:induction false} InsertValues(m: Fields, k: string, v: Versions)
    requires DistinctKeys(v) && forall i :: 0 <= i < |m| ==> DistinctKeys(m[i].1)
    ensures forall i :: 0 <= i < |Insert(m, k, v)| ==> DistinctKeys(Insert(m, k, v)[i].1)
  {
    if m != [] && m[0].0 != k {
      InsertValues(m[1..], k, v);
    }
  }

  lemma {:induction false} CollectValues(raw: Fields)
    requires forall i :: 0 <= i < |raw| ==> DistinctKeys(raw[i].1)
    ensures forall i :: 0 <= i < |Collect(raw)| ==> DistinctKeys(Collect(raw)[i].1)
  {
    if raw != [] {
      CollectValues(raw[..|raw| - 1]);
      InsertValues(Collect(raw[..|raw| - 1]), raw[|raw| - 1].0, raw[|raw| - 1].1);
    }
  }

  // ----- adding and merging -----

  function ValuesOf(p: Fields, field: string): Versions {
    match Get(p, field)
    case Some(values) => values
    case None => []
  }

  function Add(p: Fields, field: string, name: string, version: string): Fields {
    Insert(p, field, Insert(ValuesOf(p, field), name, version))
  }

  function Lookup(p: Fields, field: string, name: string): Option<string> {
    Get(ValuesOf(p, field), name)
  }

  lemma AddLookup(p: Fields, field: string, name: string, version: string, f: string, n: string)
    ensures Lookup(Add(p, field, name, version), f, n)
         == if f == field && n == name then Some(version) else Lookup(p, f, n)
  {
    InsertGet(p, field, Insert(ValuesOf(p, field), name, version), f);
    InsertGet(ValuesOf(p, field), name, version, n);
  }

  lemma {:induction false} GetIsEntry<V>(m: Entries<V>, k: string)
    requires Get(m, k).Some?
    ensures exists i :: 0 <= i < |m| && m[i] == (k, Get(m, k).value)
  {
    if m[0].0 == k {
      assert m[0] == (k, Get(m, k).value);
    } else {
      GetIsEntry(m[1..], k);
      var i :| 0 <= i < |m[1..]| && m[1..][i] == (k, Get(m, k).value);
      assert m[i + 1] == (k, Get(m, k).value);
    }
  }

  lemma AddWellFormed(p: Fields, field: string, name: string, version: string)
    requires WellFormed(p)
    ensures WellFormed(Add(p, field, name, version))
  {
    if Get(p, field).Some? {
      GetIsEntry(p, field);
    }
    InsertDistinct(ValuesOf(p, field), name, version);
    InsertDistinct(p, field, Insert(ValuesOf(p, field), name, version));
    InsertValues(p, field, Insert(ValuesOf(p, field), name, version));
  }

  function AddAll(p: Fields, field: string, values: Versions): Fields {
    if values == [] then p
    else Add(AddAll(p, field, values[..|values| - 1]), field, values[|values| - 1].0, values[|values| - 1].1)
  }

  /** Adds every value of `q`, field by field. */
  function Merge(p: Fields, q: Fields): Fields {
    if q == [] then p else AddAll(Merge(p, q[..|q| - 1]), q[|q| - 1].0, q[|q| - 1].1)
  }

  lemma {:induction false} GetSnoc<V>(m: Entries<V>, k: string)
    requires m != [] && DistinctKeys(m)
    ensures Get(m, k) == if m[|m| - 1].0 == k then Some(m[|m| - 1].1) else Get(m[..|m| - 1], k)
  {
    if |m| > 1 {
      GetSnoc(m[1..], k);
      assert m[1..][..|m| - 2] == m[..|m| - 1][1..];
    }
  }

  lemma {:induction false} AddAllLookup(p: Fields, field: string, values: Versions, f: string, n: string)
    requires DistinctKeys(values)
    ensures Lookup(AddAll(p, field, values), f, n)
         == if f == field && Get(values, n).Some? then Get(values, n) else Lookup(p, f, n)
  {
    if values != [] {
      var m := |values| - 1;
      AddAllLookup(p, field, values[..m], f, n);
      AddLookup(AddAll(p, field, values[..m]), field, values[m].0, values[m].1, f, n);
      GetSnoc(values, n);
    }
  }

  /** Merging is right-biased, value by value. */
  lemma {:induction false} MergeLookup(p: Fields, q: Fields, f: string, n: string)
    requires WellFormed(q)
    ensures Lookup(Merge(p, q), f, n) == if Lookup(q, f, n).Some? then Lookup(q, f, n) else Lookup(p, f, n)
  {
    if q != [] {
      var m := |q| - 1;
      MergeLookup(p, q[..m], f, n);
      AddAllLookup(Merge(p, q[..m]), q[m].0, q[m].1, f, n);
      GetSnoc(q, f);
      if f == q[m].0 {
        assert !HasKey(q[..m], f);
        GetHasKey(q[..m], f);
      }
    }
  }

  lemma {:induction false} AddAllWellFormed(p: Fields, field: string, values: Versions)
    requires WellFormed(p)
    ensures WellFormed(AddAll(p, field, values))
  {
    if values != [] {
      AddAllWellFormed(p, field, values[..|values| - 1]);
      AddWellFormed(AddAll(p, field, values[..|values| - 1]), field, values[|values| - 1].0, values[|values| - 1].1);
    }
  }

  lemma {:induction false} MergeWellFormed(p: Fields, q: Fields)
    requires WellFormed(p)
    ensures WellFormed(Merge(p, q))
  {
    if q != [] {
      MergeWellFormed(p, q[..|q| - 1]);
      AddAllWellFormed(Merge(p, q[..|q| - 1]), q[|q| - 1].0, q[|q| - 1].1);
    }
  }

  // ----- the mutable section -----

  class ProducersSection {
    var fields: Fields

    constructor ()
      ensures fields == []
    {
      fields := [];
    }

    constructor FromBytes(raw: Fields)
      ensures fields == FromSection(raw)
    {
      var all: Fields := [];
      CollectEachIs(raw);
      assert CollectEach(raw)[..0] == [];
      for i := 0 to |raw|
        invariant all == Collect(CollectEach(raw)[..i])
      {
        var values: Versions := [];
        for j := 0 to |raw[i].1|
          invariant values == Collect(raw[i].1[..j])
        {
          values := Insert(values, raw[i].1[j].0, raw[i].1[j].1);
          assert raw[i].1[..j + 1][..j] == raw[i].1[..j];
        }
        assert raw[i].1[..|raw[i].1|] == raw[i].1;
        all := Insert(all, raw[i].0, values);
        assert CollectEach(raw)[..i + 1][..i] == CollectEach(raw)[..i];
      }
      assert CollectEach(raw)[..|raw|] == CollectEach(raw);
      fields := all;
    }

    method AddValue(field: string, name: string, version: string)
      modifies this
      ensures fields == Add(old(fields), field, name, version)
    {
      match Get(fields, field) {
        case Some(values) => fields := Insert(fields, field, Insert(values, name, version));
        case None => fields := Insert(fields, field, [(name, version)]);
      }
    }

    method MergeFrom(other: Fields)
      modifies this
      ensures fields == Merge(old(fields), other)
    {
      assert other[..0] == [];
      for i := 0 to |other|
        invariant fields == Merge(old(fields), other[..i])
      {
        ghost var before := fields;
        var (field, values) := other[i];
        assert values[..0] == [];
        for j := 0 to |values|
          invariant fields == AddAll(before, field, values[..j])
        {
          AddValue(field, values[j].0, values[j].1);
          assert values[..j + 1][..j] == values[..j];
        }
        assert values[..|values|] == values;
        assert other[..i + 1][..i] == other[..i];
      }
      assert other[..|other|] == other;
    }
  }
}
