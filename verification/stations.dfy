/** The station records both Flask services load from `stations.json`, and the few
    Python dictionary operations the filters perform on them (`d[k]`, `del d[k]`). */
module Stations {
  import opened Wrappers
  import Seqs

  /** The exceptions the modelled Python code can raise. */
  datatype PyError =
    | KeyError(key: string)   // `d[k]` or `del d[k]` on a missing key
    | TypeError               // `None < number`
    | AttributeError          // `None.values()`

  type Outcome<T> = Result<T, PyError>

  /** A fuel price as an exact count of thousandths of a dollar: the JSON holds dollars
      as floats, generated with three decimals. */
  type Price = int

  /** Price units in one dollar. */
  const UnitsPerDollar: Price := 1000

  /** A station's `prices` object: grade name to price or null, in JSON order. */
  type Prices = seq<(string, Option<Price>)>

  /** One value of the station dictionary. `details` stands for the fields no
      modelled code reads (address, coordinates, ...), carried along untouched. */
  datatype Station = Station(brandName: string, prices: Prices, details: seq<(string, string)>)

  /** The station dictionary: station id to record, in insertion order. */
  type Store = seq<(string, Station)>

  const Regular: string := "regular"
  const Midgrade: string := "midgrade"
  const Premium: string := "premium"
  const Diesel: string := "diesel"
  const E85: string := "e85"

  /** The grade keys of a station's price object, in the order the data carries them. */
  const GradeNames: seq<string> := [Regular, Midgrade, Premium, Diesel, E85]

  /** The shape the data generator gives every price object: unique keys, each one a
      grade name. */
  predicate WellFormedPrices(p: Prices) {
    UniqueKeys(p) && forall k :: k in KeysOf(p) ==> k in GradeNames
  }

  function KeysOf<V>(entries: seq<(string, V)>): (r: seq<string>)
    ensures |r| == |entries|
    ensures forall i :: 0 <= i < |r| ==> r[i] == entries[i].0
  {
    Seqs.Map(entries, (e: (string, V)) => e.0)
  }

  /** Dictionary keys are unique; every well-formed store and price object satisfies this. */
  predicate UniqueKeys<V>(entries: seq<(string, V)>) {
    forall i, j :: 0 <= i < j < |entries| ==> entries[i].0 != entries[j].0
  }

  /** `list(d.values())`. */
  function ValuesOf(d: Store): (r: seq<Station>)
    ensures |r| == |d|
    ensures forall i :: 0 <= i < |d| ==> r[i] == d[i].1
  {
    Seqs.Map(d, (e: (string, Station)) => e.1)
  }

  /** The value stored under `k`, if any. */
  function Lookup<V>(entries: seq<(string, V)>, k: string): (r: Option<V>)
    ensures r.Some? <==> k in KeysOf(entries)
    ensures r.Some? ==> (k, r.value) in entries
    ensures forall i :: 0 <= i < |entries| && entries[i].0 == k ==> r.Some?
    decreases |entries|
  {
    if |entries| == 0 then None
    else if entries[0].0 == k then Some(entries[0].1)
    else
      assert KeysOf(entries) == [entries[0].0] + KeysOf(entries[1..]);
      Lookup(entries[1..], k)
  }

  /** The index of the first entry with key `k`: the entry `Lookup` finds. */
  function FirstIndexOf<V>(entries: seq<(string, V)>, k: string): (i: nat)
    requires Lookup(entries, k).Some?
    ensures i < |entries| && entries[i].0 == k
    ensures forall j :: 0 <= j < i ==> entries[j].0 != k
    ensures Lookup(entries, k) == Some(entries[i].1)
    decreases |entries|
  {
    if entries[0].0 == k then 0
    else
      var tail := entries[1..];
      assert Lookup(entries, k) == Lookup(tail, k);
      var i := FirstIndexOf(tail, k);
      assert forall j :: 1 <= j <= i + 1 ==> entries[j] == tail[j - 1];
      i + 1
  }

  /** `Lookup` finds the first entry with key `k`, as a Python dict built from the
      pairs in order (or Flask's `args.get`) does for a repeated key. */
  lemma LookupFirst<V>(entries: seq<(string, V)>, k: string)
    requires k in KeysOf(entries)
    ensures exists i :: 0 <= i < |entries| && entries[i] == (k, Lookup(entries, k).value)
                        && forall j :: 0 <= j < i ==> entries[j].0 != k
  {
    var i := FirstIndexOf(entries, k);
    assert entries[i] == (k, Lookup(entries, k).value);
  }

  /** Entry `i` is the first one with key `k`. */
  predicate FirstWith<V>(entries: seq<(string, V)>, k: string, i: int) {
    0 <= i < |entries| && entries[i].0 == k && forall j :: 0 <= j < i ==> entries[j].0 != k
  }

  /** Whatever the entries, `Lookup` gives the value of the first entry with key `k`. */
  lemma LookupAtFirst<V>(entries: seq<(string, V)>, k: string)
    ensures forall i :: FirstWith(entries, k, i) ==> Lookup(entries, k) == Some(entries[i].1)
  {
    forall i | FirstWith(entries, k, i)
      ensures Lookup(entries, k) == Some(entries[i].1)
    {
      assert k in KeysOf(entries);
      var n := FirstIndexOf(entries, k);
      assert n == i;
    }
  }

  /** In a dictionary with unique keys, the entry with key `k` is the one `Lookup` finds. */
  lemma LookupUnique<V>(entries: seq<(string, V)>, i: nat)
    requires UniqueKeys(entries) && i < |entries|
    ensures Lookup(entries, entries[i].0) == Some(entries[i].1)
  {
    var k := entries[i].0;
    var r := Lookup(entries, k);
    var j :| 0 <= j < |entries| && entries[j] == (k, r.value);
    assert j == i;
  }

  /** `prices[k]`: the price or null under `k`, and a KeyError when `k` is absent. */
  function GetPrice(p: Prices, k: string): (r: Outcome<Option<Price>>)
    ensures r.Success? <==> k in KeysOf(p)
    ensures r.Success? ==> Lookup(p, k) == Some(r.value)
    ensures r.Failure? ==> r.error == KeyError(k)
  {
    match Lookup(p, k)
    case None => Failure(KeyError(k))
    case Some(v) => Success(v)
  }

  /** The price object with every key in `ks` removed, the rest in order. */
  function Without(p: Prices, ks: set<string>): (r: Prices)
    ensures |r| <= |p|
    decreases |p|
  {
    if |p| == 0 then []
    else if p[0].0 in ks then Without(p[1..], ks)
    else [p[0]] + Without(p[1..], ks)
  }

  lemma {:induction false} KeysWithout(p: Prices, ks: set<string>, k: string)
    ensures k in KeysOf(Without(p, ks)) <==> k in KeysOf(p) && k !in ks
    decreases |p|
  {
    if |p| > 0 {
      KeysWithout(p[1..], ks, k);
      assert KeysOf(p) == [p[0].0] + KeysOf(p[1..]);
      if p[0].0 !in ks {
        assert KeysOf(Without(p, ks)) == [p[0].0] + KeysOf(Without(p[1..], ks));
      }
    }
  }

  /** Removing keys never changes the value under a key that stays. */
  lemma {:induction false} LookupWithout(p: Prices, ks: set<string>, k: string)
    requires k !in ks
    ensures Lookup(Without(p, ks), k) == Lookup(p, k)
    decreases |p|
  {
    if |p| > 0 {
      LookupWithout(p[1..], ks, k);
      if p[0].0 !in ks {
        assert Without(p, ks)[1..] == Without(p[1..], ks);
      }
    }
  }

  lemma {:induction false} WithoutWithout(p: Prices, a: set<string>, b: set<string>)
    ensures Without(Without(p, a), b) == Without(p, a + b)
    decreases |p|
  {
    if |p| > 0 {
      WithoutWithout(p[1..], a, b);
      if p[0].0 !in a {
        assert Without(p, a)[1..] == Without(p[1..], a);
      }
    }
  }

  lemma {:induction false} WithoutNothing(p: Prices)
    ensures Without(p, {}) == p
    decreases |p|
  {
    if |p| > 0 {
      WithoutNothing(p[1..]);
    }
  }

  /** Removing keys keeps the remaining keys unique. */
  lemma {:induction false} WithoutUnique(p: Prices, ks: set<string>)
    requires UniqueKeys(p)
    ensures UniqueKeys(Without(p, ks))
    decreases |p|
  {
    if |p| > 0 {
      WithoutUnique(p[1..], ks);
      if p[0].0 !in ks {
        var w := Without(p, ks);
        KeysWithout(p[1..], ks, p[0].0);
        assert p[0].0 !in KeysOf(p[1..]) by {
          forall i | 0 <= i < |p[1..]| ensures KeysOf(p[1..])[i] != p[0].0 {
            assert p[1..][i] == p[i + 1];
          }
        }
        forall j | 0 < j < |w| ensures w[0].0 != w[j].0 {
          assert w[j] == Without(p[1..], ks)[j - 1];
          assert KeysOf(Without(p[1..], ks))[j - 1] == w[j].0;
        }
      }
    }
  }

  predicate Distinct(ks: seq<string>) {
    forall i, j :: 0 <= i < j < |ks| ==> ks[i] != ks[j]
  }

  /** `del prices[k]`: KeyError when `k` is absent. */
  function Del(p: Prices, k: string): (r: Outcome<Prices>)
    ensures r.Success? <==> k in KeysOf(p)
    ensures r.Success? ==> r.value == Without(p, {k})
    ensures r.Success? ==> forall k' :: k' in KeysOf(r.value) <==> k' in KeysOf(p) && k' != k
    ensures r.Success? ==> forall k' :: k' != k ==> Lookup(r.value, k') == Lookup(p, k')
    ensures r.Failure? ==> r.error == KeyError(k)
  {
    if k in KeysOf(p) then
      forall k' ensures k' in KeysOf(Without(p, {k})) <==> k' in KeysOf(p) && k' != k {
        KeysWithout(p, {k}, k');
      }
      forall k' | k' != k ensures Lookup(Without(p, {k}), k') == Lookup(p, k') {
        LookupWithout(p, {k}, k');
      }
      Success(Without(p, {k}))
    else Failure(KeyError(k))
  }

  /** A run of `del prices[k]` statements, one per key of `ks`, in order; the first
      missing key raises. A key listed twice is missing the second time. */
  function DelAll(p: Prices, ks: seq<string>): (r: Outcome<Prices>)
    ensures r.Success? <==> Distinct(ks) && forall i :: 0 <= i < |ks| ==> ks[i] in KeysOf(p)
    ensures r.Success? ==> r.value == Without(p, set k | k in ks)
    ensures r.Failure? ==> r.error.KeyError? && r.error.key in ks
    decreases |ks|
  {
    if |ks| == 0 then
      WithoutNothing(p);
      assert (set k | k in ks) == {};
      Success(p)
    else
      match Del(p, ks[0])
      case Failure(e) => Failure(e)
      case Success(p1) =>
        var r := DelAll(p1, ks[1..]);
        DelAllStep(p, ks, p1, r);
        r
  }

  /** The inductive step of `DelAll`'s contract, once the first key has been deleted. */
  lemma DelAllStep(p: Prices, ks: seq<string>, p1: Prices, r: Outcome<Prices>)
    requires |ks| > 0 && ks[0] in KeysOf(p) && p1 == Without(p, {ks[0]})
    requires r.Success? <==> Distinct(ks[1..]) && forall i :: 0 <= i < |ks[1..]| ==> ks[1..][i] in KeysOf(p1)
    requires r.Success? ==> r.value == Without(p1, set k | k in ks[1..])
    ensures r.Success? <==> Distinct(ks) && forall i :: 0 <= i < |ks| ==> ks[i] in KeysOf(p)
    ensures r.Success? ==> r.value == Without(p, set k | k in ks)
  {
    forall k ensures k in KeysOf(p1) <==> k in KeysOf(p) && k != ks[0] {
      KeysWithout(p, {ks[0]}, k);
    }
    var whole := Distinct(ks) && forall i :: 0 <= i < |ks| ==> ks[i] in KeysOf(p);
    var rest := Distinct(ks[1..]) && forall i :: 0 <= i < |ks[1..]| ==> ks[1..][i] in KeysOf(p1);
    if whole {
      forall i | 0 <= i < |ks[1..]| ensures ks[1..][i] in KeysOf(p1) {
        assert ks[1..][i] == ks[i + 1];
      }
    }
    if rest {
      forall i, j | 0 <= i < j < |ks| ensures ks[i] != ks[j] {
        if i > 0 {
          assert ks[i] == ks[1..][i - 1] && ks[j] == ks[1..][j - 1];
        } else {
          assert ks[j] == ks[1..][j - 1];
        }
      }
      forall i | 0 < i < |ks| ensures ks[i] in KeysOf(p) {
        assert ks[i] == ks[1..][i - 1];
      }
    }
    assert whole <==> rest;
    if r.Success? {
      WithoutWithout(p, {ks[0]}, set k | k in ks[1..]);
      assert {ks[0]} + (set k | k in ks[1..]) == set k | k in ks;
    }
  }

  /** The lowest non-null price of a price object, None when every price is null or
      there is none. */
  function LowestPrice(p: Prices): (r: Option<Price>)
    ensures r.None? <==> forall i :: 0 <= i < |p| ==> p[i].1.None?
    ensures r.Some? ==> exists i :: 0 <= i < |p| && p[i].1 == Some(r.value)
    ensures r.Some? ==> forall i :: 0 <= i < |p| && p[i].1.Some? ==> r.value <= p[i].1.value
    decreases |p|
  {
    if |p| == 0 then None
    else
      var rest := LowestPrice(p[1..]);
      assert forall i :: 1 <= i < |p| ==> p[i] == p[1..][i - 1];
      if p[0].1.Some? && (rest.None? || p[0].1.value < rest.value) then p[0].1 else rest
  }

  /** The lowest non-null price of a dictionary entry's station. */
  function Low(e: (string, Station)): Option<Price> {
    LowestPrice(e.1.prices)
  }
}
