/** `sortByGrade`, which both Flask services define identically (Backend/app.py and
    app.py, lines 31-64): keep the stations that price the requested grade and strip
    every other grade from the kept stations' price objects with `del`. */
module GradeFilter {
  import opened Wrappers
  import opened Stations
  import Seqs

  /** The keys the `match` statement deletes for the grade it is given, in statement
      order. A grade the `match` does not name deletes nothing. */
  function OtherGrades(grade: string): (r: seq<string>)
    ensures grade in GradeNames ==> |r| == 4 && Distinct(r)
    ensures grade in GradeNames ==> (set k | k in r) == (set k | k in GradeNames) - {grade}
    ensures grade !in GradeNames ==> r == []
  {
    match grade
    case "regular" => [Midgrade, Premium, Diesel, E85]
    case "midgrade" => [Regular, Premium, Diesel, E85]
    case "premium" => [Regular, Midgrade, Diesel, E85]
    case "diesel" => [Regular, Midgrade, Premium, E85]
    case "e85" => [Regular, Midgrade, Premium, Diesel]
    case _ => []
  }

  /** `info["prices"][grade] is not None`, for a station that has the key. */
  predicate Priced(s: Station, grade: string) {
    var v := Lookup(s.prices, grade);
    v.Some? && v.value.Some?
  }

  /** The station survives every statement `sortByGrade` runs on it: the lookup of
      `grade`, and, when that price is not null, every `del`. */
  predicate ReadyFor(s: Station, grade: string) {
    && grade in KeysOf(s.prices)
    && (Priced(s, grade) ==> forall k :: k in OtherGrades(grade) ==> k in KeysOf(s.prices))
  }

  /** A kept station: the same record with the other grades gone from its prices. */
  function Reduced(s: Station, grade: string): (r: Station)
    ensures r.brandName == s.brandName && r.details == s.details
    ensures forall k :: k in KeysOf(r.prices) <==> k in KeysOf(s.prices) && k !in OtherGrades(grade)
    ensures Lookup(r.prices, grade) == Lookup(s.prices, grade)
  {
    var others := set k | k in OtherGrades(grade);
    forall k ensures k in KeysOf(Without(s.prices, others)) <==> k in KeysOf(s.prices) && k !in others {
      KeysWithout(s.prices, others, k);
    }
    assert grade !in others;
    LookupWithout(s.prices, others, grade);
    s.(prices := Without(s.prices, others))
  }

  function PricedEntry(grade: string): ((string, Station)) -> bool {
    (e: (string, Station)) => Priced(e.1, grade)
  }

  function ReducedEntry(grade: string): ((string, Station)) -> (string, Station) {
    (e: (string, Station)) => (e.0, Reduced(e.1, grade))
  }

  /** One iteration of the loop: None when the station is skipped. */
  function KeepStation(s: Station, grade: string): (r: Outcome<Option<Station>>)
    ensures r.Success? <==> ReadyFor(s, grade)
    ensures r.Failure? ==> r.error.KeyError?
    ensures r.Success? ==> (r.value.Some? <==> Priced(s, grade))
    ensures r.Success? && r.value.Some? ==> r.value.value == Reduced(s, grade)
  {
    var price :- GetPrice(s.prices, grade);
    if price.None? then Success(None)
    else
      var kept :- DelAll(s.prices, OtherGrades(grade));
      Success(Some(s.(prices := kept)))
  }

  /** Every station is ready for the grade. */
  predicate AllReady(d: Store, grade: string) {
    forall i :: 0 <= i < |d| ==> ReadyFor(d[i].1, grade)
  }

  /** `sortByGrade(dictionary, grade)`. It succeeds exactly when every station is
      ready for the grade, and then it is the stable filter "prices `grade`" followed by
      the reduction of each kept station. */
  function SortByGrade(d: Store, grade: string): (r: Outcome<Store>)
    ensures r.Success? <==> AllReady(d, grade)
    ensures r.Failure? ==> r.error.KeyError?
    ensures r.Success? ==> r.value == Seqs.Map(Seqs.Filter(d, PricedEntry(grade)), ReducedEntry(grade))
    decreases |d|
  {
    if |d| == 0 then Success([])
    else
      AllReadyCons(d, grade);
      var kept :- KeepStation(d[0].1, grade);
      var rest :- SortByGrade(d[1..], grade);
      FilterMapCons(d, grade);
      Success(if kept.Some? then [(d[0].0, kept.value)] + rest else rest)
  }

  lemma AllReadyCons(d: Store, grade: string)
    requires |d| > 0
    ensures AllReady(d, grade) <==> ReadyFor(d[0].1, grade) && AllReady(d[1..], grade)
  {
    assert forall i :: 1 <= i < |d| ==> d[i] == d[1..][i - 1];
  }

  lemma FilterMapCons(d: Store, grade: string)
    requires |d| > 0
    ensures Seqs.Map(Seqs.Filter(d, PricedEntry(grade)), ReducedEntry(grade))
         == (if Priced(d[0].1, grade) then [(d[0].0, Reduced(d[0].1, grade))] else [])
            + Seqs.Map(Seqs.Filter(d[1..], PricedEntry(grade)), ReducedEntry(grade))
  {
    Seqs.FilterMapHead(d, PricedEntry(grade), ReducedEntry(grade));
    assert PricedEntry(grade)(d[0]) == Priced(d[0].1, grade);
    assert ReducedEntry(grade)(d[0]) == (d[0].0, Reduced(d[0].1, grade));
  }

  /** Which stations come out, and in which order: exactly the ones with a non-null
      price for `grade`, keyed as before and in input order. */
  lemma SortByGradeSelects(d: Store, grade: string, e: (string, Station))
    requires SortByGrade(d, grade).Success?
    ensures e in Seqs.Filter(d, PricedEntry(grade)) <==> e in d && Priced(e.1, grade)
    ensures Seqs.IsSubseq(Seqs.Filter(d, PricedEntry(grade)), d)
    ensures KeysOf(SortByGrade(d, grade).value) == KeysOf(Seqs.Filter(d, PricedEntry(grade)))
  {
    Seqs.FilterMembership(d, PricedEntry(grade), e);
    Seqs.FilterIsSubseq(d, PricedEntry(grade));
  }

  /** Any station lacking the requested key makes the request fail with a KeyError,
      whatever the other stations hold. */
  lemma MissingGradeFails(d: Store, grade: string, i: nat)
    requires i < |d| && grade !in KeysOf(d[i].1.prices)
    ensures SortByGrade(d, grade).Failure?
    ensures SortByGrade(d, grade).error.KeyError?
  {
  }

  /** For a well-formed station (unique keys, all of them grade names), a kept station's
      price object has the requested grade as its one key, unique, with its price
      unchanged; the rest of the record is untouched. */
  lemma ReducedSingleKey(s: Station, grade: string)
    requires grade in GradeNames && Priced(s, grade)
    requires UniqueKeys(s.prices)
    requires forall k :: k in KeysOf(s.prices) ==> k in GradeNames
    ensures forall k :: k in KeysOf(Reduced(s, grade).prices) <==> k == grade
    ensures UniqueKeys(Reduced(s, grade).prices)
    ensures Lookup(Reduced(s, grade).prices, grade) == Lookup(s.prices, grade)
    ensures Reduced(s, grade).brandName == s.brandName && Reduced(s, grade).details == s.details
  {
    var others := set k | k in OtherGrades(grade);
    forall k ensures k in KeysOf(Without(s.prices, others)) <==> k == grade {
      KeysWithout(s.prices, others, k);
    }
    WithoutUnique(s.prices, others);
    LookupWithout(s.prices, others, grade);
  }

  /** Hence every price left in a kept well-formed station is the requested grade's price. */
  lemma ReducedPricesAreGradePrice(s: Station, grade: string, i: nat)
    requires grade in GradeNames && Priced(s, grade)
    requires UniqueKeys(s.prices)
    requires forall k :: k in KeysOf(s.prices) ==> k in GradeNames
    requires i < |Reduced(s, grade).prices|
    ensures Reduced(s, grade).prices[i] == (grade, Lookup(s.prices, grade).value)
  {
    var p := Reduced(s, grade).prices;
    ReducedSingleKey(s, grade);
    assert KeysOf(p)[i] in KeysOf(p);
    LookupUnique(p, i);
  }

  /** `sortByGrade` cannot be applied to its own non-empty output: the first kept
      station no longer has the keys the `del` statements remove. */
  lemma SortByGradeNotReapplicable(d: Store, grade: string)
    requires grade in GradeNames
    requires SortByGrade(d, grade).Success? && |SortByGrade(d, grade).value| > 0
    ensures SortByGrade(SortByGrade(d, grade).value, grade).Failure?
  {
    var out := SortByGrade(d, grade).value;
    var kept := Seqs.Filter(d, PricedEntry(grade));
    var s := kept[0].1;
    assert PricedEntry(grade)(kept[0]);
    assert out[0].1 == Reduced(s, grade);
    var others := set k | k in OtherGrades(grade);
    LookupWithout(s.prices, others, grade);
    assert Priced(out[0].1, grade);
    var k0 := OtherGrades(grade)[0];
    KeysWithout(s.prices, others, k0);
    assert !ReadyFor(out[0].1, grade);
  }

  /** A grade the `match` does not name (but every station has as a key) filters
      without altering any station. */
  lemma UnnamedGradeOnlyFilters(d: Store, grade: string)
    requires grade !in GradeNames
    requires forall i :: 0 <= i < |d| ==> grade in KeysOf(d[i].1.prices)
    ensures SortByGrade(d, grade) == Success(Seqs.Filter(d, PricedEntry(grade)))
  {
    var kept := Seqs.Filter(d, PricedEntry(grade));
    forall i | 0 <= i < |kept| ensures ReducedEntry(grade)(kept[i]) == kept[i] {
      assert (set k | k in OtherGrades(grade)) == {};
      WithoutNothing(kept[i].1.prices);
    }
  }
}
