/** The Flask service in app.py (the repository root): the same stages as
    Backend/app.py, but the query parameters are used as given, `sortByBrand`
    lower-cases both sides itself, `sortByCheapest` returns one station, and the
    response is the keyed dictionary itself. */
module RootApp {
  import opened Wrappers
  import opened Stations
  import opened Requests
  import opened Stages
  import Text
  import Seqs
  import GradeFilter

  /** The three request parameters, `request.args.get(..., "default")`, not lower-cased. */
  datatype Params = Params(grade: string, brand: string, sortingType: string)

  function ReadParams(args: Args): (r: Params)
    ensures "grade" !in KeysOf(args) ==> r.grade == Default
    ensures "brand" !in KeysOf(args) ==> r.brand == Default
    ensures "sortingType" !in KeysOf(args) ==> r.sortingType == Default
    ensures "grade" in KeysOf(args) ==> ("grade", r.grade) in args
    ensures "brand" in KeysOf(args) ==> ("brand", r.brand) in args
    ensures "sortingType" in KeysOf(args) ==> ("sortingType", r.sortingType) in args
    ensures forall i :: FirstWith(args, "grade", i) ==> r.grade == args[i].1
    ensures forall i :: FirstWith(args, "brand", i) ==> r.brand == args[i].1
    ensures forall i :: FirstWith(args, "sortingType", i) ==> r.sortingType == args[i].1
  {
    Params(ArgOr(args, "grade", Default), ArgOr(args, "brand", Default), ArgOr(args, "sortingType", Default))
  }

  /** The parameters are taken exactly as the query gives them. */
  lemma ReadParamsVerbatim(grade: string, brand: string, sortingType: string)
    ensures ReadParams(NamedQuery(grade, brand, sortingType)) == Params(grade, brand, sortingType)
    ensures ReadParams([]) == Params(Default, Default, Default)
  {
    ReadNamedQuery(grade, brand, sortingType, Default);
  }

  /** `sortByBrand(dictionary, brand)`: station brand and argument both lower-cased. */
  function SortByBrand(d: Store, brand: string): (r: Store)
    ensures Seqs.IsSubseq(r, d)
    ensures forall i :: 0 <= i < |r| ==> Text.Lower(r[i].1.brandName) == Text.Lower(brand)
  {
    Seqs.FilterIsSubseq(d, BrandIs(Text.Lower(brand)));
    Seqs.Filter(d, BrandIs(Text.Lower(brand)))
  }

  /** `sortByBrand` keeps exactly the entries whose brand equals `brand` up to case,
      unaltered and in input order, and a second application changes nothing. */
  lemma SortByBrandSelects(d: Store, brand: string, e: (string, Station))
    ensures e in SortByBrand(d, brand) <==> e in d && Text.Lower(e.1.brandName) == Text.Lower(brand)
    ensures Seqs.IsSubseq(SortByBrand(d, brand), d)
    ensures SortByBrand(SortByBrand(d, brand), brand) == SortByBrand(d, brand)
  {
    Seqs.FilterMembership(d, BrandIs(Text.Lower(brand)), e);
    Seqs.FilterIsSubseq(d, BrandIs(Text.Lower(brand)));
    Seqs.FilterIdempotent(d, BrandIs(Text.Lower(brand)));
  }

  /** Two spellings of a brand that differ only in case select the same stations. */
  lemma SortByBrandCaseInsensitive(d: Store, brand1: string, brand2: string)
    requires Text.Lower(brand1) == Text.Lower(brand2)
    ensures SortByBrand(d, brand1) == SortByBrand(d, brand2)
  {
  }

  /** `sortByShortest`: a stub whose body is `pass`, so it returns None. */
  function SortByShortest(d: Store): (r: Option<Store>)
    ensures r.None?
  {
    None
  }

  /** The running minimum's start value, 100 dollars. */
  const CheapestSeed: Price := 100 * UnitsPerDollar

  /** Every price of every station is non-null. */
  predicate AllPriced(d: Store) {
    forall i, j :: 0 <= i < |d| && 0 <= j < |d[i].1.prices| ==> d[i].1.prices[j].1.Some?
  }

  /** The inner loop of `sortByCheapest` over one station `s` with prices `p`, from the
      running pair (`lowest_price`, `cheapest`): a null price raises TypeError (`None <
      number`); otherwise the pair moves to (lowest price, `s`) exactly when that price is
      strictly below the running minimum. */
  function ScanPrices(p: Prices, s: Station, lowest: Price, cheapest: Option<Station>): (r: Outcome<(Price, Option<Station>)>)
    ensures r.Success? <==> forall j :: 0 <= j < |p| ==> p[j].1.Some?
    ensures r.Failure? ==> r.error == TypeError
    ensures r.Success? ==> r.value == (if LowestPrice(p).Some? && LowestPrice(p).value < lowest
                                       then (LowestPrice(p).value, Some(s)) else (lowest, cheapest))
    decreases |p|
  {
    if |p| == 0 then Success((lowest, cheapest))
    else
      assert forall j :: 1 <= j < |p| ==> p[j] == p[1..][j - 1];
      match p[0].1
      case None => Failure(TypeError)
      case Some(value) =>
        if value < lowest then ScanPrices(p[1..], s, value, Some(s))
        else ScanPrices(p[1..], s, lowest, cheapest)
  }

  /** The outer loop of `sortByCheapest` over the remaining entries `d`. */
  function CheapestFrom(d: Store, lowest: Price, cheapest: Option<Station>): (r: Outcome<Option<Station>>)
    ensures r.Success? <==> AllPriced(d)
    ensures r.Failure? ==> r.error == TypeError
    decreases |d|
  {
    if |d| == 0 then Success(cheapest)
    else
      assert forall i :: 1 <= i < |d| ==> d[i] == d[1..][i - 1];
      var next :- ScanPrices(d[0].1.prices, d[0].1, lowest, cheapest);
      CheapestFrom(d[1..], next.0, next.1)
  }

  /** `sortByCheapest(dictionary)`: None stands for the `{}` it returns when no price
      is below the seed. */
  function SortByCheapest(d: Store): (r: Outcome<Option<Station>>)
    ensures r.Success? <==> AllPriced(d)
    ensures r.Failure? ==> r.error == TypeError
    ensures r.Success? && r.value.Some? ==>
              exists i :: 0 <= i < |d| && d[i].1 == r.value.value && Low(d[i]).Some? && Low(d[i]).value < CheapestSeed
  {
    if AllPriced(d) then
      CheapestFromSelects(d, CheapestSeed, None);
      CheapestFrom(d, CheapestSeed, None)
    else CheapestFrom(d, CheapestSeed, None)
  }

  /** Entry `i` holds the lowest price of all, and is the first to hold it. */
  predicate FirstLowest(d: Store, i: int) {
    && 0 <= i < |d| && Low(d[i]).Some?
    && (forall j :: 0 <= j < |d| && Low(d[j]).Some? ==> Low(d[i]).value <= Low(d[j]).value)
    && (forall j :: 0 <= j < i && Low(d[j]).Some? ==> Low(d[i]).value < Low(d[j]).value)
  }

  predicate AllAtLeast(d: Store, bound: Price) {
    forall j :: 0 <= j < |d| && Low(d[j]).Some? ==> Low(d[j]).value >= bound
  }

  lemma AllAtLeastCons(d: Store, bound: Price)
    requires |d| > 0
    ensures AllAtLeast(d, bound) <==> (Low(d[0]).None? || Low(d[0]).value >= bound) && AllAtLeast(d[1..], bound)
  {
    assert forall j :: 1 <= j < |d| ==> d[j] == d[1..][j - 1];
  }

  lemma AllPricedTail(d: Store)
    requires |d| > 0 && AllPriced(d)
    ensures AllPriced(d[1..])
    ensures forall j :: 0 <= j < |d[0].1.prices| ==> d[0].1.prices[j].1.Some?
  {
    assert forall i :: 1 <= i < |d| ==> d[i] == d[1..][i - 1];
  }

  /** The head wins when nothing after it is cheaper. */
  lemma FirstLowestHead(d: Store)
    requires |d| > 0 && Low(d[0]).Some? && AllAtLeast(d[1..], Low(d[0]).value)
    ensures FirstLowest(d, 0)
  {
    AllAtLeastCons(d, Low(d[0]).value);
  }

  /** A winner of the tail strictly cheaper than the head wins the whole. */
  lemma FirstLowestCons(d: Store, i: nat)
    requires |d| > 0 && FirstLowest(d[1..], i)
    requires Low(d[0]).None? || Low(d[1..][i]).value < Low(d[0]).value
    ensures FirstLowest(d, i + 1)
  {
    assert forall j :: 1 <= j < |d| ==> d[j] == d[1..][j - 1];
  }

  /** What the outer loop computes from a running pair: the pair's station when no price
      is below `lowest`, and otherwise the first station holding the lowest price. */
  lemma {:induction false} CheapestFromSelects(d: Store, lowest: Price, cheapest: Option<Station>)
    requires AllPriced(d)
    ensures AllAtLeast(d, lowest) ==> CheapestFrom(d, lowest, cheapest) == Success(cheapest)
    ensures !AllAtLeast(d, lowest) ==>
              exists i :: FirstLowest(d, i) && Low(d[i]).value < lowest
                          && CheapestFrom(d, lowest, cheapest) == Success(Some(d[i].1))
    decreases |d|
  {
    if |d| > 0 {
      var rest := d[1..];
      AllPricedTail(d);
      AllAtLeastCons(d, lowest);
      var next := ScanPrices(d[0].1.prices, d[0].1, lowest, cheapest).value;
      assert CheapestFrom(d, lowest, cheapest) == CheapestFrom(rest, next.0, next.1);
      CheapestFromSelects(rest, next.0, next.1);
      var m := Low(d[0]);
      if m.Some? && m.value < lowest {
        if AllAtLeast(rest, m.value) {
          FirstLowestHead(d);
        } else {
          var i :| FirstLowest(rest, i) && Low(rest[i]).value < m.value
                   && CheapestFrom(rest, next.0, next.1) == Success(Some(rest[i].1));
          FirstLowestCons(d, i);
          assert d[i + 1] == rest[i];
        }
      } else {
        if !AllAtLeast(rest, lowest) {
          var i :| FirstLowest(rest, i) && Low(rest[i]).value < lowest
                   && CheapestFrom(rest, next.0, next.1) == Success(Some(rest[i].1));
          FirstLowestCons(d, i);
          assert d[i + 1] == rest[i];
        }
      }
    }
  }

  /** `sortByCheapest` raises TypeError exactly when some price is null. Otherwise it
      returns `{}` when no price is below the 100-dollar seed, and else the first
      station holding the lowest price. */
  lemma SortByCheapestSelects(d: Store)
    ensures SortByCheapest(d).Success? <==> AllPriced(d)
    ensures SortByCheapest(d).Failure? ==> SortByCheapest(d).error == TypeError
    ensures AllPriced(d) && AllAtLeast(d, CheapestSeed) ==> SortByCheapest(d) == Success(None)
    ensures AllPriced(d) && !AllAtLeast(d, CheapestSeed) ==>
              exists i :: FirstLowest(d, i) && Low(d[i]).value < CheapestSeed
                          && SortByCheapest(d) == Success(Some(d[i].1))
  {
    if AllPriced(d) {
      CheapestFromSelects(d, CheapestSeed, None);
    }
  }

  /** The response body: the keyed dictionary, one station record, or `null`. */
  datatype Response = Dict(entries: Store) | Record(station: Station) | Null

  /** Lines 20-21: the brand stage runs unless the brand is exactly "default"; its
      test compares lower-cased spellings. */
  function BrandTarget(p: Params): Option<string> {
    if p.brand != Default then Some(Text.Lower(p.brand)) else None
  }

  /** Lines 22-29: the sort stage and `jsonify`. */
  function SortStage(d: Store, sortingType: string): (r: Outcome<Response>)
    ensures r.Failure? ==> sortingType == "cheapest" && r.error == TypeError
    ensures r.Success? && r.value.Record? ==> exists i :: 0 <= i < |d| && d[i].1 == r.value.station
    ensures r.Success? && r.value.Dict? ==> r.value.entries == d || r.value.entries == []
    ensures r.Success? && r.value.Null? ==> sortingType == "shortest"
  {
    if sortingType != Default then
      match sortingType
      case "shortest" =>
        (match SortByShortest(d)
         case None => Success(Null)
         case Some(sorted) => Success(Dict(sorted)))
      case "cheapest" =>
        var cheapest :- SortByCheapest(d);
        Success(if cheapest.Some? then Record(cheapest.value) else Dict([]))
      case _ => Success(Dict(d))
    else Success(Dict(d))
  }

  /** Lines 18-29 of `requestForData`, on the loaded dictionary `d`. */
  function Respond(p: Params, d: Store): (r: Outcome<Response>)
    ensures r.Failure? ==> r.error.KeyError? || r.error == TypeError
    ensures r.Success? && r.value.Dict? ==> |r.value.entries| <= |d|
  {
    var graded :- GradeStage(d, p.grade);
    SortStage(BrandStage(graded, BrandTarget(p)), p.sortingType)
  }

  /** `requestForData()`, with the request's query string and the loaded file as inputs. */
  function RequestForData(args: Args, d: Store): (r: Outcome<Response>)
    ensures r.Failure? ==> r.error.KeyError? || r.error == TypeError
    ensures "grade" !in KeysOf(args) && "brand" !in KeysOf(args) && "sortingType" !in KeysOf(args)
            ==> r == Success(Dict(d))
  {
    Respond(ReadParams(args), d)
  }

  /** The brand stage is `sortByBrand`. */
  lemma BrandStageIsSortByBrand(d: Store, p: Params)
    requires p.brand != Default
    ensures BrandStage(d, BrandTarget(p)) == SortByBrand(d, p.brand)
  {
  }

  /** With a sort type other than the two implemented ones, the response is the keyed
      dictionary of the stations passing the grade AND brand tests, in input order,
      each reshaped by the grade stage; it fails, with a KeyError, only when the grade
      stage raises. */
  lemma RespondIsConjunctiveFilter(p: Params, d: Store)
    requires p.sortingType != "shortest" && p.sortingType != "cheapest"
    ensures Respond(p, d).Success? <==> p.grade == Default || GradeFilter.AllReady(d, p.grade)
    ensures Respond(p, d).Failure? ==> Respond(p, d).error.KeyError?
    ensures Respond(p, d).Success? ==>
              Respond(p, d).value == Dict(Seqs.Map(Seqs.Filter(d, Wanted(p.grade, BrandTarget(p))), Shape(p.grade)))
  {
    GradeStageFilters(d, p.grade);
    if GradeStage(d, p.grade).Success? {
      StagesAreConjunctiveFilter(d, p.grade, BrandTarget(p));
    }
  }

  /** "cheapest" answers with one station record: over the stations left by the grade
      and brand stages, TypeError exactly when some price is null, `{}` when no price is
      below the seed, and otherwise the first station holding the lowest price. */
  lemma RespondCheapest(p: Params, d: Store)
    requires p.sortingType == "cheapest" && GradeStage(d, p.grade).Success?
    ensures var out := BrandStage(GradeStage(d, p.grade).value, BrandTarget(p));
            && (Respond(p, d).Failure? <==> !AllPriced(out))
            && (Respond(p, d).Failure? ==> Respond(p, d).error == TypeError)
            && (AllPriced(out) && AllAtLeast(out, CheapestSeed) ==> Respond(p, d) == Success(Dict([])))
            && (AllPriced(out) && !AllAtLeast(out, CheapestSeed) ==>
                  exists i :: FirstLowest(out, i) && Low(out[i]).value < CheapestSeed
                              && Respond(p, d) == Success(Record(out[i].1)))
  {
    SortByCheapestSelects(BrandStage(GradeStage(d, p.grade).value, BrandTarget(p)));
  }

  /** "shortest" answers `null` once the grade stage has passed. */
  lemma ShortestAnswersNull(p: Params, d: Store)
    requires p.sortingType == "shortest" && GradeStage(d, p.grade).Success?
    ensures Respond(p, d) == Success(Null)
  {
  }

  /** The grade is used verbatim: against well-formed stations, a grade holding an
      upper-case letter (say "Regular") is a key no station has, so a non-empty store
      makes the request raise KeyError. */
  lemma GradeIsCaseSensitive(p: Params, d: Store)
    requires p.grade != Default && !Text.IsLower(p.grade)
    requires |d| > 0 && WellFormedPrices(d[0].1.prices)
    ensures Respond(p, d).Failure? && Respond(p, d).error.KeyError?
  {
    assert p.grade !in GradeNames;
    GradeFilter.MissingGradeFails(d, p.grade, 0);
  }

  /** So unlike the Backend, the same grade in another case is a different request:
      "Regular" fails where "regular" filters. */
  lemma RequestGradeIsCaseSensitive(grade: string, brand: string, sortingType: string, d: Store)
    requires grade != Default && !Text.IsLower(grade)
    requires |d| > 0 && WellFormedPrices(d[0].1.prices)
    ensures RequestForData(NamedQuery(grade, brand, sortingType), d).Failure?
    ensures RequestForData(NamedQuery(grade, brand, sortingType), d).error.KeyError?
  {
    ReadParamsVerbatim(grade, brand, sortingType);
    GradeIsCaseSensitive(Params(grade, brand, sortingType), d);
  }

  /** A kept well-formed station prices only its grade, non-null, so its lowest price
      is that grade's price. */
  lemma ReducedStationPriced(s: Station, grade: string)
    requires grade in GradeNames && WellFormedPrices(s.prices) && GradeFilter.Priced(s, grade)
    ensures forall j :: 0 <= j < |GradeFilter.Reduced(s, grade).prices| ==> GradeFilter.Reduced(s, grade).prices[j].1.Some?
    ensures Lookup(GradeFilter.Reduced(s, grade).prices, grade).Some?
    ensures LowestPrice(GradeFilter.Reduced(s, grade).prices) == Lookup(GradeFilter.Reduced(s, grade).prices, grade).value
  {
    var p := GradeFilter.Reduced(s, grade).prices;
    var v := Lookup(s.prices, grade).value;
    forall j | 0 <= j < |p| ensures p[j] == (grade, v) {
      GradeFilter.ReducedPricesAreGradePrice(s, grade, j);
    }
    GradeFilter.ReducedSingleKey(s, grade);
    assert grade in KeysOf(p);
  }

  /** After a grade filter over well-formed stations, every price left is the chosen
      grade's, and none is null: `sortByCheapest` cannot raise, and it ranks the
      stations by that grade's price alone. */
  lemma CheapestAfterGradeFilter(d: Store, grade: string, target: Option<string>)
    requires grade in GradeNames
    requires forall e :: e in d ==> WellFormedPrices(e.1.prices)
    requires GradeStage(d, grade).Success?
    ensures AllPriced(BrandStage(GradeStage(d, grade).value, target))
    ensures SortByCheapest(BrandStage(GradeStage(d, grade).value, target)).Success?
    ensures forall i :: 0 <= i < |BrandStage(GradeStage(d, grade).value, target)| ==>
              var e := BrandStage(GradeStage(d, grade).value, target)[i];
              Lookup(e.1.prices, grade).Some? && Low(e) == Lookup(e.1.prices, grade).value
  {
    var out := BrandStage(GradeStage(d, grade).value, target);
    var kept := Seqs.Filter(d, Wanted(grade, target));
    StagesAreConjunctiveFilter(d, grade, target);
    assert out == Seqs.Map(kept, GradeFilter.ReducedEntry(grade));
    forall i | 0 <= i < |out|
      ensures forall j :: 0 <= j < |out[i].1.prices| ==> out[i].1.prices[j].1.Some?
      ensures Lookup(out[i].1.prices, grade).Some? && Low(out[i]) == Lookup(out[i].1.prices, grade).value
    {
      Seqs.FilterMembership(d, Wanted(grade, target), kept[i]);
      assert out[i].1 == GradeFilter.Reduced(kept[i].1, grade);
      ReducedStationPriced(kept[i].1, grade);
    }
    SortByCheapestSelects(out);
  }
}
