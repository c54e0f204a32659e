/** The Flask service in Backend/app.py: its query parameters are lower-cased, the
    stages run grade, then brand, then sort, and the response is the list of the
    remaining station records. */
module BackendApp {
  import opened Wrappers
  import opened Stations
  import opened Requests
  import opened Stages
  import Text
  import Seqs
  import GradeFilter

  /** The three request parameters, after `request.args.get(..., "default").lower()`. */
  datatype Params = Params(grade: string, brand: string, sortingType: string)

  function ReadParams(args: Args): (r: Params)
    ensures Text.IsLower(r.grade) && Text.IsLower(r.brand) && Text.IsLower(r.sortingType)
    ensures "grade" !in KeysOf(args) ==> r.grade == Default
    ensures "brand" !in KeysOf(args) ==> r.brand == Default
    ensures "sortingType" !in KeysOf(args) ==> r.sortingType == Default
    ensures forall i :: FirstWith(args, "grade", i) ==> r.grade == Text.Lower(args[i].1)
    ensures forall i :: FirstWith(args, "brand", i) ==> r.brand == Text.Lower(args[i].1)
    ensures forall i :: FirstWith(args, "sortingType", i) ==> r.sortingType == Text.Lower(args[i].1)
  {
    Params(ReadArg(args, "grade"), ReadArg(args, "brand"), ReadArg(args, "sortingType"))
  }

  /** `request.args.get(name, "default").lower()` for one parameter. */
  function ReadArg(args: Args, name: string): (r: string)
    ensures Text.IsLower(r)
    ensures name !in KeysOf(args) ==> r == Default
    ensures forall i :: FirstWith(args, name, i) ==> r == Text.Lower(args[i].1)
  {
    var v := ArgOr(args, name, Default);
    Text.LowerIsLower(v);
    Text.LowerIsLower(Default);
    Text.Lower(v)
  }

  /** `sortByBrand(dictionary, brand)`: only the station's brand is lower-cased here;
      the argument arrives lower-cased from the request. */
  function SortByBrand(d: Store, brand: string): (r: Store)
    ensures Seqs.IsSubseq(r, d)
    ensures forall i :: 0 <= i < |r| ==> Text.Lower(r[i].1.brandName) == brand
  {
    Seqs.FilterIsSubseq(d, BrandIs(brand));
    Seqs.Filter(d, BrandIs(brand))
  }

  /** `sortByBrand` keeps exactly the entries whose lower-cased brand is `brand`,
      unaltered and in input order, and a second application changes nothing. */
  lemma SortByBrandSelects(d: Store, brand: string, e: (string, Station))
    ensures e in SortByBrand(d, brand) <==> e in d && Text.Lower(e.1.brandName) == brand
    ensures Seqs.IsSubseq(SortByBrand(d, brand), d)
    ensures SortByBrand(SortByBrand(d, brand), brand) == SortByBrand(d, brand)
  {
    Seqs.FilterMembership(d, BrandIs(brand), e);
    Seqs.FilterIsSubseq(d, BrandIs(brand));
    Seqs.FilterIdempotent(d, BrandIs(brand));
  }

  /** Called directly with an argument holding an upper-case letter, `sortByBrand`
      keeps nothing: no lower-cased brand can equal it. */
  lemma SortByBrandUpperCaseArgument(d: Store, brand: string)
    requires !Text.IsLower(brand)
    ensures SortByBrand(d, brand) == []
  {
    forall i | 0 <= i < |d| ensures !BrandIs(brand)(d[i]) {
      Text.LowerIsLower(d[i].1.brandName);
    }
    Seqs.FilterKeepsNone(d, BrandIs(brand));
  }

  /** `sortByShortest`: a stub whose body is `pass`, so it returns None. */
  function SortByShortest(d: Store): (r: Option<Store>)
    ensures r.None?
  {
    None
  }

  /** `sortByCheapest`: it finds the cheapest station (see `Cheapest`) but has no
      return statement, so it returns None. */
  function SortByCheapest(d: Store): (r: Option<Store>)
    ensures r.None?
  {
    None
  }

  /** The loop of `sortByCheapest`: the entry it stores in `cheapest`, and
      `lowestPrice` (None for infinity); the inner loop over one station's prices is
      `LowestPrice`. A station with only null prices never wins; the winner's price is
      the lowest of all, and because the test is a strict `<` every earlier station is
      strictly dearer, so ties go to the earliest station. */
  method Cheapest(d: Store) returns (cheapest: Option<(string, Station)>, lowest: Option<Price>, ghost at: nat)
    ensures cheapest.None? <==> lowest.None?
    ensures cheapest.None? <==> forall j :: 0 <= j < |d| ==> Low(d[j]).None?
    ensures cheapest.Some? ==> at < |d| && d[at] == cheapest.value && Low(d[at]) == lowest
    ensures cheapest.Some? ==> forall j :: 0 <= j < |d| && Low(d[j]).Some? ==> lowest.value <= Low(d[j]).value
    ensures cheapest.Some? ==> forall j :: 0 <= j < at && Low(d[j]).Some? ==> lowest.value < Low(d[j]).value
  {
    cheapest, lowest, at := None, None, 0;
    var i := 0;
    while i < |d|
      invariant 0 <= i <= |d|
      invariant cheapest.None? <==> lowest.None?
      invariant cheapest.None? ==> forall j :: 0 <= j < i ==> Low(d[j]).None?
      invariant cheapest.Some? ==> at < i && d[at] == cheapest.value && Low(d[at]) == lowest
      invariant cheapest.Some? ==> forall j :: 0 <= j < i && Low(d[j]).Some? ==> lowest.value <= Low(d[j]).value
      invariant cheapest.Some? ==> forall j :: 0 <= j < at && Low(d[j]).Some? ==> lowest.value < Low(d[j]).value
    {
      var minPrice := LowestPrice(d[i].1.prices);
      if minPrice.Some? && (lowest.None? || minPrice.value < lowest.value) {
        lowest := minPrice;
        cheapest := Some(d[i]);
        at := i;
      }
      i := i + 1;
    }
  }

  /** Lines 20-21: the brand stage runs unless the (lower-cased) brand is "default". */
  function BrandTarget(p: Params): Option<string> {
    if p.brand != Default then Some(p.brand) else None
  }

  /** The sort stage: None is Python's None, which both implemented cases return. */
  function SortStage(d: Store, sortingType: string): Option<Store> {
    if sortingType != Default then
      match sortingType
      case "shortest" => SortByShortest(d)
      case "cheapest" => SortByCheapest(d)
      case _ => Some(d)
    else Some(d)
  }

  /** Lines 18-29 of `requestForData`, on the loaded dictionary `d`. Building the
      response from None raises (`None.values()`). */
  function Respond(p: Params, d: Store): (r: Outcome<seq<Station>>)
    ensures r.Success? <==> GradeStage(d, p.grade).Success? && p.sortingType != "shortest" && p.sortingType != "cheapest"
    ensures r.Failure? ==> r.error.KeyError? || r.error == AttributeError
    ensures r.Success? ==> |r.value| <= |d|
  {
    var graded :- GradeStage(d, p.grade);
    var branded := BrandStage(graded, BrandTarget(p));
    match SortStage(branded, p.sortingType)
    case None => Failure(AttributeError)
    case Some(sorted) => Success(ValuesOf(sorted))
  }

  /** `requestForData()`, with the request's query string and the loaded file as inputs. */
  function RequestForData(args: Args, d: Store): (r: Outcome<seq<Station>>)
    ensures r.Failure? ==> r.error.KeyError? || r.error == AttributeError
    ensures "grade" !in KeysOf(args) && "brand" !in KeysOf(args) && "sortingType" !in KeysOf(args)
            ==> r == Success(ValuesOf(d))
  {
    Respond(ReadParams(args), d)
  }

  /** With a sort type other than the two implemented ones, the response lists, in
      input order, the stations passing the grade AND brand tests, each reshaped by the
      grade stage; it fails, with a KeyError, only when the grade stage raises. */
  lemma RespondIsConjunctiveFilter(p: Params, d: Store)
    requires p.sortingType != "shortest" && p.sortingType != "cheapest"
    ensures Respond(p, d).Success? <==> p.grade == Default || GradeFilter.AllReady(d, p.grade)
    ensures Respond(p, d).Failure? ==> Respond(p, d).error.KeyError?
    ensures Respond(p, d).Success? ==>
              Respond(p, d).value == ValuesOf(Seqs.Map(Seqs.Filter(d, Wanted(p.grade, BrandTarget(p))), Shape(p.grade)))
  {
    GradeStageFilters(d, p.grade);
    if GradeStage(d, p.grade).Success? {
      var branded := BrandStage(GradeStage(d, p.grade).value, BrandTarget(p));
      assert Respond(p, d) == Success(ValuesOf(branded));
      StagesAreConjunctiveFilter(d, p.grade, BrandTarget(p));
    }
  }

  /** Both sort types the service implements make the request fail: the stage returns
      None. A grade stage that raises first reports its KeyError instead. */
  lemma SortPathsFail(p: Params, d: Store)
    requires p.sortingType == "shortest" || p.sortingType == "cheapest"
    ensures Respond(p, d).Failure?
    ensures GradeStage(d, p.grade).Success? ==> Respond(p, d).error == AttributeError
  {
  }

  /** A sort type matching no case behaves as "default". */
  lemma UnknownSortPassesThrough(p: Params, d: Store)
    requires p.sortingType != "shortest" && p.sortingType != "cheapest"
    ensures Respond(p, d) == Respond(p.(sortingType := Default), d)
  {
  }

  lemma ReadQuery(grade: string, brand: string, sortingType: string)
    ensures ReadParams(NamedQuery(grade, brand, sortingType))
         == Params(Text.Lower(grade), Text.Lower(brand), Text.Lower(sortingType))
  {
    ReadNamedQuery(grade, brand, sortingType, Default);
  }

  /** Lower-casing makes the whole request case-insensitive: any spelling of the three
      parameters gives the response of its lower-case spelling. */
  lemma RequestIsCaseInsensitive(grade: string, brand: string, sortingType: string, d: Store)
    ensures RequestForData(NamedQuery(grade, brand, sortingType), d)
         == RequestForData(NamedQuery(Text.Lower(grade), Text.Lower(brand), Text.Lower(sortingType)), d)
  {
    ReadQuery(grade, brand, sortingType);
    ReadQuery(Text.Lower(grade), Text.Lower(brand), Text.Lower(sortingType));
    Text.LowerIsLower(grade);
    Text.LowerIsLower(brand);
    Text.LowerIsLower(sortingType);
  }

  /** With no parameters every stage is skipped and every station is returned as loaded. */
  lemma NoParametersReturnsEverything(d: Store)
    ensures RequestForData([], d) == Success(ValuesOf(d))
  {
    assert Text.Lower(Default) == Default;
  }
}
