/** The two filtering stages of `requestForData` shared by both Flask services
    (Backend/app.py and app.py, lines 18-21): the grade stage runs first and the brand
    stage second, each skipped when its parameter is "default". */
module Stages {
  import opened Wrappers
  import opened Stations
  import Text
  import Seqs
  import GradeFilter

  /** The parameter value that switches a stage off (also the value of an absent one). */
  const Default: string := "default"

  /** The brand comparison of `sortByBrand`: the station's brand, lower-cased, equals
      `target`. */
  function BrandIs(target: string): ((string, Station)) -> bool {
    (e: (string, Station)) => Text.Lower(e.1.brandName) == target
  }

  /** Lines 18-19: `sortByGrade` unless the grade is "default". */
  function GradeStage(d: Store, grade: string): (r: Outcome<Store>)
    ensures grade == Default ==> r == Success(d)
    ensures r.Success? <==> grade == Default || GradeFilter.AllReady(d, grade)
    ensures r.Failure? ==> r.error.KeyError?
    ensures r.Success? ==> |r.value| <= |d|
  {
    if grade != Default then GradeFilter.SortByGrade(d, grade) else Success(d)
  }

  /** Lines 20-21: the brand stage; `target` is None when the stage is skipped. It
      keeps entries unaltered and in order, each with the target brand. */
  function BrandStage(d: Store, target: Option<string>): (r: Store)
    ensures target.None? ==> r == d
    ensures |r| <= |d|
    ensures Seqs.IsSubseq(r, d)
    ensures forall i :: 0 <= i < |r| ==> BrandWanted(target, r[i])
  {
    match target
    case None =>
      Seqs.FilterKeepsAll(d, (e: (string, Station)) => true);
      Seqs.FilterIsSubseq(d, (e: (string, Station)) => true);
      d
    case Some(t) =>
      Seqs.FilterIsSubseq(d, BrandIs(t));
      Seqs.Filter(d, BrandIs(t))
  }

  /** Whether an entry passes the grade stage, read as a filter. */
  predicate GradeWanted(grade: string, e: (string, Station)) {
    grade == Default || GradeFilter.Priced(e.1, grade)
  }

  /** Whether an entry passes the brand stage. */
  predicate BrandWanted(target: Option<string>, e: (string, Station)) {
    target.None? || Text.Lower(e.1.brandName) == target.value
  }

  function GradeKeep(grade: string): ((string, Station)) -> bool {
    (e: (string, Station)) => GradeWanted(grade, e)
  }

  function BrandKeep(target: Option<string>): ((string, Station)) -> bool {
    (e: (string, Station)) => BrandWanted(target, e)
  }

  /** Both stages' tests at once. */
  function Wanted(grade: string, target: Option<string>): ((string, Station)) -> bool {
    (e: (string, Station)) => GradeWanted(grade, e) && BrandWanted(target, e)
  }

  /** What the grade stage does to an entry it keeps. */
  function Shape(grade: string): ((string, Station)) -> (string, Station) {
    if grade == Default then (e: (string, Station)) => e else GradeFilter.ReducedEntry(grade)
  }

  /** The grade stage succeeds exactly when it is off or every station is ready for
      the grade, and is then a stable filter followed by a reshaping of each entry. */
  lemma GradeStageFilters(d: Store, grade: string)
    ensures GradeStage(d, grade).Success? <==> grade == Default || GradeFilter.AllReady(d, grade)
    ensures GradeStage(d, grade).Failure? ==> GradeStage(d, grade).error.KeyError?
    ensures GradeStage(d, grade).Success? ==>
              GradeStage(d, grade).value == Seqs.Map(Seqs.Filter(d, GradeKeep(grade)), Shape(grade))
  {
    if grade == Default {
      Seqs.FilterKeepsAll(d, GradeKeep(grade));
      Seqs.MapIdentity(d);
    } else {
      Seqs.FilterAgree(d, GradeKeep(grade), GradeFilter.PricedEntry(grade));
    }
  }

  lemma BrandStageFilters(d: Store, target: Option<string>)
    ensures BrandStage(d, target) == Seqs.Filter(d, BrandKeep(target))
  {
    if target.None? {
      Seqs.FilterKeepsAll(d, BrandKeep(target));
    } else {
      Seqs.FilterAgree(d, BrandKeep(target), BrandIs(target.value));
    }
  }

  /** Grade stage then brand stage is one stable filter by grade AND brand over the
      input, each kept entry reshaped by the grade stage. The order of the stages does
      not matter to which stations survive, because the reshaping keeps the brand. */
  lemma StagesAreConjunctiveFilter(d: Store, grade: string, target: Option<string>)
    requires GradeStage(d, grade).Success?
    ensures BrandStage(GradeStage(d, grade).value, target)
         == Seqs.Map(Seqs.Filter(d, Wanted(grade, target)), Shape(grade))
  {
    GradeStageFilters(d, grade);
    BrandStageFilters(GradeStage(d, grade).value, target);
    forall i | 0 <= i < |d|
      ensures Wanted(grade, target)(d[i])
           == (GradeKeep(grade)(d[i]) && BrandKeep(target)(Shape(grade)(d[i])))
    {
      assert Shape(grade)(d[i]).1.brandName == d[i].1.brandName;
    }
    Seqs.FilterMapFilter(d, GradeKeep(grade), Shape(grade), BrandKeep(target), Wanted(grade, target));
  }
}
