/** What the Backend service makes of the query Frontend/src/pages/Dashboard.jsx
    builds, read as one pipeline. */
module CrossFile {
  import opened Wrappers
  import opened Stations
  import opened Stages
  import opened Js
  import Text
  import Seqs
  import GradeFilter
  import BackendApp
  import GradeQuery

  /** Every grade the page can send is one the Backend's grade stage knows, or the
      value that switches that stage off; each is already lower-case. */
  lemma DashboardGradesAreKnown(selectedFuel: Option<string>)
    ensures GradeQuery.Grade(selectedFuel) == Default || GradeQuery.Grade(selectedFuel) in GradeNames
    ensures Text.Lower(GradeQuery.Grade(selectedFuel)) == GradeQuery.Grade(selectedFuel)
  {
    var g := GradeQuery.Grade(selectedFuel);
    assert Text.IsLower(g);
    Text.LowerIsLower(g);
  }

  /** The brand target the Backend derives from the page's brand selection. */
  function DashboardTarget(selectedBrand: Option<string>): Option<string> {
    var brand := Text.Lower(OrElse(selectedBrand, "Default"));
    if brand != Default then Some(brand) else None
  }

  /** The Backend reads the page's grade as sent, the brand lower-cased, and no sort
      type at all: the page names that parameter `sort`, the Backend reads
      `sortingType`. No selected brand switches the brand stage off. */
  lemma ReadDashboardQuery(selectedFuel: Option<string>, selectedBrand: Option<string>, sortMode: Option<string>)
    ensures BackendApp.ReadParams(GradeQuery.QueryParams(selectedFuel, selectedBrand, sortMode))
         == BackendApp.Params(GradeQuery.Grade(selectedFuel), Text.Lower(OrElse(selectedBrand, "Default")), Default)
    ensures BackendApp.BrandTarget(BackendApp.ReadParams(GradeQuery.QueryParams(selectedFuel, selectedBrand, sortMode)))
         == DashboardTarget(selectedBrand)
    ensures !Truthy(selectedBrand) ==> DashboardTarget(selectedBrand) == None
  {
    var q := GradeQuery.QueryParams(selectedFuel, selectedBrand, sortMode);
    assert q[1..][1..] == [q[2]];
    assert Lookup(q, "grade") == Some(q[0].1);
    assert Lookup(q, "brand") == Lookup(q[1..], "brand") == Some(q[1].1);
    assert Lookup(q, "sortingType") == Lookup(q[1..][1..], "sortingType") == None;
    DashboardGradesAreKnown(selectedFuel);
    assert Text.Lower("Default") == Default;
    Text.LowerIsLower(Default);
  }

  /** End to end: whatever sort mode the page shows, the Backend answers with the
      stations of the selected grade (all of them with no fuel selected) whose brand
      matches the selected brand up to case (all of them with no brand selected), in
      file order, reshaped by the grade stage; it fails, with a KeyError, only when a
      station lacks the grade's keys. */
  lemma DashboardRequestIsFilter(selectedFuel: Option<string>, selectedBrand: Option<string>, sortMode: Option<string>, d: Store)
    ensures var r := BackendApp.RequestForData(GradeQuery.QueryParams(selectedFuel, selectedBrand, sortMode), d);
            var g := GradeQuery.Grade(selectedFuel);
            && (r.Success? <==> g == Default || GradeFilter.AllReady(d, g))
            && (r.Failure? ==> r.error.KeyError?)
            && (r.Success? ==> r.value == ValuesOf(Seqs.Map(Seqs.Filter(d, Wanted(g, DashboardTarget(selectedBrand))), Shape(g))))
  {
    ReadDashboardQuery(selectedFuel, selectedBrand, sortMode);
    var p := BackendApp.ReadParams(GradeQuery.QueryParams(selectedFuel, selectedBrand, sortMode));
    BackendApp.RespondIsConjunctiveFilter(p, d);
  }

  /** The sort toggles have no effect on the answer. */
  lemma DashboardSortIsIgnored(selectedFuel: Option<string>, selectedBrand: Option<string>, sort1: Option<string>, sort2: Option<string>, d: Store)
    ensures BackendApp.RequestForData(GradeQuery.QueryParams(selectedFuel, selectedBrand, sort1), d)
         == BackendApp.RequestForData(GradeQuery.QueryParams(selectedFuel, selectedBrand, sort2), d)
  {
    ReadDashboardQuery(selectedFuel, selectedBrand, sort1);
    ReadDashboardQuery(selectedFuel, selectedBrand, sort2);
  }

  /** With nothing selected the answer is every station, as loaded. */
  lemma NoSelectionReturnsEverything(sortMode: Option<string>, d: Store)
    ensures BackendApp.RequestForData(GradeQuery.QueryParams(None, None, sortMode), d) == Success(ValuesOf(d))
  {
    ReadDashboardQuery(None, None, sortMode);
  }
}
