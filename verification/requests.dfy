/** A request's query string as the Flask services read it. */
module Requests {
  import opened Wrappers
  import opened Stations

  /** Query parameters: name/value pairs in the order the URL gives them. */
  type Args = seq<(string, string)>

  /** `request.args.get(name, fallback)`: the first value given for `name`, or the
      fallback when the parameter is absent. */
  function ArgOr(args: Args, name: string, fallback: string): (r: string)
    ensures name !in KeysOf(args) ==> r == fallback
    ensures name in KeysOf(args) ==> (name, r) in args
    ensures name in KeysOf(args) ==>
              exists i :: 0 <= i < |args| && args[i] == (name, r) && forall j :: 0 <= j < i ==> args[j].0 != name
    ensures forall i :: FirstWith(args, name, i) ==> r == args[i].1
  {
    LookupAtFirst(args, name);
    match Lookup(args, name)
    case None => fallback
    case Some(v) =>
      LookupFirst(args, name);
      v
  }

  /** A query string giving the three parameters the services read, in this order. */
  function NamedQuery(grade: string, brand: string, sortingType: string): Args {
    [("grade", grade), ("brand", brand), ("sortingType", sortingType)]
  }

  /** Each parameter of such a query reads as the value given, whatever the fallback. */
  lemma ReadNamedQuery(grade: string, brand: string, sortingType: string, fallback: string)
    ensures ArgOr(NamedQuery(grade, brand, sortingType), "grade", fallback) == grade
    ensures ArgOr(NamedQuery(grade, brand, sortingType), "brand", fallback) == brand
    ensures ArgOr(NamedQuery(grade, brand, sortingType), "sortingType", fallback) == sortingType
  {
    var q := NamedQuery(grade, brand, sortingType);
    assert q[1..][1..] == [("sortingType", sortingType)];
    assert Lookup(q, "grade") == Some(grade);
    assert Lookup(q, "brand") == Lookup(q[1..], "brand") == Some(brand);
    assert Lookup(q, "sortingType") == Lookup(q[1..][1..], "sortingType") == Some(sortingType);
  }
}
