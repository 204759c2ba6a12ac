/** The tag page's sort control: the sort change that rewrites the query
    string through `URLSearchParams.set` (section 6.2 of the WHATWG URL
    Standard), the label of a sort key, and the displayed default. */
module TagSort {
  import opened Common

  type Pair = (string, string)

  /** The pairs whose name is not `name`, in order. */
  function Others(list: seq<Pair>, name: string): (r: seq<Pair>)
    ensures forall k :: 0 <= k < |r| ==> r[k].0 != name && r[k] in list
  {
    if list == [] then []
    else if list[0].0 != name then [list[0]] + Others(list[1..], name)
    else Others(list[1..], name)
  }

  lemma {:induction false} OthersAppend(a: seq<Pair>, b: seq<Pair>, name: string)
    ensures Others(a + b, name) == Others(a, name) + Others(b, name)
  {
    if a == [] {
      assert a + b == b;
    } else {
      assert (a + b)[1..] == a[1..] + b;
      OthersAppend(a[1..], b, name);
    }
  }

  lemma {:induction false} OthersNone(list: seq<Pair>, name: string)
    requires forall k :: 0 <= k < |list| ==> list[k].0 != name
    ensures Others(list, name) == list
  {
    if list != [] {
      OthersNone(list[1..], name);
    }
  }

  /** The position of the first pair named `name`, or -1. */
  function FirstNamed(list: seq<Pair>, name: string): (i: int)
    ensures -1 <= i < |list|
    ensures i == -1 <==> forall k :: 0 <= k < |list| ==> list[k].0 != name
    ensures i >= 0 ==> list[i].0 == name && forall k :: 0 <= k < i ==> list[k].0 != name
  {
    if list == [] then -1
    else if list[0].0 == name then 0
    else
      var j := FirstNamed(list[1..], name);
      if j == -1 then -1 else j + 1
  }

  /** `URLSearchParams.set`: the first pair with the name takes the value and
      the later ones are removed; without one the pair is appended. */
  function SetParam(list: seq<Pair>, name: string, value: string): (r: seq<Pair>)
  {
    var i := FirstNamed(list, name);
    if i == -1 then list + [(name, value)]
    else list[..i] + [(name, value)] + Others(list[i + 1..], name)
  }

  /** `URLSearchParams.get`: the value of the first pair with the name. */
  function GetParam(list: seq<Pair>, name: string): (r: Option<string>)
    ensures r.None? <==> forall k :: 0 <= k < |list| ==> list[k].0 != name
  {
    var i := FirstNamed(list, name);
    if i == -1 then None else Some(list[i].1)
  }

  lemma GetParamCons(x: Pair, list: seq<Pair>, name: string)
    ensures x.0 == name ==> GetParam([x] + list, name) == Some(x.1)
    ensures x.0 != name ==> GetParam([x] + list, name) == GetParam(list, name)
  {
    assert ([x] + list)[1..] == list;
  }

  /** Dropping the pairs of one name keeps the first value of another. */
  lemma {:induction false} OthersFirst(list: seq<Pair>, name: string, other: string)
    requires other != name
    ensures GetParam(Others(list, name), other) == GetParam(list, other)
  {
    if list != [] {
      OthersFirst(list[1..], name, other);
      assert list == [list[0]] + list[1..];
      GetParamCons(list[0], list[1..], other);
      if list[0].0 != name {
        GetParamCons(list[0], Others(list[1..], name), other);
      }
    }
  }

  /** The first named pair is the one no earlier pair shares the name with. */
  lemma {:induction false} FirstNamedAt(list: seq<Pair>, name: string, f: nat)
    requires f < |list| && list[f].0 == name
    requires forall k :: 0 <= k < f ==> list[k].0 != name
    ensures FirstNamed(list, name) == f
  {
    if f > 0 {
      FirstNamedAt(list[1..], name, f - 1);
    }
  }

  /** After `set`, the first pair with the name carries the value and no other
      pair has the name. */
  lemma SetParamNamed(list: seq<Pair>, name: string, value: string)
    ensures GetParam(SetParam(list, name, value), name) == Some(value)
    ensures forall k :: 0 <= k < |SetParam(list, name, value)| && SetParam(list, name, value)[k].0 == name ==>
              SetParam(list, name, value)[k] == (name, value)
  {
    var i := FirstNamed(list, name);
    var r := SetParam(list, name, value);
    if i == -1 {
      assert forall k :: 0 <= k < |list| ==> r[k] == list[k];
      FirstNamedAt(r, name, |list|);
    } else {
      ReplaceNamed(list, name, value, i);
    }
  }

  lemma ReplaceNamed(list: seq<Pair>, name: string, value: string, i: nat)
    requires i == FirstNamed(list, name)
    ensures var r := list[..i] + [(name, value)] + Others(list[i + 1..], name);
      && FirstNamed(r, name) == i && r[i] == (name, value)
      && forall k :: 0 <= k < |r| && r[k].0 == name ==> r[k] == (name, value)
  {
    var rest := Others(list[i + 1..], name);
    var r := list[..i] + [(name, value)] + rest;
    assert forall k :: 0 <= k < i ==> r[k] == list[k];
    FirstNamedAt(r, name, i);
    forall k | i < k < |r| ensures r[k].0 != name {
      assert r[k] == rest[k - i - 1];
    }
  }

  /** After `set`, the pairs of all other names are those before, in the same order. */
  lemma SetParamOthers(list: seq<Pair>, name: string, value: string)
    ensures Others(SetParam(list, name, value), name) == Others(list, name)
  {
    var i := FirstNamed(list, name);
    if i == -1 {
      OthersAppend(list, [(name, value)], name);
    } else {
      var pre := list[..i];
      var post := list[i + 1..];
      var rest := Others(post, name);
      assert list == pre + ([list[i]] + post);
      assert SetParam(list, name, value) == pre + ([(name, value)] + rest);
      OthersAppend(pre, [(name, value)] + rest, name);
      OthersAppend([(name, value)], rest, name);
      OthersOthers(post, name);
      OthersAppend(pre, [list[i]] + post, name);
      OthersAppend([list[i]], post, name);
    }
  }

  lemma {:induction false} OthersOthers(list: seq<Pair>, name: string)
    ensures Others(Others(list, name), name) == Others(list, name)
  {
    if list != [] {
      OthersOthers(list[1..], name);
    }
  }

  lemma {:induction false} OthersSwap(list: seq<Pair>, a: string, b: string)
    ensures Others(Others(list, a), b) == Others(Others(list, b), a)
  {
    if list != [] {
      OthersSwap(list[1..], a, b);
    }
  }

  /** `handleSortChange`: the current query with `sort` set to the value and
      `page` reset to `"1"`, each the only pair of its name, and every other
      pair carried over in order. The params object is a fresh copy that the
      two `set` calls update in turn. */
  method HandleSortChange(current: seq<Pair>, value: string) returns (query: seq<Pair>)
    ensures query == SetParam(SetParam(current, "sort", value), "page", "1")
    ensures GetParam(query, "sort") == Some(value) && GetParam(query, "page") == Some("1")
    ensures forall k :: 0 <= k < |query| && query[k].0 == "page" ==> query[k].1 == "1"
    ensures Others(Others(query, "sort"), "page") == Others(Others(current, "sort"), "page")
  {
    var params := current;
    params := SetParam(params, "sort", value);
    SetParamNamed(current, "sort", value);
    SetParamOthers(current, "sort", value);
    var afterSort := params;
    params := SetParam(params, "page", "1");
    SetParamNamed(afterSort, "page", "1");
    SetParamOthers(afterSort, "page", "1");
    query := params;
    OthersFirst(query, "page", "sort");
    OthersFirst(afterSort, "page", "sort");
    OthersSwap(query, "sort", "page");
    OthersSwap(afterSort, "sort", "page");
  }

  /** `getSortLabel`. */
  function SortLabel(sortType: string): (text: string)
    ensures sortType == "popular" ==> text == "Most Popular"
    ensures sortType == "alphabetical" ==> text == "Alphabetical"
    ensures sortType != "popular" && sortType != "alphabetical" ==> text == "Most Recent"
  {
    if sortType == "recent" then "Most Recent"
    else if sortType == "popular" then "Most Popular"
    else if sortType == "alphabetical" then "Alphabetical"
    else "Most Recent"
  }

  /** The select's value: `sort || "recent"`. */
  function SelectedSort(sort: string): (v: string)
    ensures sort == "" ==> v == "recent"
    ensures sort != "" ==> v == sort
  {
    if sort == "" then "recent" else sort
  }
}
