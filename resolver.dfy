/**
 * The address resolver: the county normalisation of `start_requests`, and the
 * route search of `_get_google_map_address` over the rows the location
 * autocomplete endpoint returns.
 */
module Resolver {
  import opened Wrappers
  import opened Strings

  const CountyWord: string := "County"

  /** `start_requests`: " County" is appended unless "County" already occurs anywhere in the name. */
  function NormaliseCounty(county: string): (r: string)
    ensures r == county <==> Contains(county, CountyWord)
    ensures r == county + " County" <==> !Contains(county, CountyWord)
    ensures Contains(r, CountyWord)
  {
    if Contains(county, CountyWord) then county
    else
      var r := county + " County";
      assert r[|county| + 1..|county| + 7] == CountyWord;
      assert OccursAt(r, CountyWord, |county| + 1);
      ContainsAt(r, CountyWord, |county| + 1);
      r
  }

  /** Normalising a normalised name changes nothing. */
  lemma NormaliseIdempotent(county: string)
    ensures NormaliseCounty(NormaliseCounty(county)) == NormaliseCounty(county)
  {
  }

  /** The test is for a substring, not a suffix: a name that starts with "County" is left alone. */
  lemma NormaliseSubstringNotSuffix(rest: string)
    ensures NormaliseCounty(CountyWord + rest) == CountyWord + rest
  {
    assert StartsWith(CountyWord + rest, CountyWord);
  }

  /** One row of the autocomplete payload's first section. */
  datatype Row = Row(name: string, url: string)

  /** Python's truthiness of a string. */
  predicate Truthy(s: string)
  {
    s != []
  }

  /**
   * The test of `_get_google_map_address`, for the stripped county: the
   * non-empty literal `"/" + state` on its own, the url containing "/" and the
   * county with its spaces made hyphens, and the name equal to the county.
   */
  predicate RowMatches(row: Row, county: string, state: string)
    ensures RowMatches(row, county, state) ==> |county| < |row.url|
  {
    Truthy("/" + state) && Contains(row.url, "/" + Replace(county, " ", "-")) && row.name == county
  }

  /** The state never takes part in the test: its conjunct is a non-empty literal. */
  lemma RowMatchesIgnoresState(row: Row, county: string, state: string)
    ensures RowMatches(row, county, state) <==>
      row.name == county && Contains(row.url, "/" + Replace(county, " ", "-"))
  {
  }

  /** The url of the first matching row, or `None` when no row matches. */
  function SelectRoute(rows: seq<Row>, county: string, state: string): (route: Option<string>)
    ensures route.Some? ==> exists row :: row in rows && RowMatches(row, county, state) && route.value == row.url
  {
    if rows == [] then None
    else if RowMatches(rows[0], county, state) then Some(rows[0].url)
    else
      var route := SelectRoute(rows[1..], county, state);
      assert forall row :: row in rows[1..] ==> row in rows;
      route
  }

  /** Row `i` matches and none before it does. */
  ghost predicate IsFirstMatch(rows: seq<Row>, county: string, state: string, i: int)
  {
    && 0 <= i < |rows|
    && RowMatches(rows[i], county, state)
    && forall j :: 0 <= j < i ==> !RowMatches(rows[j], county, state)
  }

  /** `SelectRoute` is a first-match search. */
  lemma {:induction false} SelectRouteFirstMatch(rows: seq<Row>, county: string, state: string)
    ensures SelectRoute(rows, county, state).None? <==>
      forall i :: 0 <= i < |rows| ==> !RowMatches(rows[i], county, state)
    ensures SelectRoute(rows, county, state).Some? ==>
      exists i :: IsFirstMatch(rows, county, state, i) && SelectRoute(rows, county, state).value == rows[i].url
  {
    if rows != [] && !RowMatches(rows[0], county, state) {
      var tail := rows[1..];
      SelectRouteFirstMatch(tail, county, state);
      assert forall i :: 1 <= i < |rows| ==> rows[i] == tail[i - 1];
      if SelectRoute(tail, county, state).Some? {
        var i :| IsFirstMatch(tail, county, state, i) && SelectRoute(tail, county, state).value == tail[i].url;
        assert IsFirstMatch(rows, county, state, i + 1);
      }
    } else if rows != [] {
      assert IsFirstMatch(rows, county, state, 0);
    }
  }

  /** The route chosen for a county is the same whatever its state. */
  lemma {:induction false} SelectRouteIgnoresState(rows: seq<Row>, county: string, state: string, other: string)
    ensures SelectRoute(rows, county, state) == SelectRoute(rows, county, other)
  {
    if rows != [] {
      RowMatchesIgnoresState(rows[0], county, state);
      RowMatchesIgnoresState(rows[0], county, other);
      SelectRouteIgnoresState(rows[1..], county, state, other);
    }
  }

  /** A row for the right county under another state's path is accepted: the state is not checked. */
  lemma StateNotChecked(row: Row, county: string, state: string)
    requires row.name == county && Contains(row.url, "/" + Replace(county, " ", "-"))
    requires !Contains(row.url, "/" + state)
    ensures SelectRoute([row], county, state) == Some(row.url)
  {
  }

  /**
   * `_get_google_map_address` after the autocomplete call: strips the county,
   * then scans the rows in order and returns the url of the first that matches.
   */
  method FindRoute(rows: seq<Row>, county: string, state: string) returns (route: Option<string>)
    ensures route == SelectRoute(rows, Strip(county), state)
    ensures route.None? <==> forall i :: 0 <= i < |rows| ==> !RowMatches(rows[i], Strip(county), state)
    ensures route.Some? ==> exists i :: IsFirstMatch(rows, Strip(county), state, i) && route.value == rows[i].url
  {
    var stripped := Strip(county);
    route := None;
    var i := 0;
    while i < |rows| && route.None?
      invariant 0 <= i <= |rows|
      invariant route.None? ==> forall j :: 0 <= j < i ==> !RowMatches(rows[j], stripped, state)
      invariant route.None? ==> SelectRoute(rows[i..], stripped, state) == SelectRoute(rows, stripped, state)
      invariant route.Some? ==> 0 < i && IsFirstMatch(rows, stripped, state, i - 1) && route.value == rows[i - 1].url
    {
      var name := rows[i].name;
      var url := rows[i].url;
      if Truthy("/" + state) && Contains(url, "/" + Replace(stripped, " ", "-")) && name == stripped {
        route := Some(url);
      } else {
        assert rows[i..][1..] == rows[i + 1..];
      }
      i := i + 1;
    }
    SelectRouteFirstMatch(rows, stripped, state);
    if route.Some? {
      FirstMatchUnique(rows, stripped, state, i - 1);
    }
  }

  /** The first match is the one `SelectRoute` returns. */
  lemma FirstMatchUnique(rows: seq<Row>, county: string, state: string, i: int)
    requires IsFirstMatch(rows, county, state, i)
    ensures SelectRoute(rows, county, state) == Some(rows[i].url)
  {
    SelectRouteFirstMatch(rows, county, state);
    var k :| IsFirstMatch(rows, county, state, k) && SelectRoute(rows, county, state).value == rows[k].url;
    assert !(k < i) && !(i < k);
  }

  /** The non-JSON artifact the autocomplete endpoint puts in front of its body. */
  const Artifact: string := "{}&&"

  /** `response.text.replace("{}&&", "")`. */
  function CleanAutocompleteBody(text: string): (body: string)
    ensures |body| <= |text|
    ensures body == Join(Split(text, Artifact), [])
    ensures !Contains(text, Artifact) ==> body == text
  {
    ReplaceIsJoinSplit(text, Artifact, []);
    if !Contains(text, Artifact) then
      ReplaceAbsent(text, Artifact, []);
      Replace(text, Artifact, [])
    else Replace(text, Artifact, [])
  }

  /** A body behind one leading artifact, holding none itself, comes out as it is. */
  lemma CleanAutocompleteBodyDropsPrefix(body: string)
    requires !Contains(body, Artifact)
    ensures CleanAutocompleteBody(Artifact + body) == body
  {
    var text := Artifact + body;
    assert text[..|Artifact|] == Artifact && text[|Artifact|..] == body;
    ReplaceAbsent(body, Artifact, []);
  }

  /**
   * Removal is a single left-to-right pass, so it is not idempotent: removing
   * the artifact from "{{}&&}&&" leaves "{}&&".
   */
  lemma CleanAutocompleteBodyNotIdempotent()
    ensures CleanAutocompleteBody("{" + Artifact + "}&&") == Artifact
    ensures CleanAutocompleteBody(Artifact) == []
  {
    var text := "{" + Artifact + "}&&";
    assert Artifact == ['{'] + "}&&";
    assert text == ['{'] + (['{'] + "}&&") + "}&&";
    assert text[..4][1] == '{' != Artifact[1];
    ReplaceRegrows('{', "}&&", []);
    assert Artifact[..4] == Artifact && Artifact[4..] == [];
  }
}
