/** Keeping ids stable when matches and players are rebuilt from their sources. */
module Identity {
  import opened Options

  // ---- granting ids -------------------------------------------------------------------

  /** The i-th claim is the first one for its id. */
  ghost predicate First(claims: seq<Option<string>>, i: nat)
    requires i < |claims|
  {
    claims[i].Some? && forall j :: 0 <= j < i ==> claims[j] != claims[i]
  }

  ghost function Used(claims: seq<Option<string>>): set<string> {
    set c | c in claims && c.Some? :: c.value
  }

  lemma UsedMeansNotFirst(claims: seq<Option<string>>, i: nat)
    requires i < |claims| && claims[i].Some?
    ensures First(claims, i) <==> claims[i].value !in Used(claims[..i])
    ensures Used(claims[..i + 1]) == Used(claims[..i]) + {claims[i].value}
  {
    assert claims[..i + 1] == claims[..i] + [claims[i]];
    if !First(claims, i) {
      var j :| 0 <= j < i && claims[j] == claims[i];
      assert claims[..i][j] in claims[..i];
    }
  }

  lemma UnusedStays(claims: seq<Option<string>>, i: nat)
    requires i < |claims| && claims[i].None?
    ensures Used(claims[..i + 1]) == Used(claims[..i])
  {
    assert claims[..i + 1] == claims[..i] + [claims[i]];
  }

  /** The element of a set that has exactly one. */
  ghost function Only<T>(s: set<T>): (r: Option<T>)
    ensures r.Some? <==> |s| == 1
    ensures r.Some? ==> s == {r.value}
  {
    if |s| == 1 then
      var x :| x in s;
      OnlyElement(s, x);
      Some(x)
    else None
  }

  lemma OnlyElement<T>(s: set<T>, x: T)
    requires x in s && |s| == 1
    ensures s == {x}
  {
    assert |s - {x}| == 0;
  }
}
