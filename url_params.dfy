/**
 * URLSearchParams as the ordered list of its name/value pairs. The
 * application/x-www-form-urlencoded serializer's percent-encoding is treated as lossless, so a
 * serialized pair is written as `name=value`.
 */
module UrlParams {
  import opened Wrappers
  import opened JsStrings
  import opened Seqs

  type Params = seq<(string, string)>

  predicate HasName(ps: Params, name: string) {
    exists i :: 0 <= i < |ps| && ps[i].0 == name
  }

  /** URLSearchParams.get: the value of the first pair with that name. */
  function Get(ps: Params, name: string): (r: Option<string>)
    ensures r.None? <==> !HasName(ps, name)
  {
    if ps == [] then None
    else if ps[0].0 == name then Some(ps[0].1)
    else
      var r := Get(ps[1..], name);
      assert HasName(ps[1..], name) ==> HasName(ps, name) by {
        if HasName(ps[1..], name) {
          var i :| 0 <= i < |ps[1..]| && ps[1..][i].0 == name;
          assert ps[i + 1].0 == name;
        }
      }
      assert HasName(ps, name) ==> HasName(ps[1..], name) by {
        if HasName(ps, name) {
          var i :| 0 <= i < |ps| && ps[i].0 == name;
          assert ps[1..][i - 1].0 == name;
        }
      }
      r
  }

  /** URLSearchParams.delete: every pair with that name goes. */
  function Delete(ps: Params, name: string): (r: Params)
    ensures !HasName(r, name)
    ensures forall i :: 0 <= i < |ps| && ps[i].0 != name ==> ps[i] in r
    ensures IsSubsequence(r, ps)
  {
    Filter(ps, OtherName(name))
  }

  function OtherName(name: string): ((string, string)) -> bool {
    (p: (string, string)) => p.0 != name
  }

  /** Deleting a name that is not there changes nothing. */
  lemma DeleteAbsent(ps: Params, name: string)
    requires !HasName(ps, name)
    ensures Delete(ps, name) == ps
  {
    FilterAll(ps, OtherName(name));
  }

  /**
   * URLSearchParams.set: the first pair with that name gets the value and the later ones are
   * removed; without such a pair the new one is appended.
   */
  function SetParam(ps: Params, name: string, value: string): (r: Params)
    ensures Get(r, name) == Some(value)
  {
    if ps == [] then [(name, value)]
    else if ps[0].0 == name then [(name, value)] + Delete(ps[1..], name)
    else [ps[0]] + SetParam(ps[1..], name, value)
  }

  /** URLSearchParams.toString. */
  function Serialize(ps: Params): (r: string)
    ensures r == "" <==> ps == []
  {
    Join(seq(|ps|, i requires 0 <= i < |ps| => ps[i].0 + "=" + ps[i].1), "&")
  }

  /** `q ? path + '?' + q : path` with q the serialized parameters. */
  function WithQuery(path: string, ps: Params): (r: string)
    ensures ps == [] ==> r == path
    ensures ps != [] ==> r == path + "?" + Serialize(ps)
  {
    var q := Serialize(ps);
    if q == "" then path else path + "?" + q
  }

  /** Deleting one name leaves the value of every other name as it was. */
  lemma {:induction false} GetDeleteOther(ps: Params, name: string, other: string)
    requires name != other
    ensures Get(Delete(ps, name), other) == Get(ps, other)
  {
    if ps != [] {
      GetDeleteOther(ps[1..], name, other);
      var d := Delete(ps, name);
      var rest := Delete(ps[1..], name);
      if ps[0].0 != name {
        assert d == [ps[0]] + rest;
      } else {
        assert d == rest;
      }
    }
  }

  /** Setting one name leaves the value of every other name as it was. */
  lemma {:induction false} GetSetOther(ps: Params, name: string, value: string, other: string)
    requires name != other
    ensures Get(SetParam(ps, name, value), other) == Get(ps, other)
  {
    if ps != [] {
      if ps[0].0 == name {
        GetDeleteOther(ps[1..], name, other);
      } else {
        GetSetOther(ps[1..], name, value, other);
      }
    }
  }
}
