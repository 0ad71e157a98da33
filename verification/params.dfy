/** URL query parameters (`URLSearchParams`): an ordered list of name/value
    pairs in which a name may repeat. `get` returns the first value, `has`
    tests for any pair, `delete` removes every pair with the name, and `set`
    overwrites the first pair and drops the others, or appends. */
module QueryParams {
  import opened Wrappers

  datatype Pair = Pair(name: string, value: string)

  type Params = seq<Pair>

  predicate Has(ps: Params, name: string) {
    exists i :: 0 <= i < |ps| && ps[i].name == name
  }

  /** Number of pairs carrying `name`. */
  function Count(ps: Params, name: string): nat {
    if |ps| == 0 then 0 else (if ps[0].name == name then 1 else 0) + Count(ps[1..], name)
  }

  function Get(ps: Params, name: string): (r: Option<string>)
    ensures r.None? <==> !Has(ps, name)
    ensures r.Some? ==> exists i :: 0 <= i < |ps| && ps[i] == Pair(name, r.value)
                                    && forall j :: 0 <= j < i ==> ps[j].name != name
  {
    if |ps| == 0 then None
    else if ps[0].name == name then
      assert ps[0] == Pair(name, ps[0].value);
      Some(ps[0].value)
    else
      var r := Get(ps[1..], name);
      if r.Some? then
        var i :| 0 <= i < |ps[1..]| && ps[1..][i] == Pair(name, r.value)
                 && forall j :: 0 <= j < i ==> ps[1..][j].name != name;
        assert ps[i + 1] == Pair(name, r.value);
        assert forall j :: 0 <= j < i + 1 ==> ps[j].name != name by {
          forall j | 0 <= j < i + 1 ensures ps[j].name != name {
            if j > 0 { assert ps[j] == ps[1..][j - 1]; }
          }
        }
        r
      else
        r
  }

  /** `delete(name)`: every pair with another name stays, in order. */
  function Delete(ps: Params, name: string): (r: Params)
    ensures !Has(r, name)
    ensures |r| == |ps| - Count(ps, name)
    ensures forall p :: p in r <==> p in ps && p.name != name
  {
    if |ps| == 0 then []
    else if ps[0].name == name then Delete(ps[1..], name)
    else [ps[0]] + Delete(ps[1..], name)
  }

  /** Deleting one name does not affect what `get` returns for another. */
  lemma {:induction false} GetDelete(ps: Params, name: string, other: string)
    requires other != name
    ensures Get(Delete(ps, name), other) == Get(ps, other)
  {
    if |ps| > 0 {
      GetDelete(ps[1..], name, other);
      if ps[0].name != name {
        assert ([ps[0]] + Delete(ps[1..], name))[1..] == Delete(ps[1..], name);
      }
    }
  }

  /** Deletions of two names commute. */
  lemma {:induction false} DeleteCommutes(ps: Params, a: string, b: string)
    ensures Delete(Delete(ps, a), b) == Delete(Delete(ps, b), a)
  {
    if |ps| > 0 {
      DeleteCommutes(ps[1..], a, b);
      var p := ps[0];
      if p.name != a {
        assert ([p] + Delete(ps[1..], a))[1..] == Delete(ps[1..], a);
      }
      if p.name != b {
        assert ([p] + Delete(ps[1..], b))[1..] == Delete(ps[1..], b);
      }
      if p.name != a && p.name != b {
        assert ([p] + Delete(Delete(ps[1..], a), b))[1..] == Delete(Delete(ps[1..], a), b);
        assert ([p] + Delete(Delete(ps[1..], b), a))[1..] == Delete(Delete(ps[1..], b), a);
      }
    }
  }

  lemma {:induction false} DeleteIdempotent(ps: Params, name: string)
    ensures Delete(Delete(ps, name), name) == Delete(ps, name)
  {
    if |ps| > 0 {
      DeleteIdempotent(ps[1..], name);
      if ps[0].name != name {
        assert ([ps[0]] + Delete(ps[1..], name))[1..] == Delete(ps[1..], name);
      }
    }
  }

  /** Overwrites the first pair named `name` and removes the later ones. */
  function ReplaceFirst(ps: Params, name: string, value: string): (r: Params)
    requires Has(ps, name)
    ensures Delete(r, name) == Delete(ps, name)
    ensures Count(r, name) == 1
    ensures Get(r, name) == Some(value)
  {
    if ps[0].name == name then
      var rest := Delete(ps[1..], name);
      var r := [Pair(name, value)] + rest;
      assert r[1..] == rest;
      CountDeleted(ps[1..], name);
      DeleteIdempotent(ps[1..], name);
      r
    else
      assert Has(ps[1..], name) by {
        var i :| 0 <= i < |ps| && ps[i].name == name;
        assert ps[1..][i - 1].name == name;
      }
      var r := [ps[0]] + ReplaceFirst(ps[1..], name, value);
      assert r[1..] == ReplaceFirst(ps[1..], name, value);
      assert ([ps[0]] + Delete(r[1..], name))[1..] == Delete(r[1..], name);
      r
  }

  lemma CountDeleted(ps: Params, name: string)
    ensures Count(Delete(ps, name), name) == 0
  {
    var d := Delete(ps, name);
    CountZero(d, name);
  }

  lemma {:induction false} CountZero(ps: Params, name: string)
    requires !Has(ps, name)
    ensures Count(ps, name) == 0
  {
    if |ps| > 0 {
      HasTail(ps, name);
      CountZero(ps[1..], name);
    }
  }

  /** `set(name, value)`: afterwards `name` occurs exactly once, with `value`,
      and the list without `name` is exactly what it was before. */
  function Set(ps: Params, name: string, value: string): (r: Params)
    ensures Get(r, name) == Some(value)
    ensures Count(r, name) == 1
    ensures Delete(r, name) == Delete(ps, name)
    ensures !Has(ps, name) ==> r == ps + [Pair(name, value)]
  {
    if Has(ps, name) then ReplaceFirst(ps, name, value)
    else
      var r := ps + [Pair(name, value)];
      CountZero(ps, name);
      CountAppend(ps, Pair(name, value), name);
      DeleteAppend(ps, Pair(name, value), name);
      DeleteAbsent(ps, name);
      GetAppendAbsent(ps, name, value);
      r
  }

  lemma {:induction false} CountAppend(ps: Params, p: Pair, name: string)
    ensures Count(ps + [p], name) == Count(ps, name) + (if p.name == name then 1 else 0)
  {
    if |ps| > 0 {
      assert (ps + [p])[1..] == ps[1..] + [p];
      CountAppend(ps[1..], p, name);
    }
  }

  lemma {:induction false} DeleteAppend(ps: Params, p: Pair, name: string)
    ensures Delete(ps + [p], name) == Delete(ps, name) + (if p.name == name then [] else [p])
  {
    if |ps| > 0 {
      assert (ps + [p])[1..] == ps[1..] + [p];
      DeleteAppend(ps[1..], p, name);
    } else {
      assert ps + [p] == [p];
    }
  }

  lemma {:induction false} DeleteAbsent(ps: Params, name: string)
    requires !Has(ps, name)
    ensures Delete(ps, name) == ps
  {
    if |ps| > 0 {
      HasTail(ps, name);
      DeleteAbsent(ps[1..], name);
      assert ps == [ps[0]] + ps[1..];
    }
  }

  lemma {:induction false} GetAppendAbsent(ps: Params, name: string, value: string)
    requires !Has(ps, name)
    ensures Get(ps + [Pair(name, value)], name) == Some(value)
  {
    if |ps| > 0 {
      assert (ps + [Pair(name, value)])[1..] == ps[1..] + [Pair(name, value)];
      HasTail(ps, name);
      GetAppendAbsent(ps[1..], name, value);
    }
  }

  lemma HasTail(ps: Params, name: string)
    requires |ps| > 0
    ensures Has(ps[1..], name) ==> Has(ps, name)
  {
    if Has(ps[1..], name) {
      var i :| 0 <= i < |ps[1..]| && ps[1..][i].name == name;
      assert ps[i + 1].name == name;
    }
  }

  /** Only pairs named `name` are counted by Count, so a list without the
      name has a zero count and vice versa. */
  lemma HasCount(ps: Params, name: string)
    ensures Has(ps, name) <==> Count(ps, name) > 0
  {
    if !Has(ps, name) {
      CountZero(ps, name);
    } else {
      var d := Delete(ps, name);
      assert |d| == |ps| - Count(ps, name);
      var i :| 0 <= i < |ps| && ps[i].name == name;
      assert ps[i] !in d;
      if Count(ps, name) == 0 {
        assert |d| == |ps|;
        SameLengthDeleteIsIdentity(ps, name);
        assert false;
      }
    }
  }

  lemma {:induction false} SameLengthDeleteIsIdentity(ps: Params, name: string)
    requires |Delete(ps, name)| == |ps|
    ensures Delete(ps, name) == ps
  {
    if |ps| > 0 {
      if ps[0].name == name {
        assert false;
      } else {
        SameLengthDeleteIsIdentity(ps[1..], name);
      }
    }
  }
}
