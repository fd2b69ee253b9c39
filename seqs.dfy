/** Ordered query results: `findMany` keeps the rows that pass its `where`
    in stored order, `findFirst` returns the first of them. */
module Seqs {
  import opened Wrappers

  function Filter<T(!new)>(s: seq<T>, p: T -> bool): (r: seq<T>)
    ensures |r| <= |s|
    ensures forall x :: x in r <==> x in s && p(x)
    ensures forall i :: 0 <= i < |r| ==> p(r[i])
  {
    if s == [] then []
    else if p(s[0]) then [s[0]] + Filter(s[1..], p)
    else Filter(s[1..], p)
  }

  /** Filtering commutes with appending. */
  lemma {:induction false} FilterAppend<T(!new)>(s: seq<T>, t: seq<T>, p: T -> bool)
    ensures Filter(s + t, p) == Filter(s, p) + Filter(t, p)
  {
    if s == [] {
      assert s + t == t;
    } else {
      assert (s + t)[1..] == s[1..] + t;
      FilterAppend(s[1..], t, p);
    }
  }

  /** Filtering a single row keeps it exactly when it passes. */
  lemma FilterSingle<T(!new)>(y: T, p: T -> bool)
    ensures Filter([y], p) == if p(y) then [y] else []
  {
    assert [y][1..] == [];
  }

  /** Two tests that agree on every element of `s` keep the same rows. */
  lemma {:induction false} FilterCongruent<T(!new)>(s: seq<T>, p: T -> bool, q: T -> bool)
    requires forall x :: x in s ==> (p(x) <==> q(x))
    ensures Filter(s, p) == Filter(s, q)
  {
    if s != [] {
      assert s[0] in s;
      assert forall x :: x in s[1..] ==> x in s;
      FilterCongruent(s[1..], p, q);
    }
  }

  /** The first element that passes `p`. */
  function Find<T(!new)>(s: seq<T>, p: T -> bool): (r: Option<T>)
    ensures r.Some? <==> exists x :: x in s && p(x)
    ensures r.Some? ==> r.value in s && p(r.value)
    ensures r.Some? ==> exists i :: 0 <= i < |s| && s[i] == r.value && forall j :: 0 <= j < i ==> !p(s[j])
  {
    if s == [] then None
    else if p(s[0]) then Some(s[0])
    else
      var rest := Find(s[1..], p);
      assert rest.Some? ==> exists i :: 1 <= i < |s| && s[i] == rest.value && forall j :: 1 <= j < i ==> !p(s[j]) by {
        if rest.Some? {
          var k :| 0 <= k < |s[1..]| && s[1..][k] == rest.value && forall j :: 0 <= j < k ==> !p(s[1..][j]);
          assert s[k + 1] == rest.value;
          assert forall j :: 1 <= j < k + 1 ==> s[j] == s[1..][j - 1];
        }
      }
      assert forall x :: x in s && x != s[0] ==> x in s[1..];
      rest
  }

  /** `Find` is the head of `Filter`. */
  lemma {:induction false} FindIsFirstFiltered<T(!new)>(s: seq<T>, p: T -> bool)
    ensures Find(s, p).Some? <==> |Filter(s, p)| > 0
    ensures Find(s, p).Some? ==> Find(s, p).value == Filter(s, p)[0]
  {
    if s != [] && !p(s[0]) {
      FindIsFirstFiltered(s[1..], p);
    }
  }

  /** The results of a loop that stops at its first failing step: every value
      in order, or the error of the first step that failed. */
  function Collect<T>(rs: seq<Result<T>>): (r: Result<seq<T>>)
    ensures r.Ok? <==> forall i :: 0 <= i < |rs| ==> rs[i].Ok?
    ensures r.Ok? ==> |r.value| == |rs| && forall i :: 0 <= i < |rs| ==> r.value[i] == rs[i].value
    ensures r.Err? ==> exists i :: 0 <= i < |rs| && rs[i] == Err(r.error) && forall j :: 0 <= j < i ==> rs[j].Ok?
  {
    if rs == [] then Ok([])
    else
      var pre := rs[..|rs| - 1];
      var rest := Collect(pre);
      assert forall i :: 0 <= i < |pre| ==> pre[i] == rs[i];
      if rest.Err? then rest
      else if rs[|rs| - 1].Err? then Err(rs[|rs| - 1].error)
      else
        var all := rest.value + [rs[|rs| - 1].value];
        assert forall i :: 0 <= i < |pre| ==> all[i] == rest.value[i];
        Ok(all)
  }

  /** One more step extends the collected values, or fails with its error. */
  lemma CollectSnoc<T>(rs: seq<Result<T>>, x: Result<T>)
    ensures Collect(rs + [x]) == if Collect(rs).Err? then Collect(rs)
                                 else if x.Err? then Err(x.error) else Ok(Collect(rs).value + [x.value])
  {
    assert (rs + [x])[..|rs|] == rs;
  }
}
