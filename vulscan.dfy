/**
 * PoC selection (`protocols/vulscan/pocExec.go`): a manager holding the PoCs
 * to attack with, and the filter that keeps those whose `finger` info names
 * the fingerprint found, ignoring case.
 */
module VulScan {
  import opened Strs
  import opened Protocols

  /** Some item equals the element once both are lower-cased. */
  predicate InSlice(element: string, elements: seq<string>) {
    exists i :: 0 <= i < |elements| && Lower(element) == Lower(elements[i])
  }

  /** `elementIsInSlice`: the scan that returns at the first equal item. */
  method ElementIsInSlice(element: string, elements: seq<string>) returns (isIn: bool)
    ensures isIn <==> exists i :: 0 <= i < |elements| && Lower(element) == Lower(elements[i])
  {
    isIn := false;
    for i := 0 to |elements|
      invariant forall j :: 0 <= j < i ==> Lower(element) != Lower(elements[j])
    {
      if Lower(element) == Lower(elements[i]) {
        isIn := true;
        return;
      }
    }
  }

  /** Against a one-item slice, membership is case-insensitive equality. */
  lemma InSingleton(element: string, item: string)
    ensures InSlice(element, [item]) <==> Lower(element) == Lower(item)
  {
    if Lower(element) == Lower(item) {
      assert Lower(element) == Lower([item][0]);
    }
  }

  /** `GetPocInfo()["finger"]`: a missing key reads as the empty string. */
  function FingerOf(poc: Poc): string {
    if "finger" in poc.info then poc.info["finger"] else ""
  }

  /** The PoCs whose finger equals `finger` ignoring case, in their original order. */
  function Matching(pocs: seq<Poc>, finger: string): seq<Poc>
    decreases |pocs|
  {
    if pocs == [] then []
    else
      var last := pocs[|pocs| - 1];
      Matching(pocs[..|pocs| - 1], finger)
      + (if InSlice(FingerOf(last), [finger]) then [last] else [])
  }

  /** `xs` is `ys` with some entries left out. */
  predicate Subsequence<T(==)>(xs: seq<T>, ys: seq<T>)
    decreases |ys|
  {
    if xs == [] then true
    else if ys == [] then false
    else
      (xs[|xs| - 1] == ys[|ys| - 1] && Subsequence(xs[..|xs| - 1], ys[..|ys| - 1]))
      || Subsequence(xs, ys[..|ys| - 1])
  }

  /** The filter keeps the PoCs in their original order. */
  lemma {:induction false} MatchingIsSubsequence(pocs: seq<Poc>, finger: string)
    decreases |pocs|
    ensures Subsequence(Matching(pocs, finger), pocs)
  {
    if pocs != [] {
      var init := pocs[..|pocs| - 1];
      var last := pocs[|pocs| - 1];
      MatchingIsSubsequence(init, finger);
      var r := Matching(pocs, finger);
      if InSlice(FingerOf(last), [finger]) {
        assert r[..|r| - 1] == Matching(init, finger);
      } else {
        assert r == Matching(init, finger);
        SubsequenceOfPrefix(r, init, last);
      }
    }
  }

  /** A subsequence of a prefix is a subsequence of the whole. */
  lemma SubsequenceOfPrefix<T>(xs: seq<T>, ys: seq<T>, y: T)
    requires Subsequence(xs, ys)
    ensures Subsequence(xs, ys + [y])
  {
    assert (ys + [y])[..|ys|] == ys;
  }

  /** A PoC is selected iff it is held and its finger equals the query ignoring case. */
  lemma {:induction false} MatchingMembers(pocs: seq<Poc>, finger: string, poc: Poc)
    decreases |pocs|
    ensures poc in Matching(pocs, finger) <==> poc in pocs && Lower(FingerOf(poc)) == Lower(finger)
  {
    if pocs != [] {
      var init := pocs[..|pocs| - 1];
      MatchingMembers(init, finger, poc);
      InSingleton(FingerOf(pocs[|pocs| - 1]), finger);
      assert pocs == init + [pocs[|pocs| - 1]];
    }
  }

  /** Selecting from two runs of PoCs is selecting from each in turn. */
  lemma {:induction false} MatchingAppend(a: seq<Poc>, b: seq<Poc>, finger: string)
    decreases |b|
    ensures Matching(a + b, finger) == Matching(a, finger) + Matching(b, finger)
  {
    if b == [] {
      assert a + b == a;
    } else {
      var init := b[..|b| - 1];
      MatchingAppend(a, init, finger);
      assert (a + b)[..|a + b| - 1] == a + init;
    }
  }

  /** The query's case does not matter. */
  lemma {:induction false} MatchingIgnoresCase(pocs: seq<Poc>, finger: string)
    decreases |pocs|
    ensures Matching(pocs, Lower(finger)) == Matching(pocs, finger)
  {
    LowerIdempotent(finger);
    if pocs != [] {
      MatchingIgnoresCase(pocs[..|pocs| - 1], finger);
      InSingleton(FingerOf(pocs[|pocs| - 1]), finger);
      InSingleton(FingerOf(pocs[|pocs| - 1]), Lower(finger));
    }
  }

  /**
   * A PoC registered last is selected last exactly when its finger equals the
   * query, and it is filtered out when it has no finger info and the query
   * is not empty.
   */
  lemma RegisteredLast(pocs: seq<Poc>, poc: Poc, finger: string)
    ensures Matching(pocs + [poc], finger)
      == Matching(pocs, finger) + (if Lower(FingerOf(poc)) == Lower(finger) then [poc] else [])
    ensures "finger" !in poc.info && finger != "" ==> Matching(pocs + [poc], finger) == Matching(pocs, finger)
  {
    assert (pocs + [poc])[..|pocs|] == pocs;
    InSingleton(FingerOf(poc), finger);
    if "finger" !in poc.info && finger != "" {
      assert Lower("") == "";
      assert |Lower(finger)| == |finger|;
    }
  }

  /** `pocManage`: the PoCs to attack with. */
  class PocManage {
    var pocObjSlice: seq<Poc>

    /** A manager holding no PoCs. */
    constructor ()
      ensures pocObjSlice == []
    {
      pocObjSlice := [];
    }

    /** `GetAttackPocObj`: the given slice replaces the held one. */
    method GetAttackPocObj(pocObjSlic: seq<Poc>)
      modifies this
      ensures pocObjSlice == pocObjSlic
    {
      pocObjSlice := pocObjSlic;
    }

    /** `FingerMatch`: the held PoCs whose finger equals `finger` ignoring case. */
    method FingerMatch(finger: string) returns (newPocSlice: seq<Poc>)
      ensures newPocSlice == Matching(pocObjSlice, finger)
    {
      newPocSlice := [];
      var k := 0;
      while k < |pocObjSlice|
        invariant 0 <= k <= |pocObjSlice|
        invariant newPocSlice == Matching(pocObjSlice[..k], finger)
      {
        assert pocObjSlice[..k + 1][..k] == pocObjSlice[..k];
        var pocObj := pocObjSlice[k];
        var isIn := ElementIsInSlice(FingerOf(pocObj), [finger]);
        if isIn {
          newPocSlice := newPocSlice + [pocObj];
        }
        k := k + 1;
      }
      assert pocObjSlice[..k] == pocObjSlice;
    }
  }

  /** `GetPocManage`: a fresh manager with no PoCs, so every `FingerMatch` on it is empty. */
  method GetPocManage() returns (m: PocManage)
    ensures fresh(m) && m.pocObjSlice == []
    ensures forall finger :: Matching(m.pocObjSlice, finger) == []
  {
    m := new PocManage();
  }
}
