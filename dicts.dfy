/** Python dicts and lists as the helpers use them. */
module Dicts {
  import opened Results

  /** A Python dict of strings, as its (key, value) pairs in insertion order. */
  type Dictionary = seq<(string, string)>

  /** `list(d.keys())` */
  function Keys(d: Dictionary): (r: seq<string>)
    ensures |r| == |d|
    ensures forall i :: 0 <= i < |d| ==> r[i] == d[i].0
  {
    seq(|d|, i requires 0 <= i < |d| => d[i].0)
  }

  /** A name is among the keys exactly when some entry has it as its key. */
  lemma KeysMembership(d: Dictionary, k: string)
    ensures k in Keys(d) <==> exists v :: (k, v) in d
  {
    if k in Keys(d) {
      var i :| 0 <= i < |d| && Keys(d)[i] == k;
      assert d[i] == (k, d[i].1);
    }
    if exists v :: (k, v) in d {
      var v :| (k, v) in d;
      var i :| 0 <= i < |d| && d[i] == (k, v);
      assert Keys(d)[i] == k;
    }
  }

  /**
   * `s.index(x)`: the first position holding `x`; `None` where Python raises
   * ValueError.
   */
  function IndexOf(s: seq<string>, x: string): (r: Option<nat>)
    ensures r.None? <==> x !in s
    ensures r.Some? ==> r.value < |s| && s[r.value] == x
    ensures r.Some? ==> forall k :: 0 <= k < r.value ==> s[k] != x
  {
    if s == [] then None
    else if s[0] == x then Some(0)
    else
      match IndexOf(s[1..], x)
      case None => None
      case Some(k) => Some(k + 1)
  }
}
