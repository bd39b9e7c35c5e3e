/** Python's insertion-ordered `dict` with string keys, as an association
    list whose keys are pairwise distinct. Assigning to a present key keeps
    its position; assigning to a new key appends it. */
module OrderedDict {
  import opened Wrappers

  predicate UniqueKeys<V>(d: seq<(string, V)>) {
    forall i, j :: 0 <= i < j < |d| ==> d[i].0 != d[j].0
  }

  type Dict<V> = d: seq<(string, V)> | UniqueKeys(d) witness []

  predicate HasKey<V>(d: Dict<V>, k: string) {
    exists i :: 0 <= i < |d| && d[i].0 == k
  }

  /** Position of `k` in `d`, or `|d|` when absent. */
  function IndexOf<V>(d: seq<(string, V)>, k: string): (i: nat)
    ensures i <= |d|
    ensures i < |d| ==> d[i].0 == k
    ensures forall j :: 0 <= j < i ==> d[j].0 != k
  {
    if |d| == 0 then 0
    else if d[0].0 == k then 0
    else 1 + IndexOf(d[1..], k)
  }

  /** `d.get(k)`. */
  function Get<V>(d: Dict<V>, k: string): (r: Option<V>)
    ensures r.Some? <==> HasKey(d, k)
    ensures forall i :: 0 <= i < |d| && d[i].0 == k ==> r == Some(d[i].1)
  {
    var i := IndexOf(d, k);
    if i < |d| then Some(d[i].1) else None
  }

  /** `d[k] = v`. */
  function Put<V>(d: Dict<V>, k: string, v: V): (r: Dict<V>)
    ensures Get(r, k) == Some(v)
    ensures forall k' :: k' != k ==> Get(r, k') == Get(d, k')
    ensures HasKey(d, k) ==> |r| == |d| && forall i :: 0 <= i < |d| ==> r[i].0 == d[i].0
    ensures !HasKey(d, k) ==> r == d + [(k, v)]
  {
    var i := IndexOf(d, k);
    if i < |d| then
      var r: Dict<V> := d[i := (k, v)];
      assert r[i] == (k, v);
      assert forall k' :: k' != k ==> Get(r, k') == Get(d, k') by {
        forall k' | k' != k
          ensures Get(r, k') == Get(d, k')
        {
          var j := IndexOf(d, k');
          if j < |d| {
            assert r[j] == d[j];
          } else {
            assert forall m :: 0 <= m < |r| ==> r[m].0 != k';
          }
        }
      }
      r
    else
      var r: Dict<V> := d + [(k, v)];
      assert r[|d|] == (k, v);
      assert forall m :: 0 <= m < |d| ==> r[m] == d[m];
      r
  }
}
