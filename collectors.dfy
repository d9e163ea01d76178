/**
 * The two pieces of Java collection semantics the pipeline relies on:
 * `Collectors.toMap`, which refuses a repeated key, and the 32-bit `int`
 * addition of `IntStream.sum`, which wraps around.
 */
module Collectors {
  import opened Domain

  /** No key occurs twice among the entries. */
  ghost predicate DistinctKeys<V>(entries: seq<(string, V)>)
  {
    forall i, j :: 0 <= i < j < |entries| ==> entries[i].0 != entries[j].0
  }

  /** `toMap(key, value)` over a sequential stream of (key, value) entries:
    * the map of all entries, or the first key met a second time. */
  function ToMap<V>(entries: seq<(string, V)>): (r: Result<map<string, V>>)
    ensures r.Ok? <==> DistinctKeys(entries)
    ensures r.Ok? ==> r.value.Keys == (set e | e in entries :: e.0)
    ensures r.Ok? ==> forall i :: 0 <= i < |entries| ==> r.value[entries[i].0] == entries[i].1
    ensures r.Err? ==> r.error.DuplicateKey?
    ensures r.Err? ==>
              exists j :: 0 <= j < |entries| && entries[j].0 == r.error.key && DistinctKeys(entries[..j]) &&
                           exists i :: 0 <= i < j && entries[i].0 == r.error.key
    decreases |entries|
  {
    if entries == [] then Ok(map[])
    else
      var init := entries[..|entries| - 1];
      var last := entries[|entries| - 1];
      assert entries == init + [last];
      match ToMap(init)
      case Err(e) => Err(e)
      case Ok(m) =>
        if last.0 in m then
          assert last.0 in (set e | e in init :: e.0);
          Err(DuplicateKey(last.0))
        else
          assert forall i :: 0 <= i < |init| ==> init[i] in init;
          Ok(m[last.0 := last.1])
  }

  const Int32Modulus: int := 0x1_0000_0000

  /** Reduction of an integer to Java's `int` range. */
  function ToInt32(x: int): (r: int)
    ensures -0x8000_0000 <= r < 0x8000_0000
    ensures (r - x) % Int32Modulus == 0
  {
    (x + 0x8000_0000) % Int32Modulus - 0x8000_0000
  }

  /** A sum that fits in an `int` is unaffected by wrap-around. */
  lemma ToInt32InRange(x: int)
    requires -0x8000_0000 <= x < 0x8000_0000
    ensures ToInt32(x) == x
  {
  }
}
