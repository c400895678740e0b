/** The query helper of `src/db/db.ts`: `parameterizeArrayForQuery` turns a
    list of values into the distinct values and the matching `?,?,?`
    placeholder list of an SQL `IN (...)` clause. */
module Db {
  import opened Common

  datatype Parameterized<T> = Parameterized(distinctValueArray: seq<T>, parameterString: string)

  /** `Array.from(new Set(arr))`: a JavaScript `Set` keeps its elements in
      first-insertion order, so each value is kept at its first occurrence. */
  function Distinct<T(==)>(arr: seq<T>): (d: seq<T>)
  {
    if arr == [] then []
    else
      var prefix := Distinct(arr[..|arr| - 1]);
      if arr[|arr| - 1] in prefix then prefix else prefix + [arr[|arr| - 1]]
  }

  ghost predicate NoDuplicates<T>(s: seq<T>) {
    forall i, j :: 0 <= i < j < |s| ==> s[i] != s[j]
  }

  /** `i` is the position where `x` first occurs in `arr`. */
  ghost predicate IsFirstIndex<T>(arr: seq<T>, x: T, i: int) {
    0 <= i < |arr| && arr[i] == x && x !in arr[..i]
  }

  lemma {:induction false} DistinctElements<T>(arr: seq<T>)
    ensures forall x :: x in Distinct(arr) <==> x in arr
    ensures forall i :: 0 <= i < |Distinct(arr)| ==> Distinct(arr)[i] in arr
  {
    if arr != [] {
      var init := arr[..|arr| - 1];
      DistinctElements(init);
      assert arr == init + [arr[|arr| - 1]];
    }
  }

  lemma {:induction false} DistinctHasNoDuplicates<T>(arr: seq<T>)
    ensures NoDuplicates(Distinct(arr))
  {
    if arr != [] {
      DistinctHasNoDuplicates(arr[..|arr| - 1]);
    }
  }

  lemma FirstIndexInPrefix<T>(arr: seq<T>, x: T, p: int)
    requires |arr| > 0 && x in arr[..|arr| - 1]
    requires IsFirstIndex(arr, x, p)
    ensures p < |arr| - 1 && IsFirstIndex(arr[..|arr| - 1], x, p)
  {
    var init := arr[..|arr| - 1];
    assert init[..p] == arr[..p];
  }

  /** The distinct values appear in the order of their first occurrence in
      the input. */
  lemma {:induction false} DistinctKeepsFirstOccurrenceOrder<T>(arr: seq<T>, i: int, j: int, p: int, q: int)
    requires 0 <= i < j < |Distinct(arr)|
    requires IsFirstIndex(arr, Distinct(arr)[i], p)
    requires IsFirstIndex(arr, Distinct(arr)[j], q)
    ensures p < q
  {
    var init := arr[..|arr| - 1];
    var last := arr[|arr| - 1];
    var d := Distinct(arr);
    var dInit := Distinct(init);
    DistinctElements(init);
    assert d[i] in dInit;
    FirstIndexInPrefix(arr, d[i], p);
    if j < |dInit| {
      assert d[j] in dInit;
      FirstIndexInPrefix(arr, d[j], q);
      DistinctKeepsFirstOccurrenceOrder(init, i, j, p, q);
    } else {
      assert d[j] == last && last !in init;
      assert arr[..|arr| - 1] == init;
      assert q == |arr| - 1;
    }
  }

  /** The `reduce` callback of the source, applied to the positions
      `index .. n - 1` of an array of length `n`: it appends `?,` for every
      position but the last, and `?` for the last. */
  function PlaceholderFold(n: nat, index: nat, acc: string): string
    requires index <= n
    decreases n - index
  {
    if index == n then acc
    else PlaceholderFold(n, index + 1, if index == n - 1 then acc + "?" else acc + "?,")
  }

  function ParameterString(n: nat): string {
    PlaceholderFold(n, 0, "")
  }

  function Repeat(s: string, k: nat): string {
    if k == 0 then "" else Repeat(s, k - 1) + s
  }

  function CountChar(c: char, s: string): nat {
    if s == [] then 0 else CountChar(c, s[..|s| - 1]) + (if s[|s| - 1] == c then 1 else 0)
  }

  lemma {:induction false} CountCharAppend(c: char, s: string, t: string)
    ensures CountChar(c, s + t) == CountChar(c, s) + CountChar(c, t)
  {
    if t != [] {
      assert (s + t)[..|s + t| - 1] == s + t[..|t| - 1];
      CountCharAppend(c, s, t[..|t| - 1]);
    } else {
      assert s + t == s;
    }
  }

  lemma {:induction false} RepeatShape(k: nat)
    ensures |Repeat("?,", k)| == 2 * k
    ensures CountChar('?', Repeat("?,", k)) == k
  {
    if k > 0 {
      RepeatShape(k - 1);
      CountCharAppend('?', Repeat("?,", k - 1), "?,");
    }
  }

  lemma {:induction false} PlaceholderFoldShape(n: nat, index: nat, acc: string)
    requires index < n
    ensures PlaceholderFold(n, index, acc) == acc + Repeat("?,", n - 1 - index) + "?"
    decreases n - index
  {
    if index == n - 1 {
      assert PlaceholderFold(n, index + 1, acc + "?") == acc + "?";
    } else {
      PlaceholderFoldShape(n, index + 1, acc + "?,");
      RepeatPrepend(n - 2 - index);
    }
  }

  lemma {:induction false} RepeatPrepend(k: nat)
    ensures "?," + Repeat("?,", k) == Repeat("?,", k + 1)
  {
    if k > 0 {
      RepeatPrepend(k - 1);
    }
  }

  /** For `n` values the placeholder list is `n - 1` copies of `?,` and a
      final `?`: `n` placeholders, `2n - 1` characters, no trailing comma. */
  lemma ParameterStringShape(n: nat)
    requires n >= 1
    ensures ParameterString(n) == Repeat("?,", n - 1) + "?"
    ensures |ParameterString(n)| == 2 * n - 1
    ensures CountChar('?', ParameterString(n)) == n
    ensures ParameterString(n)[|ParameterString(n)| - 1] == '?'
  {
    var prefix := Repeat("?,", n - 1);
    PlaceholderFoldShape(n, 0, "");
    assert "" + prefix == prefix;
    RepeatShape(n - 1);
    CountCharAppend('?', prefix, "?");
    assert CountChar('?', "?") == 1 by {
      assert "?"[..0] == [];
    }
  }

  /** `parameterizeArrayForQuery`: `undefined` (here `None`) for an empty
      input; otherwise the distinct values and one placeholder per value. */
  function ParameterizeArrayForQuery<T(==)>(arr: seq<T>): (r: Option<Parameterized<T>>)
    ensures r.None? <==> arr == []
    ensures r.Some? ==>
      && r.value.distinctValueArray == Distinct(arr)
      && NoDuplicates(r.value.distinctValueArray)
      && (forall i :: 0 <= i < |arr| ==> arr[i] in r.value.distinctValueArray)
      && (forall i :: 0 <= i < |r.value.distinctValueArray| ==> r.value.distinctValueArray[i] in arr)
      && r.value.parameterString == Repeat("?,", |r.value.distinctValueArray| - 1) + "?"
      && CountChar('?', r.value.parameterString) == |r.value.distinctValueArray|
      && |r.value.parameterString| == 2 * |r.value.distinctValueArray| - 1
  {
    var distinctValueArray := Distinct(arr);
    DistinctElements(arr);
    DistinctHasNoDuplicates(arr);
    if |distinctValueArray| < 1 then
      None
    else
      ParameterStringShape(|distinctValueArray|);
      Some(Parameterized(distinctValueArray, ParameterString(|distinctValueArray|)))
  }
}
