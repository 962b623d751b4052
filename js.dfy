/**
 * JavaScript values as the application sees them: optional values, the result
 * of `Number(x)`, truthiness of form strings, and plain objects.
 *
 * A plain object is an insertion-ordered list of distinct keys with their
 * values. Assigning to a key that is present keeps its position; assigning to
 * a new key appends it. `{...a, ...b}` assigns b's entries onto a copy of a.
 */
module Js {

  datatype Option<T> = None | Some(value: T) {
    function GetOr(default: T): T {
      match this
      case Some(v) => v
      case None => default
    }
  }

  /** The outcome of `Number(text)`: a finite real, or NaN. */
  datatype JsNum = NaN | Num(value: real)

  /** `n || 0` for a number: NaN becomes 0 (and 0 stays 0). */
  function OrZero(n: JsNum): real {
    match n
    case NaN => 0.0
    case Num(v) => v
  }

  /** A form string is truthy exactly when it is not empty. */
  predicate Truthy(s: string) {
    s != ""
  }

  /** A plain object: its (key, value) entries in insertion order. */
  type Obj<V> = seq<(string, V)>

  function Keys<V>(o: Obj<V>): (ks: seq<string>)
    ensures |ks| == |o|
    ensures forall i :: 0 <= i < |o| ==> ks[i] == o[i].0
  {
    if o == [] then [] else [o[0].0] + Keys(o[1..])
  }

  function Values<V>(o: Obj<V>): (vs: seq<V>)
    ensures |vs| == |o|
    ensures forall i :: 0 <= i < |o| ==> vs[i] == o[i].1
  {
    if o == [] then [] else [o[0].1] + Values(o[1..])
  }

  /** `s.map(f)`. */
  function Map<A, B>(s: seq<A>, f: A -> B): (r: seq<B>)
    ensures |r| == |s|
    ensures forall i :: 0 <= i < |s| ==> r[i] == f(s[i])
  {
    seq(|s|, i requires 0 <= i < |s| => f(s[i]))
  }

  predicate UniqueKeys<V>(o: Obj<V>) {
    forall i, j :: 0 <= i < j < |o| ==> o[i].0 != o[j].0
  }

  predicate HasKey<V>(o: Obj<V>, k: string) {
    exists i :: 0 <= i < |o| && o[i].0 == k
  }

  /** `o[k]`: the value of the first entry with key k. */
  function Get<V>(o: Obj<V>, k: string): (r: Option<V>)
    ensures r.None? <==> !HasKey(o, k)
    ensures r.Some? ==> exists i :: 0 <= i < |o| && o[i] == (k, r.value)
  {
    if o == [] then None
    else if o[0].0 == k then Some(o[0].1)
    else Get(o[1..], k)
  }

  /** `o[k] = v`. */
  function Put<V>(o: Obj<V>, k: string, v: V): (r: Obj<V>)
    ensures HasKey(o, k) ==> |r| == |o|
    ensures !HasKey(o, k) ==> r == o + [(k, v)]
    ensures forall i :: 0 <= i < |o| ==> r[i].0 == o[i].0
    ensures forall i :: 0 <= i < |o| && o[i].0 != k ==> r[i] == o[i]
  {
    if o == [] then [(k, v)]
    else if o[0].0 == k then [(k, v)] + o[1..]
    else [o[0]] + Put(o[1..], k, v)
  }

  /** Assigning keeps the keys distinct. */
  lemma PutKeepsUnique<V>(o: Obj<V>, k: string, v: V)
    requires UniqueKeys(o)
    ensures UniqueKeys(Put(o, k, v))
  {
    var r := Put(o, k, v);
    forall i, j | 0 <= i < j < |r| ensures r[i].0 != r[j].0 {
      if j == |o| {
        assert r[j] == (k, v) && !HasKey(o, k);
      }
    }
  }

  lemma {:induction false} GetPut<V>(o: Obj<V>, k: string, v: V, k': string)
    requires UniqueKeys(o)
    ensures Get(Put(o, k, v), k') == if k' == k then Some(v) else Get(o, k')
  {
    if o != [] && o[0].0 != k {
      GetPut(o[1..], k, v, k');
    }
  }

  /** In an object with distinct keys, each entry is what its key reads. */
  lemma {:induction false} GetAt<V>(o: Obj<V>, i: int)
    requires UniqueKeys(o) && 0 <= i < |o|
    ensures Get(o, o[i].0) == Some(o[i].1)
  {
    if i > 0 {
      assert o[0].0 != o[i].0;
      GetAt(o[1..], i - 1);
    }
  }

  /** An entry appended at the end is read only when no earlier entry has its key. */
  lemma {:induction false} GetAppend<V>(o: Obj<V>, k: string, v: V, k': string)
    ensures Get(o + [(k, v)], k') == if HasKey(o, k') then Get(o, k') else if k' == k then Some(v) else None
  {
    if o == [] {
      assert o + [(k, v)] == [(k, v)];
    } else {
      assert (o + [(k, v)])[1..] == o[1..] + [(k, v)];
      GetAppend(o[1..], k, v, k');
      if o[0].0 != k' && HasKey(o, k') {
        var i :| 0 <= i < |o| && o[i].0 == k';
        assert o[1..][i - 1].0 == k';
      }
    }
  }

  /** In an object with distinct keys, the last key reads the last value and the others read as before it. */
  lemma GetLast<V>(o: Obj<V>, k: string)
    requires UniqueKeys(o) && o != []
    ensures Get(o, k) == if k == o[|o| - 1].0 then Some(o[|o| - 1].1) else Get(o[..|o| - 1], k)
  {
    var n := |o| - 1;
    assert o == o[..n] + [o[n]];
    GetAppend(o[..n], o[n].0, o[n].1, k);
  }

  /** Growing a prefix by one element. */
  lemma PrefixStep<T>(s: seq<T>, i: int)
    requires 0 <= i < |s|
    ensures s[..i + 1] == s[..i] + [s[i]]
  {
  }

  /** The prefix of full length is the whole sequence. */
  lemma WholePrefix<T>(s: seq<T>)
    ensures s[..|s|] == s
  {
  }

  /** A key is in a non-empty object when it is the first key or a key of the rest; with distinct keys, not both. */
  lemma HasKeyFirst<V>(o: Obj<V>, k: string)
    requires o != [] && UniqueKeys(o)
    ensures HasKey(o, k) <==> o[0].0 == k || HasKey(o[1..], k)
    ensures o[0].0 == k ==> !HasKey(o[1..], k)
  {
    if HasKey(o[1..], k) {
      var i :| 0 <= i < |o[1..]| && o[1..][i].0 == k;
      assert o[i + 1].0 == k;
    }
    if HasKey(o, k) && o[0].0 != k {
      var i :| 0 <= i < |o| && o[i].0 == k;
      assert o[1..][i - 1].0 == k;
    }
  }

  /** `{...a, ...b}`. */
  function Merge<V>(a: Obj<V>, b: Obj<V>): (r: Obj<V>)
    ensures UniqueKeys(a) ==> UniqueKeys(r)
    ensures |r| >= |a|
    ensures forall i :: 0 <= i < |a| ==> r[i].0 == a[i].0
    decreases |b|
  {
    if b == [] then a
    else
      if UniqueKeys(a) then PutKeepsUnique(a, b[0].0, b[0].1); Merge(Put(a, b[0].0, b[0].1), b[1..])
      else Merge(Put(a, b[0].0, b[0].1), b[1..])
  }

  /** A key of the merge reads b's value when b has it, and a's otherwise. */
  lemma {:induction false} GetMerge<V>(a: Obj<V>, b: Obj<V>, k: string)
    requires UniqueKeys(a) && UniqueKeys(b)
    ensures Get(Merge(a, b), k) == if HasKey(b, k) then Get(b, k) else Get(a, k)
    decreases |b|
  {
    if b != [] {
      var rest := b[1..];
      assert UniqueKeys(rest);
      GetMerge(Put(a, b[0].0, b[0].1), rest, k);
      GetPut(a, b[0].0, b[0].1, k);
      HasKeyFirst(b, k);
    }
  }

  /** The value of the last entry of w with key k: what k holds after w's entries are assigned in order. */
  function LastWrite<V>(w: Obj<V>, k: string): Option<V> {
    if w == [] then None
    else if w[|w| - 1].0 == k then Some(w[|w| - 1].1)
    else LastWrite(w[..|w| - 1], k)
  }

  /** LastWrite finds nothing exactly when no entry has key k, and otherwise the last entry that does. */
  lemma {:induction false} LastWriteSpec<V>(w: Obj<V>, k: string)
    ensures LastWrite(w, k).None? <==> forall i :: 0 <= i < |w| ==> w[i].0 != k
    ensures forall i :: 0 <= i < |w| && w[i].0 == k && (forall j :: i < j < |w| ==> w[j].0 != k) ==>
      LastWrite(w, k) == Some(w[i].1)
  {
    if w != [] {
      var n := |w| - 1;
      LastWriteSpec(w[..n], k);
      assert forall i :: 0 <= i < n ==> w[..n][i] == w[i];
    }
  }

  /** What LastWrite finds is one of the entries. */
  lemma {:induction false} LastWriteEntry<V>(w: Obj<V>, k: string) returns (j: int)
    requires LastWrite(w, k).Some?
    ensures 0 <= j < |w| && w[j] == (k, LastWrite(w, k).value)
  {
    var n := |w| - 1;
    if w[n].0 == k {
      j := n;
    } else {
      j := LastWriteEntry(w[..n], k);
      assert w[..n][j] == w[j];
    }
  }

  /** The object built by assigning w's entries in order to `{}`. */
  function PutAll<V>(w: Obj<V>): (r: Obj<V>)
    ensures UniqueKeys(r)
  {
    if w == [] then []
    else
      var o := PutAll(w[..|w| - 1]);
      PutKeepsUnique(o, w[|w| - 1].0, w[|w| - 1].1);
      Put(o, w[|w| - 1].0, w[|w| - 1].1)
  }

  lemma PutAllAppend<V>(w: Obj<V>, x: (string, V))
    ensures PutAll(w + [x]) == Put(PutAll(w), x.0, x.1)
  {
    assert (w + [x])[..|w|] == w;
  }

  /** After the assignments, each key reads its last assignment, and a key never assigned is absent. */
  lemma {:induction false} GetPutAll<V>(w: Obj<V>, k: string)
    ensures Get(PutAll(w), k) == LastWrite(w, k)
  {
    if w != [] {
      GetPutAll(w[..|w| - 1], k);
      GetPut(PutAll(w[..|w| - 1]), w[|w| - 1].0, w[|w| - 1].1, k);
    }
  }

  /** The values that are present, in order: what a loop that skips the absent ones collects. */
  function Present<T>(s: seq<Option<T>>): (r: seq<T>)
    ensures |r| <= |s|
  {
    if s == [] then [] else Present(s[..|s| - 1]) + (if s[|s| - 1].Some? then [s[|s| - 1].value] else [])
  }

  lemma PresentAppend<T>(s: seq<Option<T>>, x: Option<T>)
    ensures Present(s + [x]) == Present(s) + (if x.Some? then [x.value] else [])
  {
    assert (s + [x])[..|s|] == s;
  }

  /** Every present value is collected. */
  lemma {:induction false} PresentHas<T>(s: seq<Option<T>>, i: int)
    requires 0 <= i < |s| && s[i].Some?
    ensures s[i].value in Present(s)
  {
    var n := |s| - 1;
    if i < n {
      assert s[..n][i] == s[i];
      PresentHas(s[..n], i);
    }
  }

  /** Every collected value is present somewhere. */
  lemma {:induction false} PresentFrom<T>(s: seq<Option<T>>, x: T)
    requires x in Present(s)
    ensures exists i :: 0 <= i < |s| && s[i] == Some(x)
  {
    var n := |s| - 1;
    if x in Present(s[..n]) {
      PresentFrom(s[..n], x);
      var i :| 0 <= i < n && s[..n][i] == Some(x);
      assert s[i] == Some(x);
    } else {
      assert s[n] == Some(x);
    }
  }

  /** A list without repeated elements. */
  predicate Distinct<T(==)>(s: seq<T>) {
    forall i, j :: 0 <= i < j < |s| ==> s[i] != s[j]
  }

  /** Appending an element not yet present keeps a list without repeats. */
  lemma DistinctAppend<T>(s: seq<T>, x: T)
    requires Distinct(s) && x !in s
    ensures Distinct(s + [x])
  {
  }

  /** Removing one element keeps a list without repeats. */
  lemma DistinctRemove<T>(s: seq<T>, i: int)
    requires Distinct(s) && 0 <= i < |s|
    ensures Distinct(s[..i] + s[i + 1..])
  {
    var r := s[..i] + s[i + 1..];
    forall a, b | 0 <= a < b < |r| ensures r[a] != r[b] {
      var a' := if a < i then a else a + 1;
      var b' := if b < i then b else b + 1;
      assert r[a] == s[a'] && r[b] == s[b'];
    }
  }

  /** The real sum of a list of numbers, as `reduce((s, v) => s + v, 0)`. */
  function Sum(xs: seq<real>): real {
    if xs == [] then 0.0 else xs[0] + Sum(xs[1..])
  }

  lemma {:induction false} SumAppend(xs: seq<real>, ys: seq<real>)
    ensures Sum(xs + ys) == Sum(xs) + Sum(ys)
  {
    if xs == [] {
      assert xs + ys == ys;
    } else {
      assert (xs + ys)[1..] == xs[1..] + ys;
      SumAppend(xs[1..], ys);
    }
  }
}
