/** Values and small sequence helpers shared by every table model. */
module Common {

  datatype Option<T> = None | Some(value: T)

  /**
   * A Python value as the table models store it: the scalars a database row
   * carries, the delete-button marker object, and lists (a value group is a
   * list). A cell of a row is one Value, normally a List.
   */
  datatype Value =
    | Null
    | Int(i: int)
    | Real(r: real)
    | Text(s: string)
    | Bool(b: bool)
    | DeleteButton
    | List(items: seq<Value>)

  /** bool, int and float values, which Python compares as numbers. */
  predicate IsNumber(v: Value)
  {
    v.Int? || v.Real? || v.Bool?
  }

  function NumberOf(v: Value): real
    requires IsNumber(v)
  {
    match v
    case Int(i) => i as real
    case Real(x) => x
    case Bool(b) => if b then 1.0 else 0.0
  }

  /**
   * Python's `a == b` on stored values: None equals only None; bools, ints
   * and floats compare as numbers (True == 1 == 1.0); strings by content;
   * lists element by element. Every delete marker is taken to be the same
   * object.
   */
  predicate PyEq(a: Value, b: Value)
    decreases a
  {
    if IsNumber(a) || IsNumber(b) then IsNumber(a) && IsNumber(b) && NumberOf(a) == NumberOf(b)
    else match a
      case Null => b.Null?
      case Text(x) => b.Text? && b.s == x
      case DeleteButton => b.DeleteButton?
      case List(xs) => b.List? && |xs| == |b.items| && forall k :: 0 <= k < |xs| ==> PyEq(xs[k], b.items[k])
      case _ => false
  }

  /** Every value equals itself under Python's `==`. */
  lemma {:induction false} PyEqReflexive(a: Value)
    ensures PyEq(a, a)
    decreases a
  {
    if a.List? {
      forall k | 0 <= k < |a.items| ensures PyEq(a.items[k], a.items[k]) {
        PyEqReflexive(a.items[k]);
      }
    }
  }

  /** Python's `==` on stored values is symmetric. */
  lemma {:induction false} PyEqSymmetric(a: Value, b: Value)
    ensures PyEq(a, b) == PyEq(b, a)
    decreases a
  {
    if !IsNumber(a) && !IsNumber(b) && a.List? && b.List? && |a.items| == |b.items| {
      forall k | 0 <= k < |a.items| ensures PyEq(a.items[k], b.items[k]) == PyEq(b.items[k], a.items[k]) {
        PyEqSymmetric(a.items[k], b.items[k]);
      }
    }
  }

  /** Numbers of different types can be equal; None is not 0 and a string is not a number. */
  lemma {:induction false} PyEqAcrossTypes()
    ensures PyEq(Int(1), Real(1.0)) && PyEq(Bool(true), Int(1)) && PyEq(List([Int(1)]), List([Real(1.0)]))
    ensures !PyEq(Null, Int(0)) && !PyEq(Text("1"), Int(1)) && Int(1) != Real(1.0)
  {
  }

  /**
   * `old is None or old != value`: a missing previous value, a stored None,
   * or a value that Python finds different.
   */
  predicate Differs(previous: Option<Value>, v: Value)
  {
    previous.None? || previous.value == Null || !PyEq(previous.value, v)
  }

  /**
   * Python's `v[k]` for k >= 0: an element of a list, a one-character string
   * of a string, and an exception (None) for anything else or an index past
   * the end.
   */
  function Index(v: Value, k: nat): (r: Option<Value>)
    ensures v.List? && k < |v.items| ==> r == Some(v.items[k])
    ensures r.Some? <==> (v.List? && k < |v.items|) || (v.Text? && k < |v.s|)
  {
    match v
    case List(items) => if k < |items| then Some(items[k]) else None
    case Text(s) => if k < |s| then Some(Text([s[k]])) else None
    case _ => None
  }

  /**
   * Python's `v[lo:hi]` with 0 <= lo <= hi: a slice clamps to the length; a
   * string slices into its characters; anything else is an exception.
   */
  function Slice(v: Value, lo: nat, hi: nat): (r: Option<seq<Value>>)
    requires lo <= hi
    ensures v.List? ==> r.Some? && |r.value| == (if hi <= |v.items| then hi - lo else if lo <= |v.items| then |v.items| - lo else 0)
    ensures v.List? && hi <= |v.items| ==> r == Some(v.items[lo..hi])
    ensures r.Some? <==> v.List? || v.Text?
  {
    match v
    case List(items) =>
      if hi <= |items| then Some(items[lo..hi])
      else if lo <= |items| then Some(items[lo..])
      else Some([])
    case Text(s) =>
      var t := if hi <= |s| then s[lo..hi] else if lo <= |s| then s[lo..] else "";
      Some(seq(|t|, k requires 0 <= k < |t| => Text([t[k]])))
    case _ => None
  }

  function Repeat<T>(x: T, n: nat): (r: seq<T>)
    ensures |r| == n && forall k :: 0 <= k < n ==> r[k] == x
  {
    if n == 0 then [] else Repeat(x, n - 1) + [x]
  }

  /** Python's `sep.join(parts)`. */
  function Join(sep: string, parts: seq<string>): string
  {
    if |parts| == 0 then ""
    else if |parts| == 1 then parts[0]
    else Join(sep, parts[..|parts| - 1]) + sep + parts[|parts| - 1]
  }

  /** The concatenation of a sequence of sequences, left to right. */
  function Concat<T>(ss: seq<seq<T>>): seq<T>
  {
    if |ss| == 0 then [] else ss[0] + Concat(ss[1..])
  }

  lemma {:induction false} ConcatAppend<T>(ss: seq<seq<T>>, s: seq<T>)
    ensures Concat(ss + [s]) == Concat(ss) + s
  {
    if |ss| == 0 {
      assert ss + [s] == [s];
    } else {
      assert (ss + [s])[1..] == ss[1..] + [s];
      ConcatAppend(ss[1..], s);
    }
  }

  /** A concatenation splits around any one of its pieces. */
  lemma {:induction false} ConcatSplit<T>(ss: seq<seq<T>>, k: nat)
    requires k < |ss|
    ensures Concat(ss) == Concat(ss[..k]) + ss[k] + Concat(ss[k + 1..])
    decreases k
  {
    if k == 0 {
      assert ss[..0] == [];
      assert ss[1..] == ss[k + 1..];
    } else {
      ConcatSplit(ss[1..], k - 1);
      assert ss[1..][..k - 1] == ss[..k][1..];
      assert ss[1..][k - 1] == ss[k];
      assert ss[1..][k..] == ss[k + 1..];
    }
  }

  lemma {:induction false} JoinSingle(sep: string, x: string)
    ensures Join(sep, [x]) == x
  {
  }

  /** Joining one more part adds the separator and the part at the end. */
  lemma {:induction false} JoinAppend(sep: string, parts: seq<string>, x: string)
    requires |parts| > 0
    ensures Join(sep, parts + [x]) == Join(sep, parts) + sep + x
  {
    assert (parts + [x])[..|parts|] == parts;
  }
}
