/** The Python values that flow through the backend: documents read from the
    document store, JSON request bodies, and what the literal parsers return
    for the legacy text fields. A Python dict keeps its insertion order, so a
    document is a sequence of entries looked up by first match. */
module PyValues {
  import opened Wrappers

  /** A Python float: a finite real or NaN. */
  datatype Float = Finite(r: real) | NaN

  /** A digit of a printed ObjectId, which `str` writes in lower case. */
  predicate IsLowerHexDigit(c: char) {
    '0' <= c <= '9' || 'a' <= c <= 'f'
  }

  /** The 24 hexadecimal digits that print a bson ObjectId. */
  type OidHex = s: string | |s| == 24 && forall i :: 0 <= i < |s| ==> IsLowerHexDigit(s[i])
    witness "000000000000000000000000"

  datatype Value =
    | Null                     // None
    | Bool(b: bool)
    | Int(i: int)
    | Num(f: Float)            // a Python float
    | Str(s: string)
    | Oid(hex: OidHex)         // a bson ObjectId
    | List(items: seq<Value>)
    | Tuple(elems: seq<Value>)
    | Dict(entries: seq<Entry>)

  datatype Entry = Entry(key: string, val: Value)

  /** A store document or any other dict, in insertion order. */
  type Document = seq<Entry>

  function Keys(d: Document): (ks: seq<string>)
    ensures |ks| == |d|
  {
    if |d| == 0 then [] else [d[0].key] + Keys(d[1..])
  }

  /** Two documents with the same keys at the same places have the same
      key sequence. */
  lemma {:induction false} KeysAgree(a: Document, b: Document)
    requires |a| == |b|
    requires forall i :: 0 <= i < |a| ==> a[i].key == b[i].key
    ensures Keys(a) == Keys(b)
  {
    if |a| > 0 {
      KeysAgree(a[1..], b[1..]);
    }
  }

  /** `k in d`: the lookup finds the key. */
  predicate HasKey(d: Document, k: string) {
    Get(d, k).Some?
  }

  /** `d.get(k)`: the value of the first entry under `k`. */
  function Get(d: Document, k: string): Option<Value> {
    if |d| == 0 then None
    else if d[0].key == k then Some(d[0].val)
    else Get(d[1..], k)
  }

  /** A lookup finds a value exactly when some entry carries the key, and
      the value is one stored under it. */
  lemma {:induction false} GetFound(d: Document, k: string)
    ensures HasKey(d, k) <==> exists i :: 0 <= i < |d| && d[i].key == k
    ensures HasKey(d, k) ==> exists i :: 0 <= i < |d| && d[i].key == k && d[i].val == Get(d, k).value
  {
    if |d| > 0 && d[0].key != k {
      GetFound(d[1..], k);
      if HasKey(d, k) {
        var i :| 0 <= i < |d[1..]| && d[1..][i].key == k && d[1..][i].val == Get(d, k).value;
        assert d[i + 1] == d[1..][i];
      }
      if exists i :: 0 <= i < |d| && d[i].key == k {
        var i :| 0 <= i < |d| && d[i].key == k;
        assert d[1..][i - 1] == d[i];
      }
    } else if |d| > 0 {
      assert d[0].key == k;
    }
  }

  /** The value of the first entry with the key is what a lookup finds. */
  lemma {:induction false} GetFirst(d: Document, k: string, i: nat)
    requires i < |d| && d[i].key == k
    requires forall j :: 0 <= j < i ==> d[j].key != k
    ensures Get(d, k) == Some(d[i].val)
  {
    if i > 0 {
      GetFirst(d[1..], k, i - 1);
    }
  }

  /** `d.get(k, default)` */
  function GetOr(d: Document, k: string, default: Value): Value {
    Get(d, k).GetOr(default)
  }

  /** `d[k] = v`: an existing key keeps its place, a new key goes last. */
  function Set(d: Document, k: string, v: Value): (r: Document)
    ensures Get(r, k) == Some(v)
    ensures forall j :: j != k ==> Get(r, j) == Get(d, j)
  {
    if |d| == 0 then [Entry(k, v)]
    else if d[0].key == k then
      var r := [Entry(k, v)] + d[1..];
      assert r[1..] == d[1..];
      r
    else
      var rest := Set(d[1..], k, v);
      var r := [d[0]] + rest;
      assert r[0] == d[0] && r[1..] == rest;
      r
  }

  /** Setting a new key appends it. */
  lemma {:induction false} SetNew(d: Document, k: string, v: Value)
    requires !HasKey(d, k)
    ensures Set(d, k, v) == d + [Entry(k, v)]
  {
    if |d| > 0 {
      assert d[0].key != k;
      SetNew(d[1..], k, v);
      assert [d[0]] + (d[1..] + [Entry(k, v)]) == d + [Entry(k, v)];
    }
  }

  lemma {:induction false} SetKeys(d: Document, k: string, v: Value)
    ensures Keys(Set(d, k, v)) == if HasKey(d, k) then Keys(d) else Keys(d) + [k]
  {
    if |d| > 0 && d[0].key != k {
      SetKeys(d[1..], k, v);
      var r := Set(d, k, v);
      assert r[1..] == Set(d[1..], k, v);
    } else if |d| > 0 {
      assert HasKey(d, k) by { assert d[0].key == k; }
    }
  }

  /** Python truthiness (`if x:`); NaN is truthy, as in Python. */
  predicate Truthy(v: Value) {
    match v
    case Null => false
    case Bool(b) => b
    case Int(i) => i != 0
    case Num(f) => f != Finite(0.0)
    case Str(s) => |s| > 0
    case Oid(_) => true
    case List(xs) => |xs| > 0
    case Tuple(xs) => |xs| > 0
    case Dict(es) => |es| > 0
  }

  /** Python's rules for `bool(x)`: a container or a str is true exactly
      when it is not empty, and a number exactly when it is not equal to 0
      (NaN equals nothing, so it is true). */
  lemma TruthyRules(v: Value)
    ensures Iterate(v).Some? ==> (Truthy(v) <==> |Iterate(v).value| > 0)
    ensures NumericValue(v).Some? ==> (Truthy(v) <==> !EqualsNumber(v, 0.0))
    ensures v == Num(NaN) ==> Truthy(v)
  {
  }

  /** Whether a value can be a dict key or a set element; hashing a list
      or a dict raises TypeError. */
  predicate Hashable(v: Value)
    decreases v
  {
    match v
    case List(_) => false
    case Dict(_) => false
    case Tuple(xs) => forall i :: 0 <= i < |xs| ==> Hashable(xs[i])
    case _ => true
  }

  /** Lists and dicts are unhashable, every scalar is hashable, and a tuple
      is hashable exactly when all its elements are. */
  lemma HashableKinds(v: Value)
    ensures v.List? || v.Dict? ==> !Hashable(v)
    ensures !(v.List? || v.Dict? || v.Tuple?) ==> Hashable(v)
    ensures v.Tuple? ==> (Hashable(v) <==> forall i :: 0 <= i < |v.elems| ==> Hashable(v.elems[i]))
  {
  }

  /** The number a value stands for under Python's `==` between numbers
      (bools are the integers 0 and 1); None for anything else and for NaN,
      which equals nothing. */
  function NumericValue(v: Value): Option<real> {
    match v
    case Bool(b) => Some(if b then 1.0 else 0.0)
    case Int(i) => Some(i as real)
    case Num(Finite(r)) => Some(r)
    case _ => None
  }

  /** `v == x` for a numeric literal `x`. */
  predicate EqualsNumber(v: Value, x: real) {
    NumericValue(v) == Some(x)
  }

  /** The items `for item in v` visits: a list's or tuple's elements, a
      string's characters, a dict's keys; None when iterating raises
      TypeError. */
  function Iterate(v: Value): (r: Option<seq<Value>>)
    ensures r.Some? <==> v.List? || v.Tuple? || v.Str? || v.Dict?
    ensures v.List? ==> r == Some(v.items)
    ensures v.Tuple? ==> r == Some(v.elems)
    ensures v.Str? ==> |r.value| == |v.s| && forall i :: 0 <= i < |v.s| ==> r.value[i] == Str([v.s[i]])
    ensures v.Dict? ==> |r.value| == |v.entries| && forall i :: 0 <= i < |v.entries| ==> r.value[i] == Str(v.entries[i].key)
  {
    match v
    case List(xs) => Some(xs)
    case Tuple(xs) => Some(xs)
    case Str(s) => Some(seq(|s|, i requires 0 <= i < |s| => Str([s[i]])))
    case Dict(es) => Some(seq(|es|, i requires 0 <= i < |es| => Str(es[i].key)))
    case _ => None
  }

  /** `int(r)` for a finite float: truncation toward zero. */
  function TruncToInt(r: real): (n: int)
    ensures r >= 0.0 ==> n as real <= r < n as real + 1.0
    ensures r < 0.0 ==> n as real - 1.0 < r <= n as real
  {
    if r >= 0.0 then r.Floor else -((-r).Floor)
  }

  /** The exception a literal parser raises, as far as its callers tell
      them apart: `ast.literal_eval` raises ValueError, SyntaxError or
      TypeError (an unhashable dict key, for instance), and `eval` can
      also raise anything else (NameError on an unknown name, among
      others). */
  datatype ParseFailure = SyntaxFailure | ValueFailure | TypeFailure | OtherFailure

  /** The text parsers the backend calls and that are not modelled here:
      `ast.literal_eval`, `eval` with the null/NaN namespace, and the
      string cases of `int()` and `float()`. The literal parsers give the
      value or the exception they raise; `int()` and `float()` on a str
      raise only ValueError, which is None. */
  datatype Parsers = Parsers(
    literalEval: string -> Result<Value, ParseFailure>,
    evalLiteral: string -> Result<Value, ParseFailure>,
    intOfStr: string -> Option<int>,
    floatOfStr: string -> Option<Float>)

  /** `int(v)`; None where Python raises ValueError or TypeError. */
  function PyInt(v: Value, p: Parsers): (r: Option<int>)
    ensures v.Int? ==> r == Some(v.i)
    ensures v.Null? || v.List? || v.Tuple? || v.Dict? || v.Oid? || v == Num(NaN) ==> r.None?
  {
    match v
    case Bool(b) => Some(if b then 1 else 0)
    case Int(i) => Some(i)
    case Num(Finite(x)) => Some(TruncToInt(x))
    case Str(s) => p.intOfStr(s)
    case _ => None
  }

  /** `float(v)`; None where Python raises ValueError or TypeError. */
  function PyFloat(v: Value, p: Parsers): (r: Option<Float>)
    ensures v.Num? ==> r == Some(v.f)
    ensures v.Int? ==> r == Some(Finite(v.i as real))
    ensures v.Null? || v.List? || v.Tuple? || v.Dict? || v.Oid? ==> r.None?
  {
    match v
    case Bool(b) => Some(Finite(if b then 1.0 else 0.0))
    case Int(i) => Some(Finite(i as real))
    case Num(f) => Some(f)
    case Str(s) => p.floatOfStr(s)
    case _ => None
  }

  /** `f > x` on a Python float; NaN compares false. */
  predicate FloatGreater(f: Float, x: real) {
    f.Finite? && f.r > x
  }
}
