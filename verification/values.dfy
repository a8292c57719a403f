/** The nested data the masking engine walks: Python's None, bool, int, float,
    str, list, tuple, set and dict, as one tagged variant. */
module Values {
  import opened Wrappers
  import opened Strings

  /** A dict keeps its entries in insertion order, as a Python dict does; a set
      keeps its elements in iteration order. Keys are strings, as they are once
      data has been through JSON. A float carries the text `str()` gives for it. */
  datatype Value =
    | Null
    | Bool(b: bool)
    | Int(i: int)
    | Float(text: string)
    | Str(s: string)
    | List(items: seq<Value>)
    | Tuple(items: seq<Value>)
    | Set(items: seq<Value>)
    | Dict(entries: seq<(string, Value)>)
  {
    predicate IsScalar() {
      Null? || Bool? || Int? || Float? || Str?
    }

    predicate IsSequence() {
      List? || Tuple? || Set?
    }
  }

  /** No duplicates: what a Python set or the keys of a Python dict always satisfy. */
  ghost predicate Distinct<T>(s: seq<T>) {
    forall i, j :: 0 <= i < j < |s| ==> s[i] != s[j]
  }

  function Keys(es: seq<(string, Value)>): (ks: seq<string>)
    ensures |ks| == |es|
    ensures forall i :: 0 <= i < |es| ==> ks[i] == es[i].0
  {
    seq(|es|, i requires 0 <= i < |es| => es[i].0)
  }

  /** Every dict has distinct keys and every set distinct elements, at every depth. */
  ghost predicate WellFormed(v: Value)
    decreases v
  {
    match v
    case List(xs) => forall i :: 0 <= i < |xs| ==> WellFormed(xs[i])
    case Tuple(xs) => forall i :: 0 <= i < |xs| ==> WellFormed(xs[i])
    case Set(xs) => Distinct(xs) && forall i :: 0 <= i < |xs| ==> WellFormed(xs[i])
    case Dict(es) => Distinct(Keys(es)) && forall i :: 0 <= i < |es| ==> WellFormed(es[i].1)
    case _ => true
  }

  /** Position of key `k` among `ks`, or `|ks|` when it is absent. */
  function KeyIndex(ks: seq<string>, k: string): (r: nat)
    ensures r <= |ks|
    ensures r < |ks| ==> ks[r] == k
    ensures forall j :: 0 <= j < r ==> ks[j] != k
    decreases |ks|
  {
    if |ks| == 0 then 0
    else if ks[0] == k then 0
    else 1 + KeyIndex(ks[1..], k)
  }

  /** `d.get(k)`: the value stored under `k`, if any. */
  function Lookup(es: seq<(string, Value)>, k: string): (r: Option<Value>)
    ensures r.Some? <==> k in Keys(es)
    ensures r.Some? ==> r.value == es[KeyIndex(Keys(es), k)].1
  {
    var i := KeyIndex(Keys(es), k);
    if i < |es| then Some(es[i].1) else None
  }

  /** `d[k] = x` for a key already present; the entry keeps its position. */
  function Store(es: seq<(string, Value)>, k: string, x: Value): (r: seq<(string, Value)>)
    ensures Keys(r) == Keys(es)
    ensures k in Keys(es) ==> Lookup(r, k) == Some(x)
    ensures forall k' :: k' != k ==> Lookup(r, k') == Lookup(es, k')
  {
    var i := KeyIndex(Keys(es), k);
    if i < |es| then
      var r := es[i := (k, x)];
      assert Keys(r) == Keys(es);
      r
    else es
  }

  /** One step into a value: a dict key, or a list position (jsonpath descends
      into lists, not into tuples or sets). */
  datatype Key = Field(name: string) | Index(i: nat)

  /** A concrete location inside a value: the keys from the root down. */
  type Loc = seq<Key>

  function Get(v: Value, key: Key): Option<Value> {
    match key
    case Field(k) => if v.Dict? then Lookup(v.entries, k) else None
    case Index(i) => if v.List? && i < |v.items| then Some(v.items[i]) else None
  }

  function Put(v: Value, key: Key, x: Value): Value {
    match key
    case Field(k) => if v.Dict? then Dict(Store(v.entries, k, x)) else v
    case Index(i) => if v.List? && i < |v.items| then List(v.items[i := x]) else v
  }

  /** The value found at `loc`, or None when the location does not exist. */
  function At(v: Value, loc: Loc): Option<Value>
    decreases |loc|
  {
    if |loc| == 0 then Some(v)
    else
      match Get(v, loc[0])
      case None => None
      case Some(c) => At(c, loc[1..])
  }

  /** Writes `x` at `loc`; a location that does not exist leaves `v` as it is. */
  function SetAt(v: Value, loc: Loc, x: Value): Value
    decreases |loc|
  {
    if |loc| == 0 then x
    else
      match Get(v, loc[0])
      case None => v
      case Some(c) => Put(v, loc[0], SetAt(c, loc[1..], x))
  }

  /** The location of a path made of dict keys only. */
  function FieldLoc(ks: seq<string>): (l: Loc)
    ensures |l| == |ks|
    ensures forall i :: 0 <= i < |ks| ==> l[i] == Field(ks[i])
  {
    seq(|ks|, i requires 0 <= i < |ks| => Field(ks[i]))
  }

  /** Following one more dict key from where a key path leads. */
  lemma AtFieldLocSnoc(v: Value, ks: seq<string>, k: string)
    ensures At(v, FieldLoc(ks + [k]))
         == match At(v, FieldLoc(ks)) { case None => None case Some(x) => Get(x, Field(k)) }
  {
    assert FieldLoc(ks + [k]) == FieldLoc(ks) + [Field(k)];
    AtAppend(v, FieldLoc(ks), [Field(k)]);
  }

  /** Neither location lies inside the other. */
  predicate Apart(l1: Loc, l2: Loc) {
    !(l1 <= l2) && !(l2 <= l1)
  }

  lemma GetPut(v: Value, key: Key, key': Key, x: Value)
    ensures Get(v, key).Some? && key' == key ==> Get(Put(v, key, x), key') == Some(x)
    ensures key' != key ==> Get(Put(v, key, x), key') == Get(v, key')
  {
  }

  /** Reading a path in two parts. */
  lemma {:induction false} AtAppend(v: Value, a: Loc, b: Loc)
    ensures At(v, a + b) == match At(v, a) { case None => None case Some(x) => At(x, b) }
    decreases |a|
  {
    if |a| == 0 {
      assert a + b == b;
    } else {
      assert (a + b)[0] == a[0] && (a + b)[1..] == a[1..] + b;
      match Get(v, a[0])
      case None =>
      case Some(c) =>
        AtAppend(c, a[1..], b);
        assert At(v, a + b) == At(c, a[1..] + b);
        assert At(v, a) == At(c, a[1..]);
    }
  }

  /** After a write at an existing location, that location holds the new value. */
  lemma {:induction false} AtSetAtSame(v: Value, loc: Loc, x: Value)
    requires At(v, loc).Some?
    ensures At(SetAt(v, loc, x), loc) == Some(x)
    decreases |loc|
  {
    if |loc| > 0 {
      var c := Get(v, loc[0]).value;
      AtSetAtSame(c, loc[1..], x);
      GetPut(v, loc[0], loc[0], SetAt(c, loc[1..], x));
    }
  }

  /** A write at a missing location changes nothing. */
  lemma {:induction false} SetAtMissing(v: Value, loc: Loc, x: Value)
    requires At(v, loc).None?
    ensures SetAt(v, loc, x) == v
    decreases |loc|
  {
    if |loc| > 0 {
      match Get(v, loc[0])
      case None =>
      case Some(c) =>
        SetAtMissing(c, loc[1..], x);
        match loc[0]
        case Field(k) =>
          var i := KeyIndex(Keys(v.entries), k);
          assert v.entries[i := (k, c)] == v.entries;
        case Index(n) =>
          assert v.items[n := c] == v.items;
    }
  }

  /** A write at one location leaves every location apart from it as it was:
      siblings, cousins and everything outside the rewritten subtree. */
  lemma {:induction false} AtSetAtApart(v: Value, loc: Loc, x: Value, q: Loc)
    requires Apart(loc, q)
    ensures At(SetAt(v, loc, x), q) == At(v, q)
    decreases |loc|
  {
    assert |loc| > 0 && |q| > 0;
    match Get(v, loc[0])
    case None =>
    case Some(c) =>
      var c' := SetAt(c, loc[1..], x);
      if loc[0] == q[0] {
        assert Apart(loc[1..], q[1..]) by {
          assert loc == [loc[0]] + loc[1..] && q == [q[0]] + q[1..];
        }
        AtSetAtApart(c, loc[1..], x, q[1..]);
        GetPut(v, loc[0], q[0], c');
      } else {
        GetPut(v, loc[0], q[0], c');
      }
  }

  /** A write never moves or removes the locations of the value it changes:
      every location that existed still exists. */
  lemma {:induction false} SetAtKeepsLocations(v: Value, loc: Loc, x: Value, q: Loc)
    requires At(v, q).Some?
    requires !(loc <= q)
    ensures At(SetAt(v, loc, x), q).Some?
    decreases |q|
  {
    if !(q <= loc) {
      AtSetAtApart(v, loc, x, q);
    } else if |q| > 0 {
      var c := Get(v, loc[0]).value;
      assert q[0] == loc[0];
      GetPut(v, loc[0], loc[0], SetAt(c, loc[1..], x));
      SetAtKeepsLocations(c, loc[1..], x, q[1..]);
    }
  }

  // ---------------------------------------------------------------------
  // str() of a value, as Python prints it

  /** `repr()` of a value as it appears inside a printed container. Strings are
      quoted with single quotes; escaping of quotes inside strings is not modelled. */
  function Repr(v: Value): string
    decreases v
  {
    match v
    case Null => "None"
    case Bool(b) => if b then "True" else "False"
    case Int(i) => IntToString(i)
    case Float(t) => t
    case Str(s) => "'" + s + "'"
    case List(xs) => "[" + JoinWith(seq(|xs|, i requires 0 <= i < |xs| => Repr(xs[i])), ", ") + "]"
    case Tuple(xs) =>
      if |xs| == 1 then "(" + Repr(xs[0]) + ",)"
      else "(" + JoinWith(seq(|xs|, i requires 0 <= i < |xs| => Repr(xs[i])), ", ") + ")"
    case Set(xs) =>
      if |xs| == 0 then "set()"
      else "{" + JoinWith(seq(|xs|, i requires 0 <= i < |xs| => Repr(xs[i])), ", ") + "}"
    case Dict(es) =>
      "{" + JoinWith(seq(|es|, i requires 0 <= i < |es| => "'" + es[i].0 + "': " + Repr(es[i].1)), ", ") + "}"
  }

  /** Python's `str(v)`: a string is itself, everything else its `repr()`. */
  function Render(v: Value): (r: string)
    ensures v.Str? ==> r == v.s
    ensures v.Int? ==> r == IntToString(v.i)
  {
    if v.Str? then v.s else Repr(v)
  }

  // ---------------------------------------------------------------------
  // The JSON round trip `json.loads(json.dumps(v))`

  /** Data JSON can carry unchanged: no tuples and no sets at any depth. */
  ghost predicate IsJson(v: Value)
    decreases v
  {
    match v
    case Tuple(_) => false
    case Set(_) => false
    case List(xs) => forall i :: 0 <= i < |xs| ==> IsJson(xs[i])
    case Dict(es) => forall i :: 0 <= i < |es| ==> IsJson(es[i].1)
    case _ => true
  }

  /** All present, and then their contents; None as soon as one is missing. */
  function AllSome<T>(ns: seq<Option<T>>): (r: Option<seq<T>>)
    ensures r.Some? <==> forall i :: 0 <= i < |ns| ==> ns[i].Some?
    ensures r.Some? ==> |r.value| == |ns| && forall i :: 0 <= i < |ns| ==> ns[i] == Some(r.value[i])
  {
    if forall i :: 0 <= i < |ns| ==> ns[i].Some?
    then Some(seq(|ns|, i requires 0 <= i < |ns| => ns[i].value))
    else None
  }

  /** `json.loads(json.dumps(v))`: tuples come back as lists; a set cannot be
      serialised (None). */
  function JsonRoundTrip(v: Value): (r: Option<Value>)
    decreases v
  {
    match v
    case Set(_) => None
    case List(xs) =>
      (match AllSome(seq(|xs|, i requires 0 <= i < |xs| => JsonRoundTrip(xs[i])))
       case None => None
       case Some(ys) => Some(List(ys)))
    case Tuple(xs) =>
      (match AllSome(seq(|xs|, i requires 0 <= i < |xs| => JsonRoundTrip(xs[i])))
       case None => None
       case Some(ys) => Some(List(ys)))
    case Dict(es) =>
      (match AllSome(seq(|es|, i requires 0 <= i < |es| => JsonRoundTrip(es[i].1)))
       case None => None
       case Some(ys) => Some(Dict(seq(|es|, i requires 0 <= i < |es| && |ys| == |es| => (es[i].0, ys[i])))))
    case _ => Some(v)
  }

  /** Data that is already JSON survives the round trip unchanged. */
  lemma {:induction false} JsonRoundTripOfJson(v: Value)
    requires IsJson(v)
    ensures JsonRoundTrip(v) == Some(v)
    decreases v
  {
    match v
    case List(xs) =>
      var ns := seq(|xs|, i requires 0 <= i < |xs| => JsonRoundTrip(xs[i]));
      forall i | 0 <= i < |xs| ensures ns[i] == Some(xs[i]) {
        JsonRoundTripOfJson(xs[i]);
      }
      assert AllSome(ns).value == xs;
    case Dict(es) =>
      var ns := seq(|es|, i requires 0 <= i < |es| => JsonRoundTrip(es[i].1));
      forall i | 0 <= i < |es| ensures ns[i] == Some(es[i].1) {
        JsonRoundTripOfJson(es[i].1);
      }
      var ys := AllSome(ns).value;
      assert seq(|es|, i requires 0 <= i < |es| && |ys| == |es| => (es[i].0, ys[i])) == es;
    case _ =>
  }

  /** Whatever the round trip returns is JSON: the normalised data has no tuples or sets. */
  lemma {:induction false} JsonRoundTripIsJson(v: Value)
    requires JsonRoundTrip(v).Some?
    ensures IsJson(JsonRoundTrip(v).value)
    decreases v
  {
    match v
    case List(xs) =>
      var ns := seq(|xs|, i requires 0 <= i < |xs| => JsonRoundTrip(xs[i]));
      assert AllSome(ns).Some?;
      forall i | 0 <= i < |xs| ensures IsJson(AllSome(ns).value[i]) {
        assert ns[i] == JsonRoundTrip(xs[i]);
        JsonRoundTripIsJson(xs[i]);
      }
    case Tuple(xs) =>
      var ns := seq(|xs|, i requires 0 <= i < |xs| => JsonRoundTrip(xs[i]));
      assert AllSome(ns).Some?;
      forall i | 0 <= i < |xs| ensures IsJson(AllSome(ns).value[i]) {
        assert ns[i] == JsonRoundTrip(xs[i]);
        JsonRoundTripIsJson(xs[i]);
      }
    case Dict(es) =>
      var ns := seq(|es|, i requires 0 <= i < |es| => JsonRoundTrip(es[i].1));
      assert AllSome(ns).Some?;
      forall i | 0 <= i < |es| ensures IsJson(AllSome(ns).value[i]) {
        assert ns[i] == JsonRoundTrip(es[i].1);
        JsonRoundTripIsJson(es[i].1);
      }
    case _ =>
  }
}
