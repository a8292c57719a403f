/** Path expressions over nested data: the jsonpath subset the masking engine
    accepts (`a.'1'.None`, `a..'4'`, `$.email`), their parser, and the locations
    a path selects inside a value. */
module JsonPath {
  import opened Wrappers
  import opened Values

  /** `$` (the root), a dict key (`.key` or `.'key'`), or a dict key searched at
      every depth below the current node (`..key`). */
  datatype Step = Root | Child(key: string) | Descend(key: string)

  type Path = seq<Step>

  // ---------------------------------------------------------------------
  // Parsing

  predicate IsIdStart(c: char) {
    'a' <= c <= 'z' || 'A' <= c <= 'Z' || c == '_' || c == '@'
  }

  predicate IsIdChar(c: char) {
    IsIdStart(c) || '0' <= c <= '9' || c == '-'
  }

  /** Length of the longest prefix of identifier characters. */
  function IdLength(s: string): (n: nat)
    ensures n <= |s|
    ensures forall i :: 0 <= i < n ==> IsIdChar(s[i])
    ensures n < |s| ==> !IsIdChar(s[n])
    decreases |s|
  {
    if |s| == 0 || !IsIdChar(s[0]) then 0 else 1 + IdLength(s[1..])
  }

  /** Position of the first single quote, or `|s|` when there is none. */
  function QuoteIndex(s: string): (n: nat)
    ensures n <= |s|
    ensures forall i :: 0 <= i < n ==> s[i] != '\''
    ensures n < |s| ==> s[n] == '\''
    decreases |s|
  {
    if |s| == 0 || s[0] == '\'' then 0 else 1 + QuoteIndex(s[1..])
  }

  datatype Segment = RootSegment | Name(name: string)

  /** One segment at the head of `s` and the number of characters it takes:
      `$`, a quoted `'...'` name, or a bare identifier. */
  function ParseSegment(s: string): (r: Result<(Segment, nat), string>)
    ensures r.Success? ==> 0 < r.value.1 <= |s|
  {
    if |s| == 0 then Failure("expected a path segment")
    else if s[0] == '$' then Success((RootSegment, 1))
    else if s[0] == '\'' then
      var j := QuoteIndex(s[1..]);
      if j == |s| - 1 then Failure("unterminated quoted segment")
      else Success((Name(s[1..j + 1]), j + 2))
    else if IsIdStart(s[0]) then
      var n := IdLength(s);
      Success((Name(s[..n]), n))
    else Failure("unexpected character in path")
  }

  function StepOf(seg: Segment, descend: bool): Step {
    match seg
    case RootSegment => Root
    case Name(k) => if descend then Descend(k) else Child(k)
  }

  /** Parses segments separated by `.` or `..`; `descend` says the segment at the
      head of `s` followed a `..`. */
  function ParseFrom(s: string, descend: bool): (r: Result<Path, string>)
    ensures r.Success? ==> |r.value| >= 1
    decreases |s|, 1
  {
    match ParseSegment(s)
    case Failure(e) => Failure(e)
    case Success((seg, n)) =>
      if descend && seg.RootSegment? then Failure("root after recursive descent")
      else ParseAfter(StepOf(seg, descend), s[n..])
  }

  /** What follows a parsed step: the end of the text, `..`, or `.`. */
  function ParseAfter(step: Step, rest: string): (r: Result<Path, string>)
    ensures r.Success? ==> |r.value| >= 1 && r.value[0] == step
    decreases |rest|, 0
  {
    if |rest| == 0 then Success([step])
    else if |rest| >= 2 && rest[0] == '.' && rest[1] == '.' then
      (match ParseFrom(rest[2..], true)
       case Failure(e) => Failure(e)
       case Success(p) => Success([step] + p))
    else if rest[0] == '.' then
      (match ParseFrom(rest[1..], false)
       case Failure(e) => Failure(e)
       case Success(p) => Success([step] + p))
    else Failure("unexpected character after segment")
  }

  /** A path expression; the empty text and a trailing `.` or `..` are malformed. */
  function Parse(s: string): (r: Result<Path, string>)
    ensures r.Success? ==> |r.value| >= 1 && !r.value[0].Descend?
  {
    ParseFrom(s, false)
  }

  /** The head segment of a text ending in `.` never takes that dot. */
  lemma SegmentBeforeDot(s: string)
    requires ParseSegment(s + ".").Success?
    ensures ParseSegment(s + ".").value.1 <= |s|
  {
    var t := s + ".";
    assert t[|s|] == '.';
    if t[0] == '\'' {
      var j := QuoteIndex(t[1..]);
      assert t[1..][j] == '\'';
      assert t[j + 1] == '\'';
    }
  }

  lemma SuffixBeforeDot(s: string, n: nat)
    requires n <= |s|
    ensures (s + ".")[n..] == s[n..] + "."
  {
  }

  /** A path whose text ends in a separator is malformed. */
  lemma {:induction false} TrailingDotRejected(s: string, descend: bool)
    ensures ParseFrom(s + ".", descend).Failure?
    decreases |s|, 1
  {
    var r := ParseSegment(s + ".");
    if r.Success? && !(descend && r.value.0.RootSegment?) {
      var (seg, n) := r.value;
      SegmentBeforeDot(s);
      SuffixBeforeDot(s, n);
      TrailingDotAfter(StepOf(seg, descend), s[n..]);
    }
  }

  /** What follows a step, when it ends in a separator, is malformed. */
  lemma {:induction false} TrailingDotAfter(step: Step, u: string)
    ensures ParseAfter(step, u + ".").Failure?
    decreases |u|, 0
  {
    var rest := u + ".";
    if |u| == 0 {
      assert rest[1..] == "";
      assert ParseFrom(rest[1..], false).Failure?;
    } else if |u| == 1 && u[0] == '.' {
      assert rest[2..] == "";
      assert ParseFrom(rest[2..], true).Failure?;
    } else if |u| >= 2 && u[0] == '.' && u[1] == '.' {
      assert rest[2..] == u[2..] + ".";
      TrailingDotRejected(u[2..], true);
    } else if u[0] == '.' {
      assert rest[1..] == u[1..] + ".";
      TrailingDotRejected(u[1..], false);
    }
  }

  // ---------------------------------------------------------------------
  // Printing: the inverse of Parse

  function Quote(k: string): string {
    "'" + k + "'"
  }

  function FormatSegment(st: Step): string {
    match st
    case Root => "$"
    case Child(k) => Quote(k)
    case Descend(k) => Quote(k)
  }

  function FormatRest(p: Path): string
    decreases |p|
  {
    if |p| == 0 then ""
    else (if p[0].Descend? then ".." else ".") + FormatSegment(p[0]) + FormatRest(p[1..])
  }

  /** Writes a path with every key quoted. */
  function Format(p: Path): string
    requires |p| >= 1
  {
    FormatSegment(p[0]) + FormatRest(p[1..])
  }

  /** A path that has a written form: non-empty, not starting with `..`, and no
      key holding a quote character. */
  predicate Printable(p: Path) {
    |p| >= 1 && !p[0].Descend? && QuoteFree(p)
  }

  lemma ParseQuoted(k: string, rest: string)
    requires '\'' !in k
    ensures ParseSegment(Quote(k) + rest) == Success((Name(k), |k| + 2))
  {
    var s := Quote(k) + rest;
    assert s[1..] == k + "'" + rest;
    assert s[1..][|k|] == '\'';
    assert QuoteIndex(s[1..]) == |k|;
    assert s[1..|k| + 1] == k;
  }

  lemma SegmentOfFormat(st: Step, descend: bool, rest: string)
    requires st.Descend? == descend
    requires !st.Root? ==> '\'' !in st.key
    ensures ParseSegment(FormatSegment(st) + rest).Success?
    ensures ParseSegment(FormatSegment(st) + rest).value.1 == |FormatSegment(st)|
    ensures StepOf(ParseSegment(FormatSegment(st) + rest).value.0, descend) == st
    ensures ParseSegment(FormatSegment(st) + rest).value.0.RootSegment? == st.Root?
  {
    if !st.Root? {
      ParseQuoted(st.key, rest);
    }
  }

  /** No key of the path holds a quote character. */
  predicate QuoteFree(p: Path) {
    forall i :: 0 <= i < |p| && !p[i].Root? ==> '\'' !in p[i].key
  }

  lemma QuoteFreeTail(p: Path)
    requires |p| >= 1 && QuoteFree(p)
    ensures QuoteFree(p[1..]) && (!p[0].Root? ==> '\'' !in p[0].key)
  {
    forall i | 0 <= i < |p| - 1 && !p[1..][i].Root? ensures '\'' !in p[1..][i].key {
      assert p[1..][i] == p[i + 1];
    }
  }

  lemma FormatSegmentHead(st: Step)
    ensures |FormatSegment(st)| >= 1 && FormatSegment(st)[0] != '.'
  {
  }

  /** The head segment of a printed path parses back to its first step. */
  lemma ParseFromFormatHead(p: Path, descend: bool)
    requires |p| >= 1 && p[0].Descend? == descend && QuoteFree(p)
    ensures ParseFrom(FormatSegment(p[0]) + FormatRest(p[1..]), descend) == ParseAfter(p[0], FormatRest(p[1..]))
  {
    var rest := FormatRest(p[1..]);
    QuoteFreeTail(p);
    SegmentOfFormat(p[0], descend, rest);
    assert (FormatSegment(p[0]) + rest)[|FormatSegment(p[0])|..] == rest;
  }

  lemma {:induction false} ParseFromFormat(p: Path, descend: bool)
    requires |p| >= 1
    requires p[0].Descend? == descend
    requires QuoteFree(p)
    ensures ParseFrom(FormatSegment(p[0]) + FormatRest(p[1..]), descend) == Success(p)
    decreases |p|, 0
  {
    ParseFromFormatHead(p, descend);
    if |p| > 1 {
      QuoteFreeTail(p);
      ParseAfterFormat(p[0], p[1..]);
      assert [p[0]] + p[1..] == p;
    } else {
      assert FormatRest(p[1..]) == "";
      assert p == [p[0]];
    }
  }


  lemma {:induction false} ParseAfterFormat(st: Step, q: Path)
    requires |q| >= 1
    requires QuoteFree(q)
    ensures ParseAfter(st, FormatRest(q)) == Success([st] + q)
    decreases |q|, 1
  {
    ParseFromFormat(q, q[0].Descend?);
    FormatSegmentHead(q[0]);
    FormatRestSplit(q);
    ParseAfterSeparator(st, FormatSegment(q[0]) + FormatRest(q[1..]), q[0].Descend?);
  }

  lemma FormatRestSplit(q: Path)
    requires |q| >= 1
    ensures FormatRest(q) == (if q[0].Descend? then ".." else ".") + (FormatSegment(q[0]) + FormatRest(q[1..]))
  {
  }

  /** A separator after a step, then a segment that does not start with a dot:
      `..` makes the segment a recursive descent. */
  lemma ParseAfterSeparator(st: Step, tail: string, descend: bool)
    requires |tail| >= 1 && tail[0] != '.'
    requires ParseFrom(tail, descend).Success?
    ensures ParseAfter(st, (if descend then ".." else ".") + tail) == Success([st] + ParseFrom(tail, descend).value)
  {
    var rest := (if descend then ".." else ".") + tail;
    if descend {
      assert rest[2..] == tail;
    } else {
      assert rest[1..] == tail;
      assert rest[1] == tail[0];
    }
  }

  /** Printing a path and parsing the text gives the path back. */
  lemma ParseFormat(p: Path)
    requires Printable(p)
    ensures Parse(Format(p)) == Success(p)
  {
    ParseFromFormat(p, false);
  }

  // ---------------------------------------------------------------------
  // The locations a path selects

  function Prepend(key: Key, ls: seq<Loc>): (r: seq<Loc>)
    ensures |r| == |ls|
    ensures forall j :: 0 <= j < |ls| ==> r[j] == [key] + ls[j]
  {
    seq(|ls|, j requires 0 <= j < |ls| => [key] + ls[j])
  }

  function Flatten(lss: seq<seq<Loc>>): seq<Loc>
    decreases |lss|
  {
    if |lss| == 0 then [] else lss[0] + Flatten(lss[1..])
  }

  lemma {:induction false} InFlatten(lss: seq<seq<Loc>>, i: nat, l: Loc)
    requires i < |lss| && l in lss[i]
    ensures l in Flatten(lss)
    decreases i
  {
    if i > 0 {
      InFlatten(lss[1..], i - 1, l);
    }
  }

  lemma {:induction false} FlattenIn(lss: seq<seq<Loc>>, l: Loc) returns (i: nat)
    requires l in Flatten(lss)
    ensures i < |lss| && l in lss[i]
    decreases |lss|
  {
    if l in lss[0] {
      i := 0;
    } else {
      var j := FlattenIn(lss[1..], l);
      i := j + 1;
    }
  }

  /** The locations, relative to `v`, of key `k` in every dict at any depth of
      `v` (including `v` itself), in the pre-order jsonpath visits them: a node's
      own key before the keys inside its children, children in order. */
  function DescendFind(v: Value, k: string): seq<Loc>
    decreases v
  {
    match v
    case Dict(es) =>
      (if Lookup(es, k).Some? then [[Field(k)]] else [])
      + Flatten(seq(|es|, i requires 0 <= i < |es| => Prepend(Field(es[i].0), DescendFind(es[i].1, k))))
    case List(xs) =>
      Flatten(seq(|xs|, i requires 0 <= i < |xs| => Prepend(Index(i), DescendFind(xs[i], k))))
    case _ => []
  }

  function Extend(loc: Loc, ls: seq<Loc>): (r: seq<Loc>)
    ensures |r| == |ls|
    ensures forall j :: 0 <= j < |ls| ==> r[j] == loc + ls[j]
  {
    seq(|ls|, j requires 0 <= j < |ls| => loc + ls[j])
  }

  /** The locations one step selects from the node at `loc`. */
  function StepOne(root: Value, loc: Loc, step: Step): seq<Loc> {
    match step
    case Root => [[]]
    case Child(k) =>
      (match At(root, loc)
       case Some(Dict(es)) => if Lookup(es, k).Some? then [loc + [Field(k)]] else []
       case _ => [])
    case Descend(k) =>
      (match At(root, loc)
       case Some(v) => Extend(loc, DescendFind(v, k))
       case None => [])
  }

  function StepAll(root: Value, locs: seq<Loc>, step: Step): seq<Loc>
    decreases |locs|
  {
    if |locs| == 0 then [] else StepOne(root, locs[0], step) + StepAll(root, locs[1..], step)
  }

  function FindFrom(root: Value, locs: seq<Loc>, p: Path): seq<Loc>
    decreases |p|
  {
    if |p| == 0 then locs else FindFrom(root, StepAll(root, locs, p[0]), p[1..])
  }

  /** The locations a path selects in `root`, in the order they are visited. */
  function Find(root: Value, p: Path): seq<Loc> {
    FindFrom(root, [[]], p)
  }

  // ---------------------------------------------------------------------
  // What Find selects

  lemma KeyIndexOfDistinct(es: seq<(string, Value)>, i: nat)
    requires Distinct(Keys(es)) && i < |es|
    ensures KeyIndex(Keys(es), es[i].0) == i
  {
  }

  /** A `..k` match inside a dict that is not the dict's own key lies under one
      of its entries. */
  lemma DescendFindPickField(es: seq<(string, Value)>, k: string, l: Loc) returns (i: nat, m: Loc)
    requires l in DescendFind(Dict(es), k)
    requires !(Lookup(es, k).Some? && l == [Field(k)])
    ensures i < |es| && m in DescendFind(es[i].1, k) && l == [Field(es[i].0)] + m
  {
    var lss := seq(|es|, i requires 0 <= i < |es| => Prepend(Field(es[i].0), DescendFind(es[i].1, k)));
    i := FlattenIn(lss, l);
    var j :| 0 <= j < |DescendFind(es[i].1, k)| && l == [Field(es[i].0)] + DescendFind(es[i].1, k)[j];
    m := DescendFind(es[i].1, k)[j];
  }

  /** A `..k` match inside a list lies under one of its items. */
  lemma DescendFindPickIndex(xs: seq<Value>, k: string, l: Loc) returns (i: nat, m: Loc)
    requires l in DescendFind(List(xs), k)
    ensures i < |xs| && m in DescendFind(xs[i], k) && l == [Index(i)] + m
  {
    var lss := seq(|xs|, i requires 0 <= i < |xs| => Prepend(Index(i), DescendFind(xs[i], k)));
    i := FlattenIn(lss, l);
    var j :| 0 <= j < |DescendFind(xs[i], k)| && l == [Index(i)] + DescendFind(xs[i], k)[j];
    m := DescendFind(xs[i], k)[j];
  }

  lemma AtUnderField(es: seq<(string, Value)>, i: nat, m: Loc)
    requires Distinct(Keys(es)) && i < |es|
    ensures At(Dict(es), [Field(es[i].0)] + m) == At(es[i].1, m)
  {
    KeyIndexOfDistinct(es, i);
    assert ([Field(es[i].0)] + m)[1..] == m;
  }

  lemma AtUnderIndex(xs: seq<Value>, i: nat, m: Loc)
    requires i < |xs|
    ensures At(List(xs), [Index(i)] + m) == At(xs[i], m)
  {
    assert ([Index(i)] + m)[1..] == m;
  }

  /** Every location `..k` finds exists and ends in key `k`. */
  lemma {:induction false} DescendFindSound(v: Value, k: string, l: Loc)
    requires WellFormed(v)
    requires l in DescendFind(v, k)
    ensures |l| >= 1 && l[|l| - 1] == Field(k) && At(v, l).Some?
    decreases v
  {
    match v
    case Dict(es) =>
      if Lookup(es, k).Some? && l == [Field(k)] {
        assert At(v, l) == At(Lookup(es, k).value, []);
      } else {
        var i, m := DescendFindPickField(es, k, l);
        assert WellFormed(es[i].1);
        DescendFindSound(es[i].1, k, m);
        AtUnderField(es, i, m);
      }
    case List(xs) =>
      var i, m := DescendFindPickIndex(xs, k, l);
      assert WellFormed(xs[i]);
      DescendFindSound(xs[i], k, m);
      AtUnderIndex(xs, i, m);
  }

  /** `..k` finds key `k` in every dict at any depth, reached through dicts and lists. */
  lemma DescendFindUnderField(es: seq<(string, Value)>, i: nat, k: string, m: Loc)
    requires i < |es| && m in DescendFind(es[i].1, k)
    ensures [Field(es[i].0)] + m in DescendFind(Dict(es), k)
  {
    var lss := seq(|es|, i requires 0 <= i < |es| => Prepend(Field(es[i].0), DescendFind(es[i].1, k)));
    var j :| 0 <= j < |DescendFind(es[i].1, k)| && DescendFind(es[i].1, k)[j] == m;
    assert lss[i][j] == [Field(es[i].0)] + m;
    InFlatten(lss, i, [Field(es[i].0)] + m);
  }

  lemma DescendFindUnderIndex(xs: seq<Value>, n: nat, k: string, m: Loc)
    requires n < |xs| && m in DescendFind(xs[n], k)
    ensures [Index(n)] + m in DescendFind(List(xs), k)
  {
    var lss := seq(|xs|, i requires 0 <= i < |xs| => Prepend(Index(i), DescendFind(xs[i], k)));
    var j :| 0 <= j < |DescendFind(xs[n], k)| && DescendFind(xs[n], k)[j] == m;
    assert lss[n][j] == [Index(n)] + m;
    InFlatten(lss, n, [Index(n)] + m);
  }

  lemma {:induction false} DescendFindComplete(v: Value, k: string, l: Loc)
    requires At(v, l).Some? && At(v, l).value.Dict?
    requires Lookup(At(v, l).value.entries, k).Some?
    ensures l + [Field(k)] in DescendFind(v, k)
    decreases |l|
  {
    if |l| == 0 {
      assert l + [Field(k)] == [Field(k)];
    } else {
      var m := l[1..] + [Field(k)];
      assert l + [Field(k)] == [l[0]] + m;
      match l[0]
      case Field(k') =>
        var es := v.entries;
        var i := KeyIndex(Keys(es), k');
        assert At(v, l) == At(es[i].1, l[1..]);
        DescendFindComplete(es[i].1, k, l[1..]);
        DescendFindUnderField(es, i, k, m);
      case Index(n) =>
        assert At(v, l) == At(v.items[n], l[1..]);
        DescendFindComplete(v.items[n], k, l[1..]);
        DescendFindUnderIndex(v.items, n, k, m);
    }
  }


  lemma {:induction false} StepAllSound(root: Value, locs: seq<Loc>, step: Step, l: Loc)
    requires WellFormed(root)
    requires forall m :: m in locs ==> At(root, m).Some?
    requires l in StepAll(root, locs, step)
    ensures At(root, l).Some?
    decreases |locs|
  {
    if l in StepOne(root, locs[0], step) {
      var loc := locs[0];
      match step
      case Root =>
      case Child(k) =>
        AtAppend(root, loc, [Field(k)]);
      case Descend(k) =>
        var v := At(root, loc).value;
        var j :| 0 <= j < |DescendFind(v, k)| && l == loc + DescendFind(v, k)[j];
        WellFormedAt(root, loc);
        DescendFindSound(v, k, DescendFind(v, k)[j]);
        AtAppend(root, loc, DescendFind(v, k)[j]);
    } else {
      StepAllSound(root, locs[1..], step, l);
    }
  }

  /** Every part of well-formed data is well formed. */
  lemma {:induction false} WellFormedAt(v: Value, l: Loc)
    requires WellFormed(v) && At(v, l).Some?
    ensures WellFormed(At(v, l).value)
    decreases |l|
  {
    if |l| > 0 {
      var c := Get(v, l[0]).value;
      if l[0].Field? {
        var i := KeyIndex(Keys(v.entries), l[0].name);
        assert c == v.entries[i].1;
      }
      WellFormedAt(c, l[1..]);
    }
  }

  lemma {:induction false} FindFromSound(root: Value, locs: seq<Loc>, p: Path, l: Loc)
    requires WellFormed(root)
    requires forall m :: m in locs ==> At(root, m).Some?
    requires l in FindFrom(root, locs, p)
    ensures At(root, l).Some?
    decreases |p|
  {
    if |p| > 0 {
      var next := StepAll(root, locs, p[0]);
      forall m | m in next ensures At(root, m).Some? {
        StepAllSound(root, locs, p[0], m);
      }
      FindFromSound(root, next, p[1..], l);
    }
  }

  /** Every location a path selects exists in the data. */
  lemma FindSound(root: Value, p: Path, l: Loc)
    requires WellFormed(root)
    requires l in Find(root, p)
    ensures At(root, l).Some?
  {
    FindFromSound(root, [[]], p, l);
  }

  /** The path `k1.k2...kn`, every key a plain child step. */
  function ChildPath(ks: seq<string>): (p: Path)
    ensures |p| == |ks|
    ensures forall i :: 0 <= i < |ks| ==> p[i] == Child(ks[i])
  {
    seq(|ks|, i requires 0 <= i < |ks| => Child(ks[i]))
  }

  lemma FindFromNone(root: Value, p: Path)
    ensures FindFrom(root, [], p) == []
    decreases |p|
  {
  }

  /** A child step from an existing location reaches the key exactly when it is there. */
  lemma StepOneChild(root: Value, loc: Loc, k: string)
    requires At(root, loc).Some?
    ensures StepOne(root, loc, Child(k)) == if At(root, loc + [Field(k)]).Some? then [loc + [Field(k)]] else []
  {
    AtAppend(root, loc, [Field(k)]);
  }

  lemma FindFromSingle(root: Value, loc: Loc, p: Path)
    requires |p| >= 1
    ensures FindFrom(root, [loc], p) == FindFrom(root, StepOne(root, loc, p[0]), p[1..])
  {
    assert [loc][1..] == [];
    assert StepAll(root, [loc], p[0]) == StepOne(root, loc, p[0]) + StepAll(root, [], p[0]);
    assert StepAll(root, [loc], p[0]) == StepOne(root, loc, p[0]);
  }

  lemma FieldLocCons(loc: Loc, ks: seq<string>)
    requires |ks| > 0
    ensures loc + FieldLoc(ks) == (loc + [Field(ks[0])]) + FieldLoc(ks[1..])
  {
    assert FieldLoc(ks) == [Field(ks[0])] + FieldLoc(ks[1..]);
  }

  /** A key path from an existing location, after its first step. */
  lemma FindFromChildStep(root: Value, loc: Loc, ks: seq<string>)
    requires |ks| > 0 && At(root, loc).Some?
    ensures FindFrom(root, [loc], ChildPath(ks))
         == FindFrom(root, StepOne(root, loc, Child(ks[0])), ChildPath(ks[1..]))
  {
    assert ChildPath(ks)[1..] == ChildPath(ks[1..]);
    FindFromSingle(root, loc, ChildPath(ks));
  }

  /** A key path whose first key is missing selects nothing. */
  lemma FindFromChildMissing(root: Value, loc: Loc, ks: seq<string>)
    requires |ks| > 0 && At(root, loc).Some? && At(root, loc + [Field(ks[0])]).None?
    ensures FindFrom(root, [loc], ChildPath(ks)) == []
    ensures At(root, loc + FieldLoc(ks)).None?
  {
    FindFromChildStep(root, loc, ks);
    StepOneChild(root, loc, ks[0]);
    FindFromNone(root, ChildPath(ks[1..]));
    FieldLocCons(loc, ks);
    AtAppend(root, loc + [Field(ks[0])], FieldLoc(ks[1..]));
  }

  lemma {:induction false} FindFromChildren(root: Value, loc: Loc, ks: seq<string>)
    requires At(root, loc).Some?
    ensures FindFrom(root, [loc], ChildPath(ks))
         == if At(root, loc + FieldLoc(ks)).Some? then [loc + FieldLoc(ks)] else []
    decreases |ks|
  {
    if |ks| == 0 {
      assert loc + FieldLoc(ks) == loc;
    } else {
      if At(root, loc + [Field(ks[0])]).Some? {
        FindFromChildStep(root, loc, ks);
        StepOneChild(root, loc, ks[0]);
        FieldLocCons(loc, ks);
        FindFromChildren(root, loc + [Field(ks[0])], ks[1..]);
      } else {
        FindFromChildMissing(root, loc, ks);
      }
    }
  }





  /** A path of plain keys selects exactly the one location those keys spell,
      when it exists, and nothing otherwise. */
  lemma FindChildPath(root: Value, ks: seq<string>)
    ensures Find(root, ChildPath(ks))
         == if At(root, FieldLoc(ks)).Some? then [FieldLoc(ks)] else []
  {
    FindFromChildren(root, [], ks);
    assert [] + FieldLoc(ks) == FieldLoc(ks);
  }
}
