/** The per-value masks of the default provider: the fixed sentinel, a custom
    mask string, the length-preserving dynamic mask, and regex substitution,
    applied to a scalar directly and to a container element by element. */
module Masking {
  import opened Wrappers
  import opened Strings
  import opened Values

  /** DATA_MASKING_STRING, the default replacement text. */
  const DataMaskingString: string := "*****"

  /** The keyword options of one erase call or of one masking rule:
      `custom_mask`, `dynamic_mask`, `regex_pattern`, `mask_format`. */
  datatype Directive = Directive(
    customMask: Option<string>,
    dynamicMask: bool,
    regexPattern: Option<string>,
    maskFormat: Option<string>)

  /** No option given: the default erase. */
  const NoOptions: Directive := Directive(None, false, None, None)

  datatype Rule = Sentinel | Custom(mask: string) | Dynamic | Regex(pattern: string, format: string)

  /** The first option present wins: custom mask, then dynamic mask, then a regex
      pattern with its format; with none of these, the default erase. */
  function RuleOf(d: Directive): Rule {
    if d.customMask.Some? then Custom(d.customMask.value)
    else if d.dynamicMask then Dynamic
    else if d.regexPattern.Some? && d.maskFormat.Some? then Regex(d.regexPattern.value, d.maskFormat.value)
    else Sentinel
  }

  /** A compiled pattern's `sub(format, text)`: every match of the pattern in
      `text` replaced by `format`, whose group references are expanded. */
  type Substitute = (string, string) -> string

  /** Compiling a pattern: None when the pattern is not a valid regular expression. */
  type Compile = string -> Option<Substitute>

  /** The mask of one scalar. A custom mask replaces the value by the mask text,
      the dynamic mask by as many `*` as `str(value)` has characters, and a regex
      rewrites `str(value)`; an invalid pattern leaves the value as it was. */
  function MaskScalar(v: Value, rule: Rule, compile: Compile): Value {
    match rule
    case Sentinel => Str(DataMaskingString)
    case Custom(m) => Str(m)
    case Dynamic => Str(Stars(|Render(v)|))
    case Regex(p, f) =>
      match compile(p)
      case Some(sub) => Str(sub(f, Render(v)))
      case None => v
  }

  /** The elements of a masked set, duplicates dropped, first occurrence kept. */
  function Dedup(xs: seq<Value>): (r: seq<Value>)
    ensures Distinct(r)
    ensures forall x :: x in r <==> x in xs
    ensures |r| <= |xs|
    decreases |xs|
  {
    if |xs| == 0 then []
    else
      var d := Dedup(xs[..|xs| - 1]);
      var last := xs[|xs| - 1];
      assert forall x :: x in xs <==> x in xs[..|xs| - 1] || x == last by {
        assert xs == xs[..|xs| - 1] + [last];
      }
      if last in d then d else d + [last]
  }

  /** The default provider's erase of a whole value under one rule. The default
      erase turns a scalar or a dict into the sentinel and a list, tuple or set
      into one of the same kind holding the sentinel per element. Every other
      rule masks each scalar, maps over lists, tuples and sets keeping the kind,
      and keeps a dict's keys while masking its values. */
  function MaskValue(v: Value, rule: Rule, compile: Compile): Value
    decreases v
  {
    if rule.Sentinel? then
      match v
      case List(xs) => List(seq(|xs|, _ => Str(DataMaskingString)))
      case Tuple(xs) => Tuple(seq(|xs|, _ => Str(DataMaskingString)))
      case Set(xs) => Set(if |xs| == 0 then [] else [Str(DataMaskingString)])
      case _ => Str(DataMaskingString)
    else
      match v
      case List(xs) => List(seq(|xs|, i requires 0 <= i < |xs| => MaskValue(xs[i], rule, compile)))
      case Tuple(xs) => Tuple(seq(|xs|, i requires 0 <= i < |xs| => MaskValue(xs[i], rule, compile)))
      case Set(xs) => Set(Dedup(seq(|xs|, i requires 0 <= i < |xs| => MaskValue(xs[i], rule, compile))))
      case Dict(es) => Dict(seq(|es|, i requires 0 <= i < |es| => (es[i].0, MaskValue(es[i].1, rule, compile))))
      case _ => MaskScalar(v, rule, compile)
  }

  // ---------------------------------------------------------------------
  // Properties of the per-value masks

  /** Without options every scalar and every dict becomes the sentinel; with a
      custom mask every scalar becomes the mask text. */
  lemma EraseScalar(v: Value, m: string, compile: Compile)
    requires v.IsScalar()
    ensures MaskValue(v, Sentinel, compile) == Str(DataMaskingString)
    ensures MaskValue(v, Custom(m), compile) == Str(m)
  {
  }

  /** A list or tuple keeps its kind and its length, every element replaced by
      its own mask: the sentinel, or the rule applied to that element. */
  lemma MaskSequence(v: Value, rule: Rule, compile: Compile)
    requires v.List? || v.Tuple?
    ensures MaskValue(v, rule, compile).List? == v.List?
    ensures MaskValue(v, rule, compile).Tuple? == v.Tuple?
    ensures |MaskValue(v, rule, compile).items| == |v.items|
    ensures forall i :: 0 <= i < |v.items| ==>
      MaskValue(v, rule, compile).items[i]
        == if rule.Sentinel? then Str(DataMaskingString) else MaskValue(v.items[i], rule, compile)
  {
  }

  lemma {:induction false} DedupDistinct(xs: seq<Value>)
    requires Distinct(xs)
    ensures Dedup(xs) == xs
    decreases |xs|
  {
    if |xs| > 0 {
      var init := xs[..|xs| - 1];
      DedupDistinct(init);
      assert xs[|xs| - 1] !in init;
      assert init + [xs[|xs| - 1]] == xs;
    }
  }

  lemma {:induction false} DedupConstant(xs: seq<Value>, x: Value)
    requires |xs| >= 1
    requires forall i :: 0 <= i < |xs| ==> xs[i] == x
    ensures Dedup(xs) == [x]
    decreases |xs|
  {
    if |xs| > 1 {
      DedupConstant(xs[..|xs| - 1], x);
    }
  }

  /** A non-empty set of scalars masked with a custom mask is the one-element set
      holding the mask; the empty set stays empty. */
  lemma MaskScalarSetCustom(xs: seq<Value>, m: string, compile: Compile)
    requires forall i :: 0 <= i < |xs| ==> xs[i].IsScalar()
    ensures MaskValue(Set(xs), Custom(m), compile) == Set(if |xs| == 0 then [] else [Str(m)])
  {
    if |xs| > 0 {
      DedupConstant(seq(|xs|, i requires 0 <= i < |xs| => MaskValue(xs[i], Custom(m), compile)), Str(m));
    }
  }

  /** Under any rule but the default erase a dict stays a dict with the same
      keys in the same order, each value masked in turn; in particular an empty
      dict stays empty. */
  lemma MaskKeepsDictKeys(es: seq<(string, Value)>, rule: Rule, compile: Compile)
    requires !rule.Sentinel?
    ensures MaskValue(Dict(es), rule, compile).Dict?
    ensures Keys(MaskValue(Dict(es), rule, compile).entries) == Keys(es)
    ensures forall i :: 0 <= i < |es| ==>
      MaskValue(Dict(es), rule, compile).entries[i].1 == MaskValue(es[i].1, rule, compile)
  {
  }

  /** The dynamic mask of a scalar is a run of `*` exactly as long as the
      scalar's text: 5 for "hello", 2 for 30, 0 for "". */
  lemma DynamicMaskLength(v: Value, compile: Compile)
    requires v.IsScalar()
    ensures MaskValue(v, Dynamic, compile).Str?
    ensures |MaskValue(v, Dynamic, compile).s| == |Render(v)|
    ensures forall i :: 0 <= i < |Render(v)| ==> MaskValue(v, Dynamic, compile).s[i] == '*'
  {
  }

  /** A list of strings under the dynamic mask: each string becomes as many `*`
      as it has characters. */
  lemma DynamicMaskStrings(xs: seq<Value>, compile: Compile)
    requires forall i :: 0 <= i < |xs| ==> xs[i].Str?
    ensures MaskValue(List(xs), Dynamic, compile)
         == List(seq(|xs|, i requires 0 <= i < |xs| => Str(Stars(|xs[i].s|))))
  {
    var ys := seq(|xs|, i requires 0 <= i < |xs| => MaskValue(xs[i], Dynamic, compile));
    forall i | 0 <= i < |xs| ensures ys[i] == Str(Stars(|xs[i].s|)) {
      assert Render(xs[i]) == xs[i].s;
    }
  }

  /** The default erase applied to its own output changes nothing. */
  lemma SentinelIdempotent(v: Value, compile: Compile)
    ensures MaskValue(MaskValue(v, Sentinel, compile), Sentinel, compile) == MaskValue(v, Sentinel, compile)
  {
    if v.Set? && |v.items| > 0 {
      DedupDistinct([Str(DataMaskingString)]);
    }
  }

  /** A set whose members the mask already fixes is fixed by the mask. */
  lemma MaskFixedSet(zs: seq<Value>, rule: Rule, compile: Compile)
    requires !rule.Sentinel? && Distinct(zs)
    requires forall j :: 0 <= j < |zs| ==> MaskValue(zs[j], rule, compile) == zs[j]
    ensures MaskValue(Set(zs), rule, compile) == Set(zs)
  {
    assert seq(|zs|, j requires 0 <= j < |zs| => MaskValue(zs[j], rule, compile)) == zs;
    DedupDistinct(zs);
  }

  lemma MaskFixedItems(zs: seq<Value>, rule: Rule, compile: Compile)
    requires !rule.Sentinel?
    requires forall j :: 0 <= j < |zs| ==> MaskValue(zs[j], rule, compile) == zs[j]
    ensures MaskValue(List(zs), rule, compile) == List(zs)
    ensures MaskValue(Tuple(zs), rule, compile) == Tuple(zs)
  {
    assert seq(|zs|, j requires 0 <= j < |zs| => MaskValue(zs[j], rule, compile)) == zs;
  }

  lemma MaskFixedDict(es: seq<(string, Value)>, rule: Rule, compile: Compile)
    requires !rule.Sentinel?
    requires forall j :: 0 <= j < |es| ==> MaskValue(es[j].1, rule, compile) == es[j].1
    ensures MaskValue(Dict(es), rule, compile) == Dict(es)
  {
    assert seq(|es|, j requires 0 <= j < |es| => (es[j].0, MaskValue(es[j].1, rule, compile))) == es;
  }

  /** Masking an already masked value again changes nothing, for the default
      erase, a custom mask and the dynamic mask alike. */
  lemma {:induction false} MaskIdempotent(v: Value, rule: Rule, compile: Compile)
    requires !rule.Regex?
    ensures MaskValue(MaskValue(v, rule, compile), rule, compile) == MaskValue(v, rule, compile)
    decreases v
  {
    var m := MaskValue(v, rule, compile);
    if rule.Sentinel? {
      SentinelIdempotent(v, compile);
    } else {
      match v
      case List(xs) =>
        forall i | 0 <= i < |xs| ensures MaskValue(m.items[i], rule, compile) == m.items[i] {
          MaskIdempotent(xs[i], rule, compile);
        }
        MaskFixedItems(m.items, rule, compile);
      case Tuple(xs) =>
        forall i | 0 <= i < |xs| ensures MaskValue(m.items[i], rule, compile) == m.items[i] {
          MaskIdempotent(xs[i], rule, compile);
        }
        MaskFixedItems(m.items, rule, compile);
      case Set(xs) =>
        var ys := seq(|xs|, i requires 0 <= i < |xs| => MaskValue(xs[i], rule, compile));
        var zs := m.items;
        assert zs == Dedup(ys);
        forall j | 0 <= j < |zs| ensures MaskValue(zs[j], rule, compile) == zs[j] {
          assert zs[j] in ys;
          var i :| 0 <= i < |xs| && ys[i] == zs[j];
          MaskIdempotent(xs[i], rule, compile);
        }
        MaskFixedSet(zs, rule, compile);
      case Dict(es) =>
        forall i | 0 <= i < |es| ensures MaskValue(m.entries[i].1, rule, compile) == m.entries[i].1 {
          MaskIdempotent(es[i].1, rule, compile);
        }
        MaskFixedDict(m.entries, rule, compile);
      case _ =>
        assert |Stars(|Render(v)|)| == |Render(v)|;
    }
  }

  /** One step into a masked container reaches the mask of the child. */
  lemma GetMasked(v: Value, key: Key, rule: Rule, compile: Compile)
    requires !rule.Sentinel?
    ensures Get(v, key).None? ==> Get(MaskValue(v, rule, compile), key).None?
    ensures Get(v, key).Some? ==> Get(MaskValue(v, rule, compile), key) == Some(MaskValue(Get(v, key).value, rule, compile))
  {
    match key
    case Field(k) =>
      if v.Dict? {
        MaskKeepsDictKeys(v.entries, rule, compile);
      }
    case Index(n) =>
  }

  /** Under any rule but the default erase, masking keeps every location of the
      data, adds none, and leaves at each one the mask of what was there: dict
      keys are kept at every depth. */
  lemma {:induction false} MaskAt(v: Value, rule: Rule, compile: Compile, l: Loc)
    requires !rule.Sentinel?
    ensures At(v, l).None? ==> At(MaskValue(v, rule, compile), l).None?
    ensures At(v, l).Some? ==> At(MaskValue(v, rule, compile), l) == Some(MaskValue(At(v, l).value, rule, compile))
    decreases |l|
  {
    if |l| > 0 {
      GetMasked(v, l[0], rule, compile);
      if Get(v, l[0]).Some? {
        MaskAt(Get(v, l[0]).value, rule, compile, l[1..]);
      }
    }
  }

  /** A global custom mask keeps the shape of nested data and puts the mask text
      at every scalar leaf, however deep. */
  lemma CustomMaskEverywhere(v: Value, m: string, compile: Compile, l: Loc)
    ensures At(MaskValue(v, Custom(m), compile), l).Some? <==> At(v, l).Some?
    ensures At(v, l).Some? && At(v, l).value.IsScalar() ==> At(MaskValue(v, Custom(m), compile), l) == Some(Str(m))
  {
    MaskAt(v, Custom(m), compile, l);
  }

  /** A pattern that does not compile leaves the data as it was, at every depth. */
  lemma {:induction false} InvalidRegexKeepsValue(v: Value, p: string, f: string, compile: Compile)
    requires WellFormed(v)
    requires compile(p).None?
    ensures MaskValue(v, Regex(p, f), compile) == v
    decreases v
  {
    var rule := Regex(p, f);
    match v
    case List(xs) =>
      forall i | 0 <= i < |xs| ensures MaskValue(xs[i], rule, compile) == xs[i] {
        InvalidRegexKeepsValue(xs[i], p, f, compile);
      }
      assert seq(|xs|, i requires 0 <= i < |xs| => MaskValue(xs[i], rule, compile)) == xs;
    case Tuple(xs) =>
      forall i | 0 <= i < |xs| ensures MaskValue(xs[i], rule, compile) == xs[i] {
        InvalidRegexKeepsValue(xs[i], p, f, compile);
      }
      assert seq(|xs|, i requires 0 <= i < |xs| => MaskValue(xs[i], rule, compile)) == xs;
    case Set(xs) =>
      forall i | 0 <= i < |xs| ensures MaskValue(xs[i], rule, compile) == xs[i] {
        InvalidRegexKeepsValue(xs[i], p, f, compile);
      }
      assert seq(|xs|, i requires 0 <= i < |xs| => MaskValue(xs[i], rule, compile)) == xs;
      DedupDistinct(xs);
    case Dict(es) =>
      forall i | 0 <= i < |es| ensures MaskValue(es[i].1, rule, compile) == es[i].1 {
        InvalidRegexKeepsValue(es[i].1, p, f, compile);
      }
      assert seq(|es|, i requires 0 <= i < |es| => (es[i].0, MaskValue(es[i].1, rule, compile))) == es;
    case _ =>
  }
}
