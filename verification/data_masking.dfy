/** The DataMasking object: its provider, its missing-field policy and the
    regex cache it fills across calls, with `erase` and its three modes,
    `_mask_nested_field`, and the `encrypt`/`decrypt` stubs. */
module DataMasking {
  import opened Wrappers
  import opened Strings
  import opened Values
  import opened JsonPath
  import opened Masking
  import E = Erasure

  /** Where `_mask_nested_field` stands after following `ks`: the dict found
      there, or the empty dict `get(key, {})` gives once a key is missing. */
  ghost predicate Reached(root: Value, ks: seq<string>, current: Value) {
    current.Dict?
    && (At(root, FieldLoc(ks)) == Some(current) || (At(root, FieldLoc(ks)).None? && current == Dict([])))
  }

  lemma ReachedStep(root: Value, ks: seq<string>, current: Value, k: string)
    requires Reached(root, ks, current)
    ensures At(root, FieldLoc(ks + [k])) == Lookup(current.entries, k)
    ensures Lookup(current.entries, k).GetOr(Dict([])).Dict? ==>
      Reached(root, ks + [k], Lookup(current.entries, k).GetOr(Dict([])))
  {
    AtFieldLocSnoc(root, ks, k);
  }

  /** A key path that reaches something other than a dict before its last key
      leads nowhere. */
  lemma StopsBeforeLeaf(root: Value, keys: seq<string>, n: nat)
    requires n < |keys|
    requires At(root, FieldLoc(keys[..n])).Some? && !At(root, FieldLoc(keys[..n])).value.Dict?
    ensures At(root, FieldLoc(keys)).None?
  {
    assert keys == keys[..n] + keys[n..];
    assert FieldLoc(keys) == FieldLoc(keys[..n]) + FieldLoc(keys[n..]);
    AtAppend(root, FieldLoc(keys[..n]), FieldLoc(keys[n..]));
  }

  /** The last key, looked up in the dict reached before it, finds the leaf. */
  lemma LeafReached(root: Value, keys: seq<string>, current: Value)
    requires |keys| >= 1 && Reached(root, keys[..|keys| - 1], current)
    ensures At(root, FieldLoc(keys)) == Lookup(current.entries, keys[|keys| - 1])
  {
    ReachedStep(root, keys[..|keys| - 1], current, keys[|keys| - 1]);
    assert keys[..|keys| - 1] + [keys[|keys| - 1]] == keys;
  }

  lemma NestedMaskedMissing(cfg: E.Config, root: Value, keys: seq<string>, mask: E.MaskArg)
    requires At(root, FieldLoc(keys)).None?
    ensures E.NestedMasked(cfg, root, keys, mask) == Success(root)
  {
  }

  lemma NestedMaskedFound(cfg: E.Config, root: Value, keys: seq<string>, mask: E.MaskArg, x: Value)
    requires At(root, FieldLoc(keys)) == Some(x)
    ensures E.LeafMask(cfg, mask, x).Failure? ==>
      E.NestedMasked(cfg, root, keys, mask) == Failure(E.LeafMask(cfg, mask, x).error)
    ensures E.LeafMask(cfg, mask, x).Success? ==>
      E.NestedMasked(cfg, root, keys, mask) == Success(SetAt(root, FieldLoc(keys), E.LeafMask(cfg, mask, x).value))
  {
  }

  /** The pattern a rule may compile and cache. */
  function RulePatterns(rule: Rule): (ps: set<string>)
    ensures rule.Regex? ==> rule.pattern in ps
    ensures !rule.Regex? ==> ps == {}
  {
    if rule.Regex? then {rule.pattern} else {}
  }

  /** The `i`-th path of the `fields` mode, then the rest. */
  lemma FieldsFromAt(cfg: E.Config, acc: E.Masked, fields: seq<string>, i: nat, d: Directive)
    requires i < |fields|
    ensures E.FieldStep(cfg, acc, fields[i], d).Failure? ==>
      E.FieldsFrom(cfg, acc, fields[i..], d) == Failure(E.FieldStep(cfg, acc, fields[i], d).error)
    ensures E.FieldStep(cfg, acc, fields[i], d).Success? ==>
      E.FieldsFrom(cfg, acc, fields[i..], d) == E.FieldsFrom(cfg, E.FieldStep(cfg, acc, fields[i], d).value, fields[i + 1..], d)
  {
    assert fields[i..][0] == fields[i] && fields[i..][1..] == fields[i + 1..];
  }

  /** A dict held by reference: `_mask_nested_field` writes into it. */
  class Document {
    var root: Value

    constructor(root: Value)
      ensures this.root == root
    {
      this.root := root;
    }
  }

  class DataMasking {
    var provider: E.Provider
    const raiseOnMissingField: bool
    const compile: Compile
    const decode: string -> Option<Value>
    /** Compiled regular expressions by pattern text. */
    var cache: map<string, Substitute>

    /** Every cached entry is what compiling its pattern gives. */
    ghost predicate Valid()
      reads this`cache
    {
      forall p :: p in cache ==> compile(p) == Some(cache[p])
    }

    function Config(): E.Config
      reads this`provider
    {
      E.Config(provider, raiseOnMissingField, compile, decode)
    }

    /** `DataMasking(raise_on_missing_field=...)` with the built-in provider and
        an empty cache. */
    constructor(raiseOnMissingField: bool, compile: Compile, decode: string -> Option<Value>)
      ensures provider == E.DefaultProvider
      ensures this.raiseOnMissingField == raiseOnMissingField
      ensures this.compile == compile && this.decode == decode
      ensures cache == map[]
      ensures Valid()
    {
      provider := E.DefaultProvider;
      this.raiseOnMissingField := raiseOnMissingField;
      this.compile := compile;
      this.decode := decode;
      cache := map[];
    }

    /** The regex mask of one scalar. A pattern is compiled on first use only;
        one that does not compile is not cached and leaves the value as it was. */
    method RegexMask(v: Value, pattern: string, format: string) returns (r: Value)
      requires Valid()
      modifies this`cache
      ensures Valid()
      ensures r == MaskScalar(v, Regex(pattern, format), compile)
      ensures pattern in old(cache) ==> cache == old(cache)
      ensures cache == if compile(pattern).Some? then old(cache)[pattern := compile(pattern).value] else old(cache)
    {
      if pattern in cache {
        r := Str(cache[pattern](format, Render(v)));
      } else {
        match compile(pattern)
        case None =>
          r := v;
        case Some(sub) =>
          cache := cache[pattern := sub];
          r := Str(sub(format, Render(v)));
      }
    }

    /** The built-in provider's `erase` of one value. */
    method MaskWith(v: Value, rule: Rule) returns (r: Value)
      requires Valid()
      modifies this`cache
      ensures Valid()
      ensures r == MaskValue(v, rule, compile)
      ensures old(cache).Keys <= cache.Keys && cache.Keys - old(cache).Keys <= RulePatterns(rule)
      decreases v, 1
    {
      if rule.Sentinel? {
        r := MaskValue(v, rule, compile);
      } else {
        match v
        case List(xs) =>
          var ys := MaskEach(xs, rule, v);
          r := List(ys);
        case Tuple(xs) =>
          var ys := MaskEach(xs, rule, v);
          r := Tuple(ys);
        case Set(xs) =>
          var ys := MaskEach(xs, rule, v);
          r := Set(Dedup(ys));
        case Dict(es) =>
          var out: seq<(string, Value)> := [];
          var i := 0;
          while i < |es|
            invariant 0 <= i <= |es|
            invariant Valid() && old(cache).Keys <= cache.Keys && cache.Keys - old(cache).Keys <= RulePatterns(rule)
            invariant out == seq(i, j requires 0 <= j < i => (es[j].0, MaskValue(es[j].1, rule, compile)))
          {
            var y := MaskWith(es[i].1, rule);
            out := out + [(es[i].0, y)];
            i := i + 1;
          }
          r := Dict(out);
        case _ =>
          if rule.Regex? {
            r := RegexMask(v, rule.pattern, rule.format);
          } else {
            r := MaskScalar(v, rule, compile);
          }
      }
    }

    /** The elements of a list, tuple or set, each masked in order. */
    method MaskEach(xs: seq<Value>, rule: Rule, ghost parent: Value) returns (ys: seq<Value>)
      requires Valid()
      requires parent.IsSequence() && parent.items == xs
      modifies this`cache
      ensures Valid()
      ensures ys == seq(|xs|, i requires 0 <= i < |xs| => MaskValue(xs[i], rule, compile))
      ensures old(cache).Keys <= cache.Keys && cache.Keys - old(cache).Keys <= RulePatterns(rule)
      decreases parent, 0
    {
      ys := [];
      var i := 0;
      while i < |xs|
        invariant 0 <= i <= |xs|
        invariant Valid() && old(cache).Keys <= cache.Keys && cache.Keys - old(cache).Keys <= RulePatterns(rule)
        invariant ys == seq(i, j requires 0 <= j < i => MaskValue(xs[j], rule, compile))
      {
        var y := MaskWith(xs[i], rule);
        ys := ys + [y];
        i := i + 1;
      }
    }

    /** `self.provider.erase(value, **options)`. */
    method ProviderErase(v: Value, d: Directive) returns (r: Result<Value, string>)
      requires Valid()
      modifies this`cache
      ensures Valid()
      ensures old(cache).Keys <= cache.Keys && cache.Keys - old(cache).Keys <= RulePatterns(RuleOf(d))
      ensures r == E.ProviderErase(Config(), v, d)
    {
      match provider
      case DefaultProvider =>
        var m := MaskWith(v, RuleOf(d));
        r := Success(m);
      case CustomProvider(erase) =>
        r := erase(v, d);
    }

    /** One path of the `fields` mode: every selected location rewritten in
        turn, or the missing-field error or warning. */
    method MaskField(acc: E.Masked, path: string, d: Directive) returns (r: Result<E.Masked, E.Error>)
      requires Valid()
      modifies this`cache
      ensures Valid()
      ensures old(cache).Keys <= cache.Keys
      ensures r == E.FieldStep(Config(), acc, path, d)
    {
      var parsed := Parse(path);
      if parsed.Failure? {
        return Failure(E.InvalidPath(path, parsed.error));
      }
      var locs := Find(acc.data, parsed.value);
      if |locs| == 0 {
        if raiseOnMissingField {
          return Failure(E.FieldNotFound(path));
        }
        return Success(E.Masked(acc.data, acc.warnings + [E.FieldMissing(path, Render(acc.data))]));
      }
      var cur := acc.data;
      var i := 0;
      while i < |locs|
        invariant 0 <= i <= |locs|
        invariant Valid() && old(cache).Keys <= cache.Keys
        invariant E.UpdateAll(Config(), acc.data, locs, d) == E.UpdateAll(Config(), cur, locs[i..], d)
      {
        assert locs[i..][0] == locs[i] && locs[i..][1..] == locs[i + 1..];
        var found := At(cur, locs[i]);
        if found.Some? {
          var y := ProviderErase(found.value, d);
          if y.Failure? {
            return Failure(E.ProviderError(y.error));
          }
          cur := SetAt(cur, locs[i], y.value);
        }
        i := i + 1;
      }
      r := Success(E.Masked(cur, acc.warnings));
    }

    /** The `fields` mode: the data normalised, then each path in order; the
        first hard failure aborts. */
    method EraseFields(data: Value, fields: seq<string>, d: Directive) returns (r: Result<E.Masked, E.Error>)
      requires Valid()
      modifies this`cache
      ensures Valid()
      ensures old(cache).Keys <= cache.Keys
      ensures r == E.EraseFields(Config(), data, fields, d)
    {
      var cfg := Config();
      var normalized := E.Normalize(cfg, fields, data);
      if normalized.Failure? {
        return Failure(normalized.error);
      }
      var start := E.Masked(normalized.value, []);
      var acc := start;
      var i := 0;
      while i < |fields|
        invariant 0 <= i <= |fields|
        invariant Valid() && old(cache).Keys <= cache.Keys && Config() == cfg
        invariant E.FieldsFrom(cfg, start, fields, d) == E.FieldsFrom(cfg, acc, fields[i..], d)
      {
        FieldsFromAt(cfg, acc, fields, i, d);
        var step := MaskField(acc, fields[i], d);
        if step.Failure? {
          return Failure(step.error);
        }
        acc := step.value;
        i := i + 1;
      }
      r := Success(acc);
    }

    /** One entry of `masking_rules`: the string form of each match, as found
        before any write, handed to the provider; failures only warn. */
    method MaskRule(acc: E.Masked, path: string, d: Directive) returns (r: E.Masked)
      requires Valid()
      modifies this`cache
      ensures Valid()
      ensures old(cache).Keys <= cache.Keys
      ensures r == E.RuleStep(Config(), acc, path, d)
    {
      var parsed := Parse("$." + path);
      if parsed.Failure? {
        return E.Masked(acc.data, acc.warnings + [E.PathFailed(path, parsed.error)]);
      }
      var snapshot := acc.data;
      var locs := Find(snapshot, parsed.value);
      if |locs| == 0 {
        return E.Masked(acc.data, acc.warnings + [E.NoMatches(path)]);
      }
      r := acc;
      var i := 0;
      while i < |locs|
        invariant 0 <= i <= |locs|
        invariant Valid() && old(cache).Keys <= cache.Keys
        invariant E.RuleWrites(Config(), snapshot, acc, locs, path, d)
               == E.RuleWrites(Config(), snapshot, r, locs[i..], path, d)
      {
        assert locs[i..][0] == locs[i] && locs[i..][1..] == locs[i + 1..];
        var found := At(snapshot, locs[i]);
        if found.Some? {
          var y := ProviderErase(Str(Render(found.value)), d);
          if y.Failure? {
            r := E.Masked(r.data, r.warnings + [E.MaskingFailed(path, y.error)]);
          } else {
            r := E.Masked(SetAt(r.data, locs[i], y.value), r.warnings);
          }
        }
        i := i + 1;
      }
    }

    /** The `masking_rules` mode: every rule in order, none of them aborting. */
    method MaskRules(data: Value, rules: seq<(string, Directive)>) returns (r: E.Masked)
      requires Valid()
      modifies this`cache
      ensures Valid()
      ensures old(cache).Keys <= cache.Keys
      ensures r == E.RulesFrom(Config(), E.Masked(data, []), rules)
    {
      r := E.Masked(data, []);
      var i := 0;
      while i < |rules|
        invariant 0 <= i <= |rules|
        invariant Valid() && old(cache).Keys <= cache.Keys
        invariant E.RulesFrom(Config(), E.Masked(data, []), rules) == E.RulesFrom(Config(), r, rules[i..])
      {
        assert rules[i..][0] == rules[i] && rules[i..][1..] == rules[i + 1..];
        r := MaskRule(r, rules[i].0, rules[i].1);
        i := i + 1;
      }
    }

    /** `erase(data, fields, masking_rules=..., **options)`. */
    method Erase(data: Value, fields: Option<seq<string>>, d: Directive, rules: seq<(string, Directive)>)
      returns (r: Result<E.Masked, E.Error>)
      requires Valid()
      modifies this`cache
      ensures Valid()
      ensures old(cache).Keys <= cache.Keys
      ensures r == E.Erase(Config(), data, fields, d, rules)
    {
      if |rules| > 0 {
        var m := MaskRules(data, rules);
        r := Success(m);
      } else if fields.Some? {
        r := EraseFields(data, fields.value, d);
      } else {
        var m := ProviderErase(data, d);
        r := if m.Failure? then Failure(E.ProviderError(m.error)) else Success(E.Masked(m.value, []));
      }
    }

    /** The masking argument applied to a leaf: a callable is called on it, a
        rule dict goes to the provider with it. */
    method MaskLeaf(x: Value, mask: E.MaskArg) returns (r: Result<Value, string>)
      requires Valid()
      modifies this`cache
      ensures Valid()
      ensures old(cache).Keys <= cache.Keys
      ensures r == E.LeafMask(Config(), mask, x)
    {
      match mask
      case Callback(f) =>
        r := Success(f(x));
      case RuleDict(d) =>
        r := ProviderErase(x, d);
    }

    /** `_mask_nested_field`: follows the dotted keys from the dict, stopping
        silently at a missing key or at a value that is not a dict, and writes
        the masked leaf back in place when the last key is there. */
    method MaskNestedField(doc: Document, fieldPath: string, mask: E.MaskArg) returns (error: Option<string>)
      requires Valid()
      requires doc.root.Dict?
      modifies this`cache, doc
      ensures Valid()
      ensures old(cache).Keys <= cache.Keys
      ensures match E.NestedMasked(Config(), old(doc.root), Split(fieldPath, '.'), mask)
              case Success(w) => error == None && doc.root == w
              case Failure(e) => error == Some(e) && doc.root == old(doc.root)
    {
      var keys := Split(fieldPath, '.');
      var root := doc.root;
      var current := root;
      var i := 0;
      while i < |keys| - 1
        invariant 0 <= i <= |keys| - 1
        invariant Reached(root, keys[..i], current)
        modifies {}
      {
        var next := Lookup(current.entries, keys[i]).GetOr(Dict([]));
        ReachedStep(root, keys[..i], current, keys[i]);
        assert keys[..i + 1] == keys[..i] + [keys[i]];
        if !next.Dict? {
          StopsBeforeLeaf(root, keys, i + 1);
          NestedMaskedMissing(Config(), root, keys, mask);
          return None;
        }
        current := next;
        i := i + 1;
      }
      LeafReached(root, keys, current);
      var leaf := Lookup(current.entries, keys[|keys| - 1]);
      if leaf.None? {
        NestedMaskedMissing(Config(), root, keys, mask);
        return None;
      }
      var masked := MaskLeaf(leaf.value, mask);
      NestedMaskedFound(Config(), root, keys, mask, leaf.value);
      if masked.Failure? {
        return Some(masked.error);
      }
      doc.root := SetAt(root, FieldLoc(keys), masked.value);
      error := None;
    }

    /** `encrypt` without an encryption provider. */
    method Encrypt(data: Value) returns (r: Result<Value, E.Error>)
      ensures r == Failure(E.NotImplemented)
    {
      r := Failure(E.NotImplemented);
    }

    /** `decrypt` without an encryption provider. */
    method Decrypt(data: Value) returns (r: Result<Value, E.Error>)
      ensures r == Failure(E.NotImplemented)
    {
      r := Failure(E.NotImplemented);
    }
  }
}
