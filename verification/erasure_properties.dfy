/** Properties of the erase modes: the per-mode errors and warnings, which
    locations a mode may change, and the JSON-string input equivalence. */
module ErasureProperties {
  import opened Wrappers
  import opened Values
  import opened JsonPath
  import opened Masking
  import opened Erasure

  // ---------------------------------------------------------------------
  // Whole-value mode

  /** With the default provider and no path, a scalar becomes the sentinel, or
      the custom mask when one is given; a dict without options becomes the
      sentinel too. */
  lemma WholeValueScalar(cfg: Config, v: Value, m: string)
    requires cfg.provider.DefaultProvider?
    requires v.IsScalar() || v.Dict?
    ensures Erase(cfg, v, None, NoOptions, []) == Success(Masked(Str(DataMaskingString), []))
    ensures v.IsScalar() ==>
      Erase(cfg, v, None, Directive(Some(m), false, None, None), []) == Success(Masked(Str(m), []))
  {
  }

  // ---------------------------------------------------------------------
  // `fields` mode: hard failures

  /** The field list is checked before the data, the data's type next. */
  lemma FieldsRefused(cfg: Config, data: Value, fields: seq<string>, d: Directive)
    ensures |fields| == 0 ==> EraseFields(cfg, data, fields, d) == Failure(NoFieldsSpecified)
    ensures |fields| > 0 && !data.Str? && !data.Dict? ==>
      EraseFields(cfg, data, fields, d) == Failure(UnsupportedType)
    ensures |fields| > 0 && data.Dict? && JsonRoundTrip(data).None? ==>
      EraseFields(cfg, data, fields, d) == Failure(NotSerializable)
  {
  }

  /** With `raise_on_missing_field`, a path that selects nothing aborts the call
      with the path in the error. */
  lemma MissingFieldRaises(cfg: Config, acc: Masked, path: string, d: Directive)
    requires cfg.raiseOnMissingField
    requires Parse(path).Success? && Find(acc.data, Parse(path).value) == []
    ensures FieldStep(cfg, acc, path, d) == Failure(FieldNotFound(path))
  {
  }

  lemma MissingFieldWarns(cfg: Config, acc: Masked, path: string, d: Directive)
    requires !cfg.raiseOnMissingField
    requires Parse(path).Success? && Find(acc.data, Parse(path).value) == []
    ensures FieldStep(cfg, acc, path, d) == Success(Masked(acc.data, acc.warnings + [FieldMissing(path, Render(acc.data))]))
    ensures Message(FieldMissing(path, Render(acc.data)))
         == "Field or expression " + path + " not found in " + Render(acc.data)
  {
  }

  /** One "Field or expression ... not found" warning per path. */
  function MissingWarnings(fields: seq<string>, data: string): (ws: seq<Warning>)
    ensures |ws| == |fields|
    ensures forall i :: 0 <= i < |fields| ==> ws[i] == FieldMissing(fields[i], data)
    decreases |fields|
  {
    if |fields| == 0 then [] else [FieldMissing(fields[0], data)] + MissingWarnings(fields[1..], data)
  }

  /** Without it, every path that selects nothing adds its warning and the data
      comes back as it went in. */
  /** A path that parses and selects nothing in `data`. */
  predicate NotFound(data: Value, path: string) {
    Parse(path).Success? && Find(data, Parse(path).value) == []
  }

  lemma MissingFieldsStep(cfg: Config, acc: Masked, fields: seq<string>, d: Directive)
    requires !cfg.raiseOnMissingField && |fields| > 0 && NotFound(acc.data, fields[0])
    ensures FieldsFrom(cfg, acc, fields, d)
         == FieldsFrom(cfg, Masked(acc.data, acc.warnings + [FieldMissing(fields[0], Render(acc.data))]), fields[1..], d)
  {
    MissingFieldWarns(cfg, acc, fields[0], d);
  }

  lemma {:induction false} MissingFieldsWarn(cfg: Config, acc: Masked, fields: seq<string>, d: Directive)
    requires !cfg.raiseOnMissingField
    requires forall i :: 0 <= i < |fields| ==> NotFound(acc.data, fields[i])
    ensures FieldsFrom(cfg, acc, fields, d)
         == Success(Masked(acc.data, acc.warnings + MissingWarnings(fields, Render(acc.data))))
    decreases |fields|
  {
    if |fields| == 0 {
      assert acc.warnings + [] == acc.warnings;
    } else {
      var text := Render(acc.data);
      var next := Masked(acc.data, acc.warnings + [FieldMissing(fields[0], text)]);
      MissingFieldsStep(cfg, acc, fields, d);
      forall i | 0 <= i < |fields[1..]| ensures NotFound(next.data, fields[1..][i]) {
        assert fields[1..][i] == fields[i + 1];
      }
      MissingFieldsWarn(cfg, next, fields[1..], d);
      MissingWarningsCons(acc.warnings, fields, text);
    }
  }

  lemma MissingWarningsCons(ws: seq<Warning>, fields: seq<string>, text: string)
    requires |fields| > 0
    ensures ws + [FieldMissing(fields[0], text)] + MissingWarnings(fields[1..], text) == ws + MissingWarnings(fields, text)
  {
    assert MissingWarnings(fields, text) == [FieldMissing(fields[0], text)] + MissingWarnings(fields[1..], text);
  }


  // ---------------------------------------------------------------------
  // Which locations a write sequence may change

  /** The default provider never fails. */
  lemma {:induction false} UpdateAllDefault(cfg: Config, v: Value, locs: seq<Loc>, d: Directive)
    requires cfg.provider.DefaultProvider?
    ensures UpdateAll(cfg, v, locs, d).Success?
    decreases |locs|
  {
    if |locs| > 0 {
      match At(v, locs[0])
      case None => UpdateAllDefault(cfg, v, locs[1..], d);
      case Some(x) => UpdateAllDefault(cfg, SetAt(v, locs[0], MaskValue(x, RuleOf(d), cfg.compile)), locs[1..], d);
    }
  }

  /** A location neither above nor below any selected location keeps its value. */
  lemma {:induction false} UpdateAllApart(cfg: Config, v: Value, locs: seq<Loc>, d: Directive, q: Loc)
    requires forall l :: l in locs ==> Apart(l, q)
    requires UpdateAll(cfg, v, locs, d).Success?
    ensures At(UpdateAll(cfg, v, locs, d).value, q) == At(v, q)
    decreases |locs|
  {
    if |locs| > 0 {
      assert locs[0] in locs;
      match At(v, locs[0])
      case None => UpdateAllApart(cfg, v, locs[1..], d, q);
      case Some(x) =>
        var y := ProviderErase(cfg, x, d).value;
        AtSetAtApart(v, locs[0], y, q);
        UpdateAllApart(cfg, SetAt(v, locs[0], y), locs[1..], d, q);
    }
  }

  /** Selected locations that do not nest each hold the mask of their own
      original value afterwards. */
  lemma {:induction false} UpdateAllMasksEach(cfg: Config, v: Value, locs: seq<Loc>, d: Directive, l: Loc)
    requires cfg.provider.DefaultProvider?
    requires forall i, j :: 0 <= i < j < |locs| ==> Apart(locs[i], locs[j])
    requires l in locs && At(v, l).Some?
    ensures UpdateAll(cfg, v, locs, d).Success?
    ensures At(UpdateAll(cfg, v, locs, d).value, l) == Some(MaskValue(At(v, l).value, RuleOf(d), cfg.compile))
    decreases |locs|
  {
    UpdateAllDefault(cfg, v, locs, d);
    var m := At(v, locs[0]);
    var v1 := if m.Some? then SetAt(v, locs[0], MaskValue(m.value, RuleOf(d), cfg.compile)) else v;
    assert UpdateAll(cfg, v, locs, d) == UpdateAll(cfg, v1, locs[1..], d);
    UpdateAllDefault(cfg, v1, locs[1..], d);
    if l == locs[0] {
      AtSetAtSame(v, l, MaskValue(m.value, RuleOf(d), cfg.compile));
      forall q | q in locs[1..] ensures Apart(q, l) {
        var j :| 1 <= j < |locs| && locs[j] == q;
      }
      UpdateAllApart(cfg, v1, locs[1..], d, l);
    } else {
      var j :| 1 <= j < |locs| && locs[j] == l;
      if m.Some? {
        AtSetAtApart(v, locs[0], MaskValue(m.value, RuleOf(d), cfg.compile), l);
      }
      UpdateAllMasksEach(cfg, v1, locs[1..], d, l);
    }
  }

  // ---------------------------------------------------------------------
  // `fields` mode: what changes

  /** A plain dotted path masks the leaf it names, as the default provider
      masks it. */
  lemma FieldStepChildPath(cfg: Config, acc: Masked, path: string, ks: seq<string>, d: Directive)
    requires cfg.provider.DefaultProvider?
    requires Parse(path) == Success(ChildPath(ks))
    requires At(acc.data, FieldLoc(ks)).Some?
    ensures FieldStep(cfg, acc, path, d).Success?
    ensures FieldStep(cfg, acc, path, d).value.warnings == acc.warnings
    ensures At(FieldStep(cfg, acc, path, d).value.data, FieldLoc(ks))
         == Some(MaskValue(At(acc.data, FieldLoc(ks)).value, RuleOf(d), cfg.compile))
  {
    FindChildPath(acc.data, ks);
    UpdateAllMasksEach(cfg, acc.data, [FieldLoc(ks)], d, FieldLoc(ks));
  }

  /** Any field path, `..` included, changes nothing apart from the locations it
      selects. */
  lemma FieldStepKeepsOthers(cfg: Config, acc: Masked, path: string, d: Directive, q: Loc)
    requires Parse(path).Success?
    requires forall l :: l in Find(acc.data, Parse(path).value) ==> Apart(l, q)
    requires FieldStep(cfg, acc, path, d).Success?
    ensures At(FieldStep(cfg, acc, path, d).value.data, q) == At(acc.data, q)
  {
    var locs := Find(acc.data, Parse(path).value);
    if |locs| > 0 {
      UpdateAllApart(cfg, acc.data, locs, d, q);
    }
  }

  /** A list of plain dotted paths changes only the leaves they name: every
      location apart from all of them keeps its value. */
  lemma {:induction false} FieldsKeepOthers(cfg: Config, acc: Masked, fields: seq<string>, kss: seq<seq<string>>,
                                           d: Directive, q: Loc)
    requires |kss| == |fields|
    requires forall i :: 0 <= i < |fields| ==> Parse(fields[i]) == Success(ChildPath(kss[i]))
    requires forall i :: 0 <= i < |fields| ==> Apart(FieldLoc(kss[i]), q)
    requires FieldsFrom(cfg, acc, fields, d).Success?
    ensures At(FieldsFrom(cfg, acc, fields, d).value.data, q) == At(acc.data, q)
    decreases |fields|
  {
    if |fields| > 0 {
      var next := FieldStep(cfg, acc, fields[0], d).value;
      FindChildPath(acc.data, kss[0]);
      FieldStepKeepsOthers(cfg, acc, fields[0], d, q);
      FieldsKeepOthers(cfg, next, fields[1..], kss[1..], d, q);
    }
  }

  /** The same frame from the caller's side: erasing plain dotted paths from a
      JSON dict leaves every location apart from all of them as it was. */
  lemma EraseFieldsKeepOthers(cfg: Config, data: Value, fields: seq<string>, kss: seq<seq<string>>,
                              d: Directive, q: Loc)
    requires data.Dict? && IsJson(data)
    requires |kss| == |fields|
    requires forall i :: 0 <= i < |fields| ==> Parse(fields[i]) == Success(ChildPath(kss[i]))
    requires forall i :: 0 <= i < |fields| ==> Apart(FieldLoc(kss[i]), q)
    requires EraseFields(cfg, data, fields, d).Success?
    ensures At(EraseFields(cfg, data, fields, d).value.data, q) == At(data, q)
  {
    JsonRoundTripOfJson(data);
    FieldsKeepOthers(cfg, Masked(data, []), fields, kss, d, q);
  }

  /** A JSON string gives the same result as the dict it encodes. */
  lemma JsonStringAsDict(cfg: Config, s: string, dict: Value, fields: seq<string>, d: Directive)
    requires cfg.decode(s) == Some(dict)
    requires dict.Dict? && IsJson(dict)
    ensures EraseFields(cfg, Str(s), fields, d) == EraseFields(cfg, dict, fields, d)
  {
    JsonRoundTripOfJson(dict);
  }

  // ---------------------------------------------------------------------
  // `masking_rules` mode

  /** `$.` + a rule path reads from the root like the path on its own. */
  lemma FindRooted(root: Value, p: Path)
    ensures Find(root, [Root] + p) == Find(root, p)
  {
    assert ([Root] + p)[1..] == p;
    assert StepAll(root, [[]], Root) == [[]];
  }

  /** A rule whose path selects nothing leaves the data as it was and adds
      exactly one "No matches found" warning. */
  lemma RuleNoMatch(cfg: Config, data: Value, path: string, d: Directive)
    requires Parse("$." + path).Success? && Find(data, Parse("$." + path).value) == []
    ensures RulesFrom(cfg, Masked(data, []), [(path, d)]) == Masked(data, [NoMatches(path)])
  {
  }

  /** A rule whose path does not parse leaves the data as it was and adds one
      "Error processing path" warning. */
  lemma RulePathFails(cfg: Config, data: Value, path: string, d: Directive)
    requires Parse("$." + path).Failure?
    ensures RulesFrom(cfg, Masked(data, []), [(path, d)])
         == Masked(data, [PathFailed(path, Parse("$." + path).error)])
  {
  }

  /** A path with a trailing separator, like `user.ssn...`, never parses. */
  lemma TrailingDotRulePath(path: string)
    requires |path| >= 1 && path[|path| - 1] == '.'
    ensures Parse("$." + path).Failure?
  {
    assert "$." + path == ("$." + path[..|path| - 1]) + ".";
    TrailingDotRejected("$." + path[..|path| - 1], false);
  }

  lemma {:induction false} RuleWritesApart(cfg: Config, snapshot: Value, acc: Masked, locs: seq<Loc>,
                                          path: string, d: Directive, q: Loc)
    requires forall l :: l in locs ==> Apart(l, q)
    ensures At(RuleWrites(cfg, snapshot, acc, locs, path, d).data, q) == At(acc.data, q)
    decreases |locs|
  {
    if |locs| > 0 {
      assert locs[0] in locs;
      match At(snapshot, locs[0])
      case None =>
        RuleWritesApart(cfg, snapshot, acc, locs[1..], path, d, q);
      case Some(x) =>
        match ProviderErase(cfg, Str(Render(x)), d)
        case Failure(e) =>
          RuleWritesApart(cfg, snapshot, Masked(acc.data, acc.warnings + [MaskingFailed(path, e)]), locs[1..], path, d, q);
        case Success(y) =>
          AtSetAtApart(acc.data, locs[0], y, q);
          RuleWritesApart(cfg, snapshot, Masked(SetAt(acc.data, locs[0], y), acc.warnings), locs[1..], path, d, q);
    }
  }

  /** Rules with plain dotted paths leave every location apart from the leaves
      they name untouched. */
  lemma {:induction false} RulesKeepOthers(cfg: Config, acc: Masked, rules: seq<(string, Directive)>,
                                          kss: seq<seq<string>>, q: Loc)
    requires |kss| == |rules|
    requires forall i :: 0 <= i < |rules| ==> Parse("$." + rules[i].0) == Success([Root] + ChildPath(kss[i]))
    requires forall i :: 0 <= i < |rules| ==> Apart(FieldLoc(kss[i]), q)
    ensures At(RulesFrom(cfg, acc, rules).data, q) == At(acc.data, q)
    decreases |rules|
  {
    if |rules| > 0 {
      var (path, d) := rules[0];
      FindRooted(acc.data, ChildPath(kss[0]));
      FindChildPath(acc.data, kss[0]);
      var locs := Find(acc.data, [Root] + ChildPath(kss[0]));
      if |locs| > 0 {
        RuleWritesApart(cfg, acc.data, acc, locs, path, d, q);
      }
      RulesKeepOthers(cfg, RuleStep(cfg, acc, path, d), rules[1..], kss[1..], q);
    }
  }

  /** A provider that always fails leaves the data unchanged under any rule map. */
  lemma {:induction false} RuleWritesFailing(cfg: Config, snapshot: Value, acc: Masked, locs: seq<Loc>,
                                            path: string, d: Directive)
    requires cfg.provider.CustomProvider?
    requires forall v, o :: cfg.provider.erase(v, o).Failure?
    ensures RuleWrites(cfg, snapshot, acc, locs, path, d).data == acc.data
    decreases |locs|
  {
    if |locs| > 0 {
      match At(snapshot, locs[0])
      case None =>
        RuleWritesFailing(cfg, snapshot, acc, locs[1..], path, d);
      case Some(x) =>
        var e := cfg.provider.erase(Str(Render(x)), d).error;
        RuleWritesFailing(cfg, snapshot, Masked(acc.data, acc.warnings + [MaskingFailed(path, e)]), locs[1..], path, d);
    }
  }

  lemma {:induction false} RulesProviderFails(cfg: Config, acc: Masked, rules: seq<(string, Directive)>)
    requires cfg.provider.CustomProvider?
    requires forall v, o :: cfg.provider.erase(v, o).Failure?
    ensures RulesFrom(cfg, acc, rules).data == acc.data
    decreases |rules|
  {
    if |rules| > 0 {
      var (path, d) := rules[0];
      if Parse("$." + path).Success? {
        var locs := Find(acc.data, Parse("$." + path).value);
        if |locs| > 0 {
          RuleWritesFailing(cfg, acc.data, acc, locs, path, d);
        }
      }
      RulesProviderFails(cfg, RuleStep(cfg, acc, path, d), rules[1..]);
    }
  }

  /** A rule selecting one location whose provider raises warns with the path
      and the provider's message, and leaves the data unchanged. */
  lemma RuleProviderFailsOnce(cfg: Config, data: Value, path: string, d: Directive, l: Loc, e: string)
    requires Parse("$." + path).Success? && Find(data, Parse("$." + path).value) == [l]
    requires At(data, l).Some?
    requires ProviderErase(cfg, Str(Render(At(data, l).value)), d) == Failure(e)
    ensures RulesFrom(cfg, Masked(data, []), [(path, d)]) == Masked(data, [MaskingFailed(path, e)])
    ensures Message(MaskingFailed(path, e)) == "Error masking value for path " + path + ": " + e
  {
    var acc := Masked(data, []);
    var failed := Masked(data, [MaskingFailed(path, e)]);
    assert RuleWrites(cfg, data, acc, [l], path, d) == RuleWrites(cfg, data, failed, [], path, d);
    assert RuleStep(cfg, acc, path, d) == failed;
  }

  /** A rule masks the string form of what it selects: a custom mask on a path
      that leads to a list replaces the whole list by the mask. */
  lemma RuleCustomMaskOnList(cfg: Config, data: Value, path: string, ks: seq<string>, m: string, o: Directive)
    requires cfg.provider.DefaultProvider?
    requires o.customMask == Some(m)
    requires Parse("$." + path) == Success([Root] + ChildPath(ks))
    requires At(data, FieldLoc(ks)).Some? && At(data, FieldLoc(ks)).value.List?
    ensures At(RulesFrom(cfg, Masked(data, []), [(path, o)]).data, FieldLoc(ks)) == Some(Str(m))
  {
    var loc := FieldLoc(ks);
    FindRooted(data, ChildPath(ks));
    FindChildPath(data, ks);
    assert MaskValue(Str(Render(At(data, loc).value)), RuleOf(o), cfg.compile) == Str(m);
    var acc := Masked(data, []);
    var written := Masked(SetAt(data, loc, Str(m)), []);
    assert RuleWrites(cfg, data, acc, [loc], path, o) == RuleWrites(cfg, data, written, [], path, o);
    assert RuleStep(cfg, acc, path, o) == written;
    AtSetAtSame(data, loc, Str(m));
  }

  /** With the built-in provider a rule whose plain path exists replaces the
      value there by the rule's mask of its string form, and adds no warning. */
  lemma RuleStepChildPath(cfg: Config, acc: Masked, path: string, ks: seq<string>, d: Directive)
    requires cfg.provider.DefaultProvider?
    requires Parse("$." + path) == Success([Root] + ChildPath(ks))
    requires At(acc.data, FieldLoc(ks)).Some?
    ensures RuleStep(cfg, acc, path, d).warnings == acc.warnings
    ensures At(RuleStep(cfg, acc, path, d).data, FieldLoc(ks))
         == Some(MaskValue(Str(Render(At(acc.data, FieldLoc(ks)).value)), RuleOf(d), cfg.compile))
  {
    var loc := FieldLoc(ks);
    FindRooted(acc.data, ChildPath(ks));
    FindChildPath(acc.data, ks);
    var y := MaskValue(Str(Render(At(acc.data, loc).value)), RuleOf(d), cfg.compile);
    var written := Masked(SetAt(acc.data, loc, y), acc.warnings);
    assert RuleWrites(cfg, acc.data, acc, [loc], path, d) == RuleWrites(cfg, acc.data, written, [], path, d);
    assert RuleStep(cfg, acc, path, d) == written;
    AtSetAtSame(acc.data, loc, y);
  }

  /** One rule over a plain path leaves every location apart from it as it was. */
  lemma RuleStepKeepsOthers(cfg: Config, acc: Masked, path: string, ks: seq<string>, d: Directive, q: Loc)
    requires Parse("$." + path) == Success([Root] + ChildPath(ks))
    requires Apart(FieldLoc(ks), q)
    ensures At(RuleStep(cfg, acc, path, d).data, q) == At(acc.data, q)
  {
    RulesKeepOthers(cfg, acc, [(path, d)], [ks], q);
    assert RulesFrom(cfg, acc, [(path, d)]) == RulesFrom(cfg, RuleStep(cfg, acc, path, d), []);
  }

  /** The first rule of the map masks its path, and the later rules, whose
      paths are apart from it, keep what it wrote. */
  lemma RulesMaskFirst(cfg: Config, acc: Masked, rules: seq<(string, Directive)>, kss: seq<seq<string>>)
    requires cfg.provider.DefaultProvider?
    requires |kss| == |rules| && |rules| > 0
    requires Parse("$." + rules[0].0) == Success([Root] + ChildPath(kss[0]))
    requires forall i :: 1 <= i < |rules| ==> Parse("$." + rules[i].0) == Success([Root] + ChildPath(kss[i]))
    requires forall i :: 1 <= i < |rules| ==> Apart(FieldLoc(kss[0]), FieldLoc(kss[i]))
    requires At(acc.data, FieldLoc(kss[0])).Some?
    ensures At(RulesFrom(cfg, acc, rules).data, FieldLoc(kss[0]))
         == Some(MaskValue(Str(Render(At(acc.data, FieldLoc(kss[0])).value)), RuleOf(rules[0].1), cfg.compile))
  {
    var next := RuleStep(cfg, acc, rules[0].0, rules[0].1);
    RuleStepChildPath(cfg, acc, rules[0].0, kss[0], rules[0].1);
    assert forall i :: 0 <= i < |rules| - 1 ==> Parse("$." + rules[1..][i].0) == Success([Root] + ChildPath(kss[1..][i])) by {
      forall i | 0 <= i < |rules| - 1 ensures Parse("$." + rules[1..][i].0) == Success([Root] + ChildPath(kss[1..][i])) {
        assert rules[1..][i] == rules[i + 1] && kss[1..][i] == kss[i + 1];
      }
    }
    assert forall i :: 0 <= i < |rules| - 1 ==> Apart(FieldLoc(kss[1..][i]), FieldLoc(kss[0])) by {
      forall i | 0 <= i < |rules| - 1 ensures Apart(FieldLoc(kss[1..][i]), FieldLoc(kss[0])) {
        assert kss[1..][i] == kss[i + 1];
      }
    }
    RulesKeepOthers(cfg, next, rules[1..], kss[1..], FieldLoc(kss[0]));
  }

  /** A rule map over pairwise apart plain paths: each path that exists ends up
      holding its own rule's mask of the string form of its original value. */
  lemma {:induction false} RulesMaskEach(cfg: Config, acc: Masked, rules: seq<(string, Directive)>,
                                        kss: seq<seq<string>>, j: nat)
    requires cfg.provider.DefaultProvider?
    requires |kss| == |rules|
    requires forall i :: 0 <= i < |rules| ==> Parse("$." + rules[i].0) == Success([Root] + ChildPath(kss[i]))
    requires forall i, i' :: 0 <= i < i' < |rules| ==> Apart(FieldLoc(kss[i]), FieldLoc(kss[i']))
    requires j < |rules| && At(acc.data, FieldLoc(kss[j])).Some?
    ensures At(RulesFrom(cfg, acc, rules).data, FieldLoc(kss[j]))
         == Some(MaskValue(Str(Render(At(acc.data, FieldLoc(kss[j])).value)), RuleOf(rules[j].1), cfg.compile))
    decreases |rules|
  {
    if j == 0 {
      RulesMaskFirst(cfg, acc, rules, kss);
    } else {
      RuleStepKeepsOthers(cfg, acc, rules[0].0, kss[0], rules[0].1, FieldLoc(kss[j]));
      RulesMaskRest(cfg, acc, rules, kss, j);
    }
  }

  /** A later rule's path is read after the first rule wrote elsewhere. */
  lemma {:induction false} RulesMaskRest(cfg: Config, acc: Masked, rules: seq<(string, Directive)>,
                                        kss: seq<seq<string>>, j: nat)
    requires cfg.provider.DefaultProvider?
    requires |kss| == |rules| && 0 < j < |rules|
    requires forall i :: 0 <= i < |rules| ==> Parse("$." + rules[i].0) == Success([Root] + ChildPath(kss[i]))
    requires forall i, i' :: 0 <= i < i' < |rules| ==> Apart(FieldLoc(kss[i]), FieldLoc(kss[i']))
    requires At(RuleStep(cfg, acc, rules[0].0, rules[0].1).data, FieldLoc(kss[j])) == At(acc.data, FieldLoc(kss[j]))
    requires At(acc.data, FieldLoc(kss[j])).Some?
    ensures At(RulesFrom(cfg, acc, rules).data, FieldLoc(kss[j]))
         == Some(MaskValue(Str(Render(At(acc.data, FieldLoc(kss[j])).value)), RuleOf(rules[j].1), cfg.compile))
    decreases |rules|, 0
  {
    var next := RuleStep(cfg, acc, rules[0].0, rules[0].1);
    assert RulesFrom(cfg, acc, rules) == RulesFrom(cfg, next, rules[1..]);
    assert rules[1..][j - 1] == rules[j] && kss[1..][j - 1] == kss[j];
    RulesMaskEach(cfg, next, rules[1..], kss[1..], j - 1);
  }

  /** The same list reached by a field path with the dynamic mask is masked
      element by element. */
  lemma FieldDynamicMaskOnList(cfg: Config, acc: Masked, path: string, ks: seq<string>, xs: seq<Value>)
    requires cfg.provider.DefaultProvider?
    requires Parse(path) == Success(ChildPath(ks))
    requires At(acc.data, FieldLoc(ks)) == Some(List(xs))
    requires forall i :: 0 <= i < |xs| ==> xs[i].Str?
    ensures FieldStep(cfg, acc, path, Directive(None, true, None, None)).Success?
    ensures At(FieldStep(cfg, acc, path, Directive(None, true, None, None)).value.data, FieldLoc(ks))
         == Some(List(seq(|xs|, i requires 0 <= i < |xs| => Str(Strings.Stars(|xs[i].s|)))))
  {
    FieldStepChildPath(cfg, acc, path, ks, Directive(None, true, None, None));
    DynamicMaskStrings(xs, cfg.compile);
  }

  // ---------------------------------------------------------------------
  // `_mask_nested_field`

  /** The leaf the keys spell is replaced by its mask. */
  lemma NestedLeafMasked(cfg: Config, root: Value, keys: seq<string>, arg: MaskArg)
    requires At(root, FieldLoc(keys)).Some?
    requires LeafMask(cfg, arg, At(root, FieldLoc(keys)).value).Success?
    ensures NestedMasked(cfg, root, keys, arg).Success?
    ensures At(NestedMasked(cfg, root, keys, arg).value, FieldLoc(keys))
         == Some(LeafMask(cfg, arg, At(root, FieldLoc(keys)).value).value)
  {
    AtSetAtSame(root, FieldLoc(keys), LeafMask(cfg, arg, At(root, FieldLoc(keys)).value).value);
  }

  /** Every location apart from the leaf, siblings along the path included,
      keeps its value. */
  lemma NestedKeepsOthers(cfg: Config, root: Value, keys: seq<string>, arg: MaskArg, q: Loc)
    requires Apart(FieldLoc(keys), q)
    requires NestedMasked(cfg, root, keys, arg).Success?
    ensures At(NestedMasked(cfg, root, keys, arg).value, q) == At(root, q)
  {
    if At(root, FieldLoc(keys)).Some? {
      AtSetAtApart(root, FieldLoc(keys), LeafMask(cfg, arg, At(root, FieldLoc(keys)).value).value, q);
    }
  }

  /** A key on the way that holds something other than a dict stops the walk:
      nothing changes and nothing fails. */
  lemma NestedStopsAtNonDict(cfg: Config, root: Value, keys: seq<string>, arg: MaskArg, i: nat)
    requires i < |keys| - 1
    requires At(root, FieldLoc(keys[..i + 1])).Some? && !At(root, FieldLoc(keys[..i + 1])).value.Dict?
    ensures NestedMasked(cfg, root, keys, arg) == Success(root)
  {
    var x := At(root, FieldLoc(keys[..i + 1])).value;
    assert FieldLoc(keys) == FieldLoc(keys[..i + 1]) + FieldLoc(keys[i + 1..]);
    AtAppend(root, FieldLoc(keys[..i + 1]), FieldLoc(keys[i + 1..]));
  }
}
