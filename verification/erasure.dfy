/** What `DataMasking.erase` computes, mode by mode, as functions of the
    instance's configuration: the whole-value mode, the `fields` mode with its
    hard failures, and the `masking_rules` mode whose failures only warn. */
module Erasure {
  import opened Wrappers
  import opened Values
  import opened JsonPath
  import opened Masking

  /** The provider `erase` delegates to: the built-in masking provider, or a
      user-supplied one whose `erase` may raise (a Failure with its message). */
  datatype Provider =
    | DefaultProvider
    | CustomProvider(erase: (Value, Directive) -> Result<Value, string>)

  /** A DataMasking instance's settings. The regex engine (`compile`) and
      `json.loads` (`decode`) are supplied from outside. */
  datatype Config = Config(
    provider: Provider,
    raiseOnMissingField: bool,
    compile: Compile,
    decode: string -> Option<Value>)

  /** The exceptions `erase`, `encrypt` and `decrypt` raise. */
  datatype Error =
    | UnsupportedType                         // DataMaskingUnsupportedTypeError
    | NoFieldsSpecified                       // ValueError: empty field list
    | FieldNotFound(path: string)             // DataMaskingFieldNotFoundError
    | InvalidPath(path: string, detail: string)
    | NotSerializable                         // json.dumps refuses the data
    | InvalidJson                             // json.loads refuses the string
    | ProviderError(detail: string)           // raised by the provider
    | NotImplemented                          // NotImplementedError

  /** The warnings `erase` emits instead of failing. */
  datatype Warning =
    | FieldMissing(path: string, data: string)
    | NoMatches(path: string)
    | MaskingFailed(path: string, detail: string)
    | PathFailed(path: string, detail: string)

  function Message(w: Warning): string {
    match w
    case FieldMissing(p, data) => "Field or expression " + p + " not found in " + data
    case NoMatches(p) => "No matches found for path " + p
    case MaskingFailed(p, e) => "Error masking value for path " + p + ": " + e
    case PathFailed(p, e) => "Error processing path " + p + ": " + e
  }

  /** The masked data and the warnings emitted while producing it. */
  datatype Masked = Masked(data: Value, warnings: seq<Warning>)

  /** `provider.erase(value, **options)`. */
  function ProviderErase(cfg: Config, v: Value, d: Directive): Result<Value, string> {
    match cfg.provider
    case DefaultProvider => Success(MaskValue(v, RuleOf(d), cfg.compile))
    case CustomProvider(erase) => erase(v, d)
  }

  // ---------------------------------------------------------------------
  // Whole-value mode

  function EraseWhole(cfg: Config, data: Value, d: Directive): Result<Masked, Error> {
    match ProviderErase(cfg, data, d)
    case Failure(e) => Failure(ProviderError(e))
    case Success(v) => Success(Masked(v, []))
  }

  // ---------------------------------------------------------------------
  // `fields` mode

  /** The data the field paths are resolved in: an empty field list is refused
      first; a string is decoded as JSON, a dict is passed through a JSON round
      trip, and anything else is refused. */
  function Normalize(cfg: Config, fields: seq<string>, data: Value): Result<Value, Error> {
    if |fields| == 0 then Failure(NoFieldsSpecified)
    else if data.Str? then
      (match cfg.decode(data.s)
       case None => Failure(InvalidJson)
       case Some(v) => Success(v))
    else if data.Dict? then
      (match JsonRoundTrip(data)
       case None => Failure(NotSerializable)
       case Some(v) => Success(v))
    else Failure(UnsupportedType)
  }

  /** Each selected location in turn replaced by the provider's erase of the
      value found there at that moment; a location an earlier write removed is
      skipped. The first provider failure aborts. */
  function UpdateAll(cfg: Config, v: Value, locs: seq<Loc>, d: Directive): Result<Value, string>
    decreases |locs|
  {
    if |locs| == 0 then Success(v)
    else
      match At(v, locs[0])
      case None => UpdateAll(cfg, v, locs[1..], d)
      case Some(x) =>
        match ProviderErase(cfg, x, d)
        case Failure(e) => Failure(e)
        case Success(y) => UpdateAll(cfg, SetAt(v, locs[0], y), locs[1..], d)
  }

  /** One field path: a path that selects nothing fails or warns, as the
      instance is configured. */
  function FieldStep(cfg: Config, acc: Masked, path: string, d: Directive): Result<Masked, Error> {
    match Parse(path)
    case Failure(e) => Failure(InvalidPath(path, e))
    case Success(p) =>
      var locs := Find(acc.data, p);
      if |locs| == 0 then
        if cfg.raiseOnMissingField then Failure(FieldNotFound(path))
        else Success(Masked(acc.data, acc.warnings + [FieldMissing(path, Render(acc.data))]))
      else
        match UpdateAll(cfg, acc.data, locs, d)
        case Failure(e) => Failure(ProviderError(e))
        case Success(w) => Success(Masked(w, acc.warnings))
  }

  function FieldsFrom(cfg: Config, acc: Masked, fields: seq<string>, d: Directive): Result<Masked, Error>
    decreases |fields|
  {
    if |fields| == 0 then Success(acc)
    else
      match FieldStep(cfg, acc, fields[0], d)
      case Failure(e) => Failure(e)
      case Success(next) => FieldsFrom(cfg, next, fields[1..], d)
  }

  function EraseFields(cfg: Config, data: Value, fields: seq<string>, d: Directive): Result<Masked, Error> {
    match Normalize(cfg, fields, data)
    case Failure(e) => Failure(e)
    case Success(v) => FieldsFrom(cfg, Masked(v, []), fields, d)
  }

  // ---------------------------------------------------------------------
  // `masking_rules` mode

  /** The writes of one rule. Each match's value, as found before any write,
      is turned into its string form and handed to the provider; a provider
      failure warns and leaves that location as it was. */
  function RuleWrites(cfg: Config, snapshot: Value, acc: Masked, locs: seq<Loc>, path: string, d: Directive): Masked
    decreases |locs|
  {
    if |locs| == 0 then acc
    else
      var next :=
        match At(snapshot, locs[0])
        case None => acc
        case Some(x) =>
          (match ProviderErase(cfg, Str(Render(x)), d)
           case Failure(e) => Masked(acc.data, acc.warnings + [MaskingFailed(path, e)])
           case Success(y) => Masked(SetAt(acc.data, locs[0], y), acc.warnings));
      RuleWrites(cfg, snapshot, next, locs[1..], path, d)
  }

  /** One rule: its path is read below the root (`$.` + path); a path that does
      not parse or selects nothing only warns. */
  function RuleStep(cfg: Config, acc: Masked, path: string, d: Directive): Masked {
    match Parse("$." + path)
    case Failure(e) => Masked(acc.data, acc.warnings + [PathFailed(path, e)])
    case Success(p) =>
      var locs := Find(acc.data, p);
      if |locs| == 0 then Masked(acc.data, acc.warnings + [NoMatches(path)])
      else RuleWrites(cfg, acc.data, acc, locs, path, d)
  }

  function RulesFrom(cfg: Config, acc: Masked, rules: seq<(string, Directive)>): Masked
    decreases |rules|
  {
    if |rules| == 0 then acc else RulesFrom(cfg, RuleStep(cfg, acc, rules[0].0, rules[0].1), rules[1..])
  }

  // ---------------------------------------------------------------------
  // The entry point

  /** A non-empty rule map takes precedence, then a field list; with neither the
      whole value is masked. */
  function Erase(cfg: Config, data: Value, fields: Option<seq<string>>, d: Directive,
                 rules: seq<(string, Directive)>): Result<Masked, Error>
  {
    if |rules| > 0 then Success(RulesFrom(cfg, Masked(data, []), rules))
    else if fields.Some? then EraseFields(cfg, data, fields.value, d)
    else EraseWhole(cfg, data, d)
  }

  // ---------------------------------------------------------------------
  // `_mask_nested_field`

  /** The masking argument: a callable applied to the leaf, or a rule dict
      handed to the provider with the leaf. */
  datatype MaskArg = Callback(f: Value -> Value) | RuleDict(d: Directive)

  function LeafMask(cfg: Config, arg: MaskArg, x: Value): Result<Value, string> {
    match arg
    case Callback(f) => Success(f(x))
    case RuleDict(d) => ProviderErase(cfg, x, d)
  }

  /** The dict after masking the leaf the dotted keys spell out; when the keys
      lead through a missing key or a value that is not a dict, nothing changes. */
  function NestedMasked(cfg: Config, root: Value, keys: seq<string>, arg: MaskArg): Result<Value, string> {
    match At(root, FieldLoc(keys))
    case None => Success(root)
    case Some(x) =>
      match LeafMask(cfg, arg, x)
      case Failure(e) => Failure(e)
      case Success(y) => Success(SetAt(root, FieldLoc(keys), y))
  }
}
