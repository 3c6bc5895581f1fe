/** Copy options: the option record handed to the reflective copier, the
    option setters that change it, the field-name mapping `WithFilter`
    builds, and the four converters `Copy` always installs. The reflective
    copy itself is not part of this model. */
module Copier {
  import opened Values

  /** `HID`, an xid identifier, represented by its text. */
  datatype HID = HID(text: string)

  /** `HID.String`. */
  function HidString(h: HID): string
  {
    h.text
  }

  /** `ParseID`: the identifier a text denotes. */
  function ParseID(s: string): HID
  {
    HID(s)
  }

  /** The types a converter or mapping names; a struct is known by its name
      and the names of its fields, in declaration order. */
  datatype TypeDesc = HIDType | StringType | TimeType | Int64Type | Struct(name: string, fields: seq<string>)

  /** A dynamically typed value handed to a converter. */
  datatype Dyn = DHID(id: HID) | DString(s: string) | DTime(t: Instant) | DInt64(n: int) | DOther

  /** The converters `Copy` defines, and those a caller passes in. */
  datatype ConverterFn = HidToString | StringToHid | TimeToInt64 | Int64ToTime | Custom(name: string)

  /** `copier.TypeConverter`. */
  datatype TypeConverter = TypeConverter(src: TypeDesc, dst: TypeDesc, fn: ConverterFn)

  /** `copier.FieldNameMapping`. */
  datatype FieldNameMapping = FieldNameMapping(src: TypeDesc, dst: TypeDesc, mapping: map<string, string>)

  /** The error every built-in converter returns on a value of the wrong type. */
  const NotMatching: GoError := GoError("src type not matching to hin.HID")

  /** A built-in converter applied to a value. */
  function Convert(fn: ConverterFn, from: Dyn): (r: Result<Dyn, GoError>)
    requires !fn.Custom?
    ensures r.Err? ==> r.error == NotMatching
  {
    match fn
    case HidToString => if from.DHID? then Ok(DString(HidString(from.id))) else Err(NotMatching)
    case StringToHid => if from.DString? then Ok(DHID(ParseID(from.s))) else Err(NotMatching)
    case TimeToInt64 => if from.DTime? then Ok(DInt64(WrapInt64(UnixMilli(from.t)))) else Err(NotMatching)
    case Int64ToTime => if from.DInt64? then Ok(DTime(FromUnixMilli(from.n))) else Err(NotMatching)
  }

  /** The value has the type `t` names. */
  predicate HasType(v: Dyn, t: TypeDesc)
  {
    match t
    case HIDType => v.DHID?
    case StringType => v.DString?
    case TimeType => v.DTime?
    case Int64Type => v.DInt64?
    case Struct(_, _) => false
  }

  /** The four converters `Copy` installs, in order. */
  const BuiltinConverters: seq<TypeConverter> := [
    TypeConverter(HIDType, StringType, HidToString),
    TypeConverter(StringType, HIDType, StringToHid),
    TypeConverter(TimeType, Int64Type, TimeToInt64),
    TypeConverter(Int64Type, TimeType, Int64ToTime)
  ]

  /** A built-in converter fails exactly on a value of another type than
      its declared source, and then with the one fixed error. */
  lemma ConvertFailsOnWrongType(i: nat, from: Dyn)
    requires i < |BuiltinConverters|
    ensures !BuiltinConverters[i].fn.Custom?
    ensures Convert(BuiltinConverters[i].fn, from).Err? <==> !HasType(from, BuiltinConverters[i].src)
    ensures Convert(BuiltinConverters[i].fn, from).Ok? ==>
      HasType(Convert(BuiltinConverters[i].fn, from).value, BuiltinConverters[i].dst)
  {
  }

  /** int64 -> time -> int64 is the identity on int64 values. */
  lemma Int64TimeRoundTrip(n: int)
    requires IsInt64(n)
    ensures Convert(Int64ToTime, DInt64(n)).Ok?
    ensures Convert(TimeToInt64, Convert(Int64ToTime, DInt64(n)).value) == Ok(DInt64(n))
  {
    UnixMilliOfFromUnixMilli(n);
  }

  /** time -> int64 -> time keeps the instant's millisecond, for instants
      whose milliseconds fit in an int64. */
  lemma TimeInt64RoundTrip(t: Instant)
    requires IsInt64(UnixMilli(t))
    ensures Convert(TimeToInt64, DTime(t)).Ok?
    ensures var back := Convert(Int64ToTime, Convert(TimeToInt64, DTime(t)).value);
      back.Ok? && back.value.DTime? && UnixMilli(back.value.t) == UnixMilli(t)
  {
    UnixMilliOfFromUnixMilli(UnixMilli(t));
  }

  /** HID -> string -> HID is the identity. */
  lemma HidStringRoundTrip(h: HID)
    ensures Convert(StringToHid, Convert(HidToString, DHID(h)).value) == Ok(DHID(h))
  {
  }

  // ---------------------------------------------------------------------
  // Field-name mapping

  /** The target `WithFilter` gives field `k`: "_" (not copied) when `k` is
      listed in skip mode or unlisted in only mode, else `k` itself. */
  function FilterTarget(k: string, skipOrOnly: bool, keys: seq<string>): string
  {
    if (k in keys) == skipOrOnly then "_" else k
  }

  /** The mapping `WithFilter` builds over the field names of `from`. */
  function FilterMap(fields: seq<string>, skipOrOnly: bool, keys: seq<string>): map<string, string>
  {
    map k | k in fields :: FilterTarget(k, skipOrOnly, keys)
  }

  /** `WithFilter`'s inner loop for field `k`: each listed key equal to `k`
      flips the field's default target. */
  method ApplyKeys(mapping: map<string, string>, k: string, skipOrOnly: bool, keys: seq<string>)
    returns (r: map<string, string>)
    requires k in mapping && mapping[k] == FilterTarget(k, skipOrOnly, [])
    ensures r == mapping[k := FilterTarget(k, skipOrOnly, keys)]
  {
    r := mapping;
    assert r == mapping[k := FilterTarget(k, skipOrOnly, [])];
    for j := 0 to |keys|
      invariant r == mapping[k := if k in keys[..j] then FilterTarget(k, skipOrOnly, keys) else FilterTarget(k, skipOrOnly, [])]
    {
      if k == keys[j] {
        if !skipOrOnly {
          r := r[k := k];
        } else {
          r := r[k := "_"];
        }
      }
      assert keys[..j + 1] == keys[..j] + [keys[j]];
    }
    assert keys[..|keys|] == keys;
  }

  /** `WithFilter`'s loops: each field first gets its mode's default, then
      every listed key equal to it flips it. */
  method FilterMapping(fields: seq<string>, skipOrOnly: bool, keys: seq<string>) returns (mapping: map<string, string>)
    ensures mapping.Keys == set k | k in fields
    ensures skipOrOnly ==> forall k :: k in mapping ==> mapping[k] == (if k in keys then "_" else k)
    ensures !skipOrOnly ==> forall k :: k in mapping ==> mapping[k] == (if k in keys then k else "_")
    ensures mapping == FilterMap(fields, skipOrOnly, keys)
  {
    mapping := map[];
    for i := 0 to |fields|
      invariant mapping.Keys == set k | k in fields[..i]
      invariant forall k :: k in mapping ==> mapping[k] == FilterTarget(k, skipOrOnly, keys)
    {
      var k := fields[i];
      if skipOrOnly {
        mapping := mapping[k := k];
      } else {
        mapping := mapping[k := "_"];
      }
      mapping := ApplyKeys(mapping, k, skipOrOnly, keys);
      assert fields[..i + 1] == fields[..i] + [k];
    }
    assert fields[..|fields|] == fields;
  }

  // ---------------------------------------------------------------------
  // Options

  /** `CopyOption`: the option setters. */
  datatype CopyOption =
    | WithCopyConverters(converters: seq<TypeConverter>)
    | WithCopyIgnoreEmpty(ignoreEmpty: bool)
    | WithCopyCaseSensitive(caseSensitive: bool)
    | WithCopyDeep(deep: bool)
    | WithFilter(from: TypeDesc, to: TypeDesc, skipOrOnly: bool, keys: seq<string>)

  /** The contents of a `copier.Option`. */
  datatype Settings = Settings(
    converters: seq<TypeConverter>,
    ignoreEmpty: bool,
    caseSensitive: bool,
    deepCopy: bool,
    fieldNameMapping: seq<FieldNameMapping>)

  /** The type is a struct, so that `reflect.Type.NumField` answers: `HID`
      and `time.Time` are structs, while `NumField` panics on `string` and
      `int64`. */
  predicate HasFields(t: TypeDesc)
  {
    !t.StringType? && !t.Int64Type?
  }

  /** The field names `reflect.TypeOf(from)` lists, in declaration order:
      `HID` holds one field `id`, `time.Time` the fields `wall`, `ext` and
      `loc`. */
  function FieldNames(t: TypeDesc): (names: seq<string>)
    requires HasFields(t)
    ensures t.Struct? ==> names == t.fields
    ensures t.HIDType? ==> names == ["id"]
  {
    match t
    case HIDType => ["id"]
    case TimeType => ["wall", "ext", "loc"]
    case Struct(_, fields) => fields
  }

  /** The option can be applied without panicking: a `WithFilter` names a
      struct as its source. */
  predicate OptionReady(o: CopyOption)
  {
    o.WithFilter? ==> HasFields(o.from)
  }

  /** Every option can be applied. */
  predicate OptionsReady(opts: seq<CopyOption>)
  {
    forall i :: 0 <= i < |opts| ==> OptionReady(opts[i])
  }

  /** What one option does to the settings. */
  function ApplyCopyOption(s: Settings, o: CopyOption): Settings
    requires OptionReady(o)
  {
    match o
    case WithCopyConverters(cs) => s.(converters := s.converters + cs)
    case WithCopyIgnoreEmpty(v) => s.(ignoreEmpty := v)
    case WithCopyCaseSensitive(v) => s.(caseSensitive := v)
    case WithCopyDeep(v) => s.(deepCopy := v)
    case WithFilter(from, to, skipOrOnly, keys) =>
      s.(fieldNameMapping := [FieldNameMapping(from, to, FilterMap(FieldNames(from), skipOrOnly, keys))])
  }

  /** The options applied in order. */
  function ApplyCopyOptions(s: Settings, opts: seq<CopyOption>): Settings
    requires OptionsReady(opts)
  {
    if opts == [] then s
    else ApplyCopyOption(ApplyCopyOptions(s, opts[..|opts| - 1]), opts[|opts| - 1])
  }

  /** The settings `Copy` starts from. */
  const InitialSettings: Settings := Settings(BuiltinConverters, false, false, false, [])

  /** The settings `Copy` hands to the copier. */
  function CopySettings(opts: seq<CopyOption>): Settings
    requires OptionsReady(opts)
  {
    ApplyCopyOptions(InitialSettings, opts)
  }

  /** `copier.Option`, which every option changes in place. */
  class CopierOption {
    var converters: seq<TypeConverter>
    var ignoreEmpty: bool
    var caseSensitive: bool
    var deepCopy: bool
    var fieldNameMapping: seq<FieldNameMapping>

    function State(): Settings
      reads this
    {
      Settings(converters, ignoreEmpty, caseSensitive, deepCopy, fieldNameMapping)
    }

    /** The composite literal with only the converters set. */
    constructor (converters: seq<TypeConverter>)
      ensures State() == Settings(converters, false, false, false, [])
    {
      this.converters := converters;
      ignoreEmpty := false;
      caseSensitive := false;
      deepCopy := false;
      fieldNameMapping := [];
    }

    /** Calling one option's closure on this record. */
    method Apply(o: CopyOption)
      requires OptionReady(o)
      modifies this
      ensures State() == ApplyCopyOption(old(State()), o)
    {
      match o {
        case WithCopyConverters(cs) =>
          converters := converters + cs;
        case WithCopyIgnoreEmpty(v) =>
          ignoreEmpty := v;
        case WithCopyCaseSensitive(v) =>
          caseSensitive := v;
        case WithCopyDeep(v) =>
          deepCopy := v;
        case WithFilter(from, to, skipOrOnly, keys) =>
          var mapping := FilterMapping(FieldNames(from), skipOrOnly, keys);
          fieldNameMapping := [FieldNameMapping(from, to, mapping)];
      }
    }
  }

  /** `Copy`, up to the call into the copier: the option record it builds
      and hands over. */
  method Copy(opts: seq<CopyOption>) returns (co: CopierOption)
    requires OptionsReady(opts)
    ensures fresh(co)
    ensures co.State() == CopySettings(opts)
  {
    co := new CopierOption(BuiltinConverters);
    for i := 0 to |opts|
      invariant OptionsReady(opts[..i])
      invariant co.State() == ApplyCopyOptions(InitialSettings, opts[..i])
    {
      assert OptionReady(opts[i]);
      co.Apply(opts[i]);
      assert opts[..i + 1][..i] == opts[..i];
    }
    assert opts[..|opts|] == opts;
  }

  /** The converters passed with `WithCopyConverters`, in order. */
  function ExtraConverters(opts: seq<CopyOption>): seq<TypeConverter>
  {
    if opts == [] then []
    else
      var o := opts[|opts| - 1];
      ExtraConverters(opts[..|opts| - 1]) + (if o.WithCopyConverters? then o.converters else [])
  }

  /** The converter list is always the four built-ins followed by the
      caller's converters in the order given. */
  lemma {:induction false} ConvertersStartWithBuiltins(opts: seq<CopyOption>)
    requires OptionsReady(opts)
    ensures CopySettings(opts).converters == BuiltinConverters + ExtraConverters(opts)
    decreases |opts|
  {
    if opts != [] {
      ConvertersStartWithBuiltins(opts[..|opts| - 1]);
    }
  }

  /** The three flags an option can set. */
  datatype Flag = IgnoreEmpty | CaseSensitive | DeepCopy

  function FlagOf(s: Settings, f: Flag): bool
  {
    match f
    case IgnoreEmpty => s.ignoreEmpty
    case CaseSensitive => s.caseSensitive
    case DeepCopy => s.deepCopy
  }

  /** The option sets the flag (`Some(v)`), or leaves it alone. */
  function SetsFlag(o: CopyOption, f: Flag): Option<bool>
  {
    match (o, f)
    case (WithCopyIgnoreEmpty(v), IgnoreEmpty) => Some(v)
    case (WithCopyCaseSensitive(v), CaseSensitive) => Some(v)
    case (WithCopyDeep(v), DeepCopy) => Some(v)
    case _ => None
  }

  /** The last option setting a flag decides it. */
  lemma {:induction false} LastFlagWins(opts: seq<CopyOption>, f: Flag, i: nat)
    requires OptionsReady(opts)
    requires i < |opts| && SetsFlag(opts[i], f).Some?
    requires forall l :: i < l < |opts| ==> SetsFlag(opts[l], f).None?
    ensures FlagOf(CopySettings(opts), f) == SetsFlag(opts[i], f).value
    decreases |opts|
  {
    if i < |opts| - 1 {
      LastFlagWins(opts[..|opts| - 1], f, i);
    }
  }

  /** A flag no option sets stays false. */
  lemma {:induction false} UnsetFlagIsFalse(opts: seq<CopyOption>, f: Flag)
    requires OptionsReady(opts)
    requires forall l :: 0 <= l < |opts| ==> SetsFlag(opts[l], f).None?
    ensures !FlagOf(CopySettings(opts), f)
    decreases |opts|
  {
    if opts != [] {
      UnsetFlagIsFalse(opts[..|opts| - 1], f);
    }
  }

  /** The last `WithFilter` leaves exactly one mapping, its own; without
      one there is none. */
  lemma {:induction false} LastFilterWins(opts: seq<CopyOption>, i: nat)
    requires OptionsReady(opts)
    requires i < |opts| && opts[i].WithFilter?
    requires forall l :: i < l < |opts| ==> !opts[l].WithFilter?
    ensures CopySettings(opts).fieldNameMapping ==
      [FieldNameMapping(opts[i].from, opts[i].to, FilterMap(FieldNames(opts[i].from), opts[i].skipOrOnly, opts[i].keys))]
    decreases |opts|
  {
    if i < |opts| - 1 {
      LastFilterWins(opts[..|opts| - 1], i);
    }
  }

  lemma {:induction false} NoFilterNoMapping(opts: seq<CopyOption>)
    requires OptionsReady(opts)
    requires forall l :: 0 <= l < |opts| ==> !opts[l].WithFilter?
    ensures CopySettings(opts).fieldNameMapping == []
    decreases |opts|
  {
    if opts != [] {
      NoFilterNoMapping(opts[..|opts| - 1]);
    }
  }
}
