/**
 * MCP form schemas: the rules under which the adapter accepts a field schema, the check it makes of a
 * submitted value, and the agreement of the two.
 */
module McpForms {
  import opened Text16
  import opened JsonText
  import opened JsonWriting
  import opened Domain
  import opened Finite

  datatype Format = Email | Uri | Date | DateTime

  /** The library's format checks. */
  type Formats = (Text, Format) -> bool

  datatype TitledOption = TitledOption(value: Text, title: Text)

  /** The eight kinds of field, without their titles and descriptions. */
  datatype Field =
    | StringField(text: Option<Text>, format: Option<Format>, minLength: Option<nat>, maxLength: Option<nat>)
    | NumberField(number: Option<real>, integer: bool, minimum: Option<real>, maximum: Option<real>)
    | BooleanField(flag: Option<bool>)
    | EnumField(text: Option<Text>, values: seq<Text>)
    | LegacyEnumField(text: Option<Text>, values: seq<Text>, names: Option<seq<Text>>)
    | TitledEnumField(text: Option<Text>, options: seq<TitledOption>)
    | MultiEnumField(list: Option<seq<Text>>, values: seq<Text>, minItems: Option<nat>, maxItems: Option<nat>)
    | TitledMultiEnumField(list: Option<seq<Text>>, options: seq<TitledOption>, minItems: Option<nat>,
                           maxItems: Option<nat>)

  datatype FormValue =
    TextValue(text: Text) | NumberValue(number: real) | BoolValue(flag: bool) | ListValue(list: seq<Text>)

  datatype FormSchema = FormSchema(properties: map<Text, Field>, required: Option<seq<Text>>)

  // ---------------------------------------------------------------- lengths and options

  /** Length in code points: a surrogate pair counts once, a lone half counts once. */
  function UnicodeLength(t: Text): (n: nat)
    ensures n <= |t| <= 2 * n
  {
    if t == [] then 0
    else if |t| >= 2 && HighSurrogate(t[0]) && LowSurrogate(t[1]) then 1 + UnicodeLength(t[2..])
    else 1 + UnicodeLength(t[1..])
  }

  lemma {:induction false} LengthsAdd(s: Text, t: Text)
    requires PartsCleanly(s, t)
    ensures UnicodeLength(s + t) == UnicodeLength(s) + UnicodeLength(t)
  {
    if s == [] {
      assert s + t == t;
    } else if |s| >= 2 && HighSurrogate(s[0]) && LowSurrogate(s[1]) {
      assert (s + t)[2..] == s[2..] + t;
      LengthsAdd(s[2..], t);
    } else {
      assert (s + t)[1..] == s[1..] + t;
      LengthsAdd(s[1..], t);
    }
  }

  /** Lengths of parts add up unless the cut goes through a surrogate pair; a pair and any other unit count one. */
  lemma LengthIsInCodePoints(s: Text, t: Text, pair: Text, c: CodeUnit)
    requires PartsCleanly(s, t) && IsPair(pair)
    ensures UnicodeLength(s + t) == UnicodeLength(s) + UnicodeLength(t)
    ensures UnicodeLength([]) == 0 && UnicodeLength(pair) == 1 && UnicodeLength([c]) == 1
  {
    LengthsAdd(s, t);
    assert pair[2..] == [] && [c][1..] == [];
  }

  function OptionValues(options: seq<TitledOption>): (r: seq<Text>)
    ensures |r| == |options| && forall i | 0 <= i < |r| :: r[i] == options[i].value
  {
    seq(|options|, i requires 0 <= i < |options| => options[i].value)
  }

  predicate IsInteger(n: real) { n.Floor as real == n }

  predicate Unique(s: seq<Text>) { |Range(s)| == |s| }

  // ---------------------------------------------------------------- accepting a field schema

  predicate TextDefaultOk(text: Option<Text>, values: seq<Text>) { text.Some? ==> text.value in values }

  predicate ListDefaultOk(list: Option<seq<Text>>, values: seq<Text>, minItems: Option<nat>, maxItems: Option<nat>) {
    list.Some? ==>
      Unique(list.value) && !(exists entry | entry in list.value :: entry !in values) &&
      !(minItems.Some? && |list.value| < minItems.value) && !(maxItems.Some? && |list.value| > maxItems.value)
  }

  predicate RangeOk(low: Option<nat>, high: Option<nat>) { low.Some? && high.Some? ==> low.value <= high.value }

  /** The refinements of the field schema: each conjunct is one issue that is not raised. */
  predicate SchemaOk(formats: Formats, f: Field) {
    match f
    case StringField(text, format, minLength, maxLength) =>
      RangeOk(minLength, maxLength) &&
      !(text.Some? && minLength.Some? && UnicodeLength(text.value) < minLength.value) &&
      !(text.Some? && maxLength.Some? && UnicodeLength(text.value) > maxLength.value) &&
      !(text.Some? && format.Some? && !formats(text.value, format.value))
    case NumberField(number, integer, minimum, maximum) =>
      !(minimum.Some? && maximum.Some? && minimum.value > maximum.value) &&
      !(integer && number.Some? && !IsInteger(number.value)) &&
      !(number.Some? && minimum.Some? && number.value < minimum.value) &&
      !(number.Some? && maximum.Some? && number.value > maximum.value)
    case BooleanField(_) => true
    case EnumField(text, values) => values != [] && Unique(values) && TextDefaultOk(text, values)
    case LegacyEnumField(text, values, names) =>
      values != [] && Unique(values) && (names.Some? ==> |names.value| == |values|) && TextDefaultOk(text, values)
    case TitledEnumField(text, options) =>
      options != [] && Unique(OptionValues(options)) && TextDefaultOk(text, OptionValues(options))
    case MultiEnumField(list, values, minItems, maxItems) =>
      RangeOk(minItems, maxItems) && values != [] && Unique(values) && ListDefaultOk(list, values, minItems, maxItems)
    case TitledMultiEnumField(list, options, minItems, maxItems) =>
      RangeOk(minItems, maxItems) && options != [] && Unique(OptionValues(options)) &&
      ListDefaultOk(list, OptionValues(options), minItems, maxItems)
  }

  predicate SchemaAccepted(formats: Formats, s: FormSchema) {
    (forall key | key in s.properties :: SchemaOk(formats, s.properties[key])) &&
    (s.required.Some? ==>
      Unique(s.required.value) && forall i | 0 <= i < |s.required.value| :: s.required.value[i] in s.properties)
  }

  // ---------------------------------------------------------------- checking a value

  predicate ListIsValid(v: FormValue, values: seq<Text>, minItems: Option<nat>, maxItems: Option<nat>) {
    v.ListValue? && |Range(v.list)| == |v.list| && (minItems.Some? ==> |v.list| >= minItems.value) &&
    (maxItems.Some? ==> |v.list| <= maxItems.value) && forall i | 0 <= i < |v.list| :: v.list[i] in values
  }

  predicate FieldValueIsValid(formats: Formats, v: FormValue, f: Field) {
    match f
    case BooleanField(_) => v.BoolValue?
    case NumberField(_, integer, minimum, maximum) =>
      v.NumberValue? && (integer ==> IsInteger(v.number)) && (minimum.Some? ==> v.number >= minimum.value) &&
      (maximum.Some? ==> v.number <= maximum.value)
    case MultiEnumField(_, values, minItems, maxItems) => ListIsValid(v, values, minItems, maxItems)
    case TitledMultiEnumField(_, options, minItems, maxItems) =>
      ListIsValid(v, OptionValues(options), minItems, maxItems)
    case EnumField(_, values) => v.TextValue? && v.text in values
    case LegacyEnumField(_, values, _) => v.TextValue? && v.text in values
    case TitledEnumField(_, options) => v.TextValue? && exists i | 0 <= i < |options| :: options[i].value == v.text
    case StringField(_, format, minLength, maxLength) =>
      v.TextValue? && (minLength.Some? ==> UnicodeLength(v.text) >= minLength.value) &&
      (maxLength.Some? ==> UnicodeLength(v.text) <= maxLength.value) &&
      (format.Some? ==> formats(v.text, format.value))
  }

  /** Only declared properties, all the required ones, and each of them valid. */
  predicate ContentIsValid(formats: Formats, content: map<Text, FormValue>, s: FormSchema) {
    (forall key | key in content :: key in s.properties) &&
    (s.required.Some? ==> forall i | 0 <= i < |s.required.value| :: s.required.value[i] in content) &&
    (forall key | key in content :: key in s.properties && FieldValueIsValid(formats, content[key], s.properties[key]))
  }

  // ---------------------------------------------------------------- agreement

  function DefaultOf(f: Field): Option<FormValue> {
    match f
    case BooleanField(flag) => if flag.Some? then Some(BoolValue(flag.value)) else None
    case NumberField(number, _, _, _) => if number.Some? then Some(NumberValue(number.value)) else None
    case MultiEnumField(list, _, _, _) => if list.Some? then Some(ListValue(list.value)) else None
    case TitledMultiEnumField(list, _, _, _) => if list.Some? then Some(ListValue(list.value)) else None
    case StringField(text, _, _, _) => if text.Some? then Some(TextValue(text.value)) else None
    case EnumField(text, _) => if text.Some? then Some(TextValue(text.value)) else None
    case LegacyEnumField(text, _, _) => if text.Some? then Some(TextValue(text.value)) else None
    case TitledEnumField(text, _) => if text.Some? then Some(TextValue(text.value)) else None
  }

  function WithoutDefault(f: Field): Field {
    match f
    case BooleanField(_) => BooleanField(None)
    case NumberField(_, integer, minimum, maximum) => NumberField(None, integer, minimum, maximum)
    case MultiEnumField(_, values, minItems, maxItems) => MultiEnumField(None, values, minItems, maxItems)
    case TitledMultiEnumField(_, options, minItems, maxItems) => TitledMultiEnumField(None, options, minItems, maxItems)
    case StringField(_, format, minLength, maxLength) => StringField(None, format, minLength, maxLength)
    case EnumField(_, values) => EnumField(None, values)
    case LegacyEnumField(_, values, names) => LegacyEnumField(None, values, names)
    case TitledEnumField(_, options) => TitledEnumField(None, options)
  }

  /**
   * The two checkers agree on defaults, for all eight kinds: a field schema is accepted exactly when it
   * would be without its default and the value check accepts that default.
   */
  lemma CheckersAgree(formats: Formats, f: Field)
    ensures SchemaOk(formats, f) <==>
      SchemaOk(formats, WithoutDefault(f)) &&
      (DefaultOf(f).Some? ==> FieldValueIsValid(formats, DefaultOf(f).value, f))
  {
    match f
    case MultiEnumField(list, values, minItems, maxItems) => ListsAgree(list, values, minItems, maxItems);
    case TitledMultiEnumField(list, options, minItems, maxItems) =>
      ListsAgree(list, OptionValues(options), minItems, maxItems);
    case TitledEnumField(text, options) =>
      assert text.Some? ==>
        (text.value in OptionValues(options) <==> exists i :: 0 <= i < |options| && options[i].value == text.value);
    case _ =>
  }

  lemma ListsAgree(list: Option<seq<Text>>, values: seq<Text>, minItems: Option<nat>, maxItems: Option<nat>)
    ensures ListDefaultOk(list, values, minItems, maxItems) <==>
      (list.Some? ==> ListIsValid(ListValue(list.value), values, minItems, maxItems))
  {
  }

  ghost predicate OptionsFit(values: seq<Text>) { values != [] && Distinct(values) }

  /** What a field schema must be apart from its default: bounds in order, options there and none twice. */
  ghost predicate Sensible(f: Field) {
    match f
    case StringField(_, _, low, high) => low.Some? && high.Some? ==> low.value <= high.value
    case NumberField(_, _, low, high) => low.Some? && high.Some? ==> low.value <= high.value
    case BooleanField(_) => true
    case EnumField(_, values) => OptionsFit(values)
    case LegacyEnumField(_, values, names) => OptionsFit(values) && (names.Some? ==> |names.value| == |values|)
    case TitledEnumField(_, options) => OptionsFit(OptionValues(options))
    case MultiEnumField(_, values, low, high) =>
      OptionsFit(values) && (low.Some? && high.Some? ==> low.value <= high.value)
    case TitledMultiEnumField(_, options, low, high) =>
      OptionsFit(OptionValues(options)) && (low.Some? && high.Some? ==> low.value <= high.value)
  }

  lemma SensibleExactly(formats: Formats, f: Field)
    ensures SchemaOk(formats, WithoutDefault(f)) <==> Sensible(f)
  {
    match f
    case EnumField(_, values) => DistinctWhenCounted(values);
    case LegacyEnumField(_, values, _) => DistinctWhenCounted(values);
    case TitledEnumField(_, options) => DistinctWhenCounted(OptionValues(options));
    case MultiEnumField(_, values, _, _) => DistinctWhenCounted(values);
    case TitledMultiEnumField(_, options, _, _) => DistinctWhenCounted(OptionValues(options));
    case _ =>
  }

  /** A field schema is accepted exactly if it makes sense and the value check takes its default. */
  lemma FieldAcceptedExactly(formats: Formats, f: Field)
    ensures SchemaOk(formats, f) <==>
      Sensible(f) && (DefaultOf(f).Some? ==> FieldValueIsValid(formats, DefaultOf(f).value, f))
  {
    CheckersAgree(formats, f);
    SensibleExactly(formats, f);
  }

  /** In an accepted form schema every field and every name in the list of required ones counts by itself. */
  lemma EverySchemaFieldCounts(formats: Formats, s: FormSchema, key: Text, f: Field, keys: seq<Text>)
    requires SchemaAccepted(formats, s)
    ensures SchemaAccepted(formats, s.(properties := s.properties[key := f])) <==> SchemaOk(formats, f)
    ensures SchemaAccepted(formats, s.(required := Some(keys))) <==>
      Distinct(keys) && forall i | 0 <= i < |keys| :: keys[i] in s.properties
    ensures SchemaAccepted(formats, s.(required := None))
  {
    var changed := s.(properties := s.properties[key := f]);
    assert changed.properties[key] == f;
    assert forall k | k in changed.properties && k != key :: changed.properties[k] == s.properties[k];
    DistinctWhenCounted(keys);
  }

  /** In accepted content every value counts by itself: put in another, put one more, or leave one out. */
  lemma EveryValueCounts(formats: Formats, s: FormSchema, content: map<Text, FormValue>, key: Text, v: FormValue)
    requires ContentIsValid(formats, content, s)
    ensures ContentIsValid(formats, content[key := v], s) <==>
      key in s.properties && FieldValueIsValid(formats, v, s.properties[key])
    ensures key in content ==>
      (ContentIsValid(formats, content - {key}, s) <==> s.required.None? || key !in s.required.value)
  {
    var more, less := content[key := v], content - {key};
    assert more[key] == v;
    assert forall k | k in less :: less[k] == content[k];
    if key in content && s.required.Some? && key in s.required.value {
      var i :| 0 <= i < |s.required.value| && s.required.value[i] == key;
      assert s.required.value[i] !in less;
    }
  }

  /** A form filled in with every declared default. */
  function Defaults(s: FormSchema): (content: map<Text, FormValue>)
    ensures forall key ::
      key in content <==> key in s.properties && DefaultOf(s.properties[key]).Some?
    ensures forall key | key in content :: content[key] == DefaultOf(s.properties[key]).value
  {
    map key | key in s.properties && DefaultOf(s.properties[key]).Some? :: DefaultOf(s.properties[key]).value
  }

  /** An accepted schema accepts the form of its defaults exactly when every required property has one. */
  lemma DefaultsAreAccepted(formats: Formats, s: FormSchema)
    requires SchemaAccepted(formats, s)
    ensures ContentIsValid(formats, Defaults(s), s) <==>
      (s.required.Some? ==>
        forall i | 0 <= i < |s.required.value| :: DefaultOf(s.properties[s.required.value[i]]).Some?)
  {
    forall key | key in Defaults(s) ensures FieldValueIsValid(formats, Defaults(s)[key], s.properties[key]) {
      CheckersAgree(formats, s.properties[key]);
    }
  }

  // ---------------------------------------------------------------- fields that nothing can fill

  /** What a selection field, titled or not, offers. */
  function Offered(f: Field): seq<Text>
    requires f.MultiEnumField? || f.TitledMultiEnumField?
  {
    if f.MultiEnumField? then f.values else OptionValues(f.options)
  }

  lemma ListFillable(values: seq<Text>, minItems: Option<nat>, maxItems: Option<nat>)
    requires RangeOk(minItems, maxItems) && Unique(values)
    ensures (exists v :: ListIsValid(v, values, minItems, maxItems)) <==>
      (minItems.Some? ==> minItems.value <= |values|)
  {
    if minItems.Some? ==> minItems.value <= |values| {
      var n := if minItems.Some? then minItems.value else 0;
      var v := ListValue(values[..n]);
      DistinctWhenCounted(values);
      DistinctWhenCounted(v.list);
      assert ListIsValid(v, values, minItems, maxItems);
    }
    forall v | ListIsValid(v, values, minItems, maxItems) ensures |v.list| <= |values| {
      assert forall x | x in Range(v.list) :: x in Range(values);
      SubsetCount(Range(v.list), Range(values));
    }
  }

  /** An accepted selection field can be filled exactly when it asks for no more items than it offers. */
  lemma SelectionFillableExactly(formats: Formats, f: Field)
    requires (f.MultiEnumField? || f.TitledMultiEnumField?) && SchemaOk(formats, f)
    ensures (exists v :: FieldValueIsValid(formats, v, f)) <==>
      (f.minItems.Some? ==> f.minItems.value <= |Offered(f)|)
  {
    ListFillable(Offered(f), f.minItems, f.maxItems);
    if exists v :: ListIsValid(v, Offered(f), f.minItems, f.maxItems) {
      var v :| ListIsValid(v, Offered(f), f.minItems, f.maxItems);
      assert FieldValueIsValid(formats, v, f);
    }
    if exists v :: FieldValueIsValid(formats, v, f) {
      var v :| FieldValueIsValid(formats, v, f);
      assert ListIsValid(v, Offered(f), f.minItems, f.maxItems);
    }
  }

  /** Accepted fields that nothing can fill: one option of which two are wanted, and no integer in between. */
  lemma SomeAcceptedFieldsCannotBeFilled(formats: Formats, option: Text)
    ensures var f := MultiEnumField(None, [option], Some(2), None);
      SchemaOk(formats, f) && forall v :: !FieldValueIsValid(formats, v, f)
    ensures var f := TitledMultiEnumField(None, [TitledOption(option, option)], Some(2), None);
      SchemaOk(formats, f) && forall v :: !FieldValueIsValid(formats, v, f)
    ensures var f := NumberField(None, true, Some(0.2), Some(0.8));
      SchemaOk(formats, f) && forall v :: !FieldValueIsValid(formats, v, f)
  {
    var f := MultiEnumField(None, [option], Some(2), None);
    var g := TitledMultiEnumField(None, [TitledOption(option, option)], Some(2), None);
    assert Range([option]) == {option};
    assert OptionValues(g.options) == [option];
    SelectionFillableExactly(formats, f);
    SelectionFillableExactly(formats, g);
    var h := NumberField(None, true, Some(0.2), Some(0.8));
    IntegerFillableExactly(formats, h);
    forall n ensures !Between(0.2, n, 0.8) {
      assert n <= 0 || n >= 1;
    }
  }

  predicate Between(low: real, n: int, high: real) { low <= n as real <= high }

  /** An accepted integer field can be filled exactly when an integer lies between its bounds. */
  lemma IntegerFillableExactly(formats: Formats, f: Field)
    requires f.NumberField? && f.integer && SchemaOk(formats, f)
    ensures (exists v :: FieldValueIsValid(formats, v, f)) <==>
      (f.minimum.Some? && f.maximum.Some? ==> exists n :: Between(f.minimum.value, n, f.maximum.value))
  {
    if exists v :: FieldValueIsValid(formats, v, f) {
      var v :| FieldValueIsValid(formats, v, f);
      assert f.minimum.Some? && f.maximum.Some? ==> Between(f.minimum.value, v.number.Floor, f.maximum.value);
    }
    if f.minimum.Some? && f.maximum.Some? && exists n :: Between(f.minimum.value, n, f.maximum.value) {
      var n :| Between(f.minimum.value, n, f.maximum.value);
      assert FieldValueIsValid(formats, NumberValue(n as real), f);
    } else if f.minimum.None? && f.maximum.None? {
      assert FieldValueIsValid(formats, NumberValue(0.0), f);
    } else if f.maximum.None? {
      assert FieldValueIsValid(formats, NumberValue((f.minimum.value.Floor + 1) as real), f);
    } else if f.minimum.None? {
      assert FieldValueIsValid(formats, NumberValue(f.maximum.value.Floor as real), f);
    }
  }
}
