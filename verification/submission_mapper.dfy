/** The mapping between the flat answer set and the six nested groups of a
    stored submission (src/lib/eligibilitySubmissions.ts). */
module SubmissionMapper {
  import opened Wrappers
  import opened FormModel

  /** The six group objects built from an answer set. */
  datatype Groups = Groups(
    personal: map<Field, Value>,
    education: map<Field, Value>,
    work: map<Field, Value>,
    language: map<Field, Value>,
    connections: map<Field, Value>,
    additional: map<Field, Value>)
  {
    function Get(g: Group): map<Field, Value> {
      match g
      case Personal => personal
      case Education => education
      case Work => work
      case Language => language
      case Connections => connections
      case Additional => additional
    }
  }

  /** The answers of `x` that belong to group `g`. */
  function Slice(x: map<Field, Value>, g: Group): (m: map<Field, Value>)
    ensures forall f :: f in m <==> f in x && GroupOf(f) == g
    ensures forall f :: f in m ==> m[f] == x[f]
  {
    map f | f in x && GroupOf(f) == g :: x[f]
  }

  /** `formDataToSubmissionData`: every answer goes into the one group that
      owns it, and nothing else is written. */
  function Encode(x: map<Field, Value>): (gs: Groups)
    ensures forall g :: gs.Get(g) == Slice(x, g)
  {
    Groups(Slice(x, Personal), Slice(x, Education), Slice(x, Work),
           Slice(x, Language), Slice(x, Connections), Slice(x, Additional))
  }

  /** Each answer lands in the one group that owns it, unchanged, and no
      group holds anything else. */
  lemma EncodePlacesEachAnswerOnce(x: map<Field, Value>, g: Group, f: Field)
    ensures f in Encode(x).Get(g) <==> f in x && GroupOf(f) == g
    ensures f in Encode(x).Get(g) ==> Encode(x).Get(g)[f] == x[f]
  {
  }

  /** The result of `JSON.parse` on a group stored as text. A text that parses
      to a number, boolean or string reads like `Decoded(map[])`: none of the
      answer keys is found on it. */
  datatype ParseOutcome = Decoded(fields: map<Field, Value>) | DecodedNull | DecodeFailed

  /** A group column as it arrives from storage: an object, a falsy
      non-string (`null`, `undefined`), or JSON text. */
  datatype Stored = Structured(fields: map<Field, Value>) | Empty | Text(parse: ParseOutcome)

  /** A submission's six group columns as read back from storage. */
  datatype StoredRecord = StoredRecord(
    personal: Stored,
    education: Stored,
    work: Stored,
    language: Stored,
    connections: Stored,
    additional: Stored)
  {
    function Get(g: Group): Stored {
      match g
      case Personal => personal
      case Education => education
      case Work => work
      case Language => language
      case Connections => connections
      case Additional => additional
    }

    /** This record with group `g` replaced by `s`. */
    function With(g: Group, s: Stored): (r: StoredRecord)
      ensures r.Get(g) == s
      ensures forall h :: h != g ==> r.Get(h) == Get(h)
    {
      match g
      case Personal => this.(personal := s)
      case Education => this.(education := s)
      case Work => this.(work := s)
      case Language => this.(language := s)
      case Connections => this.(connections := s)
      case Additional => this.(additional := s)
    }
  }

  /** Groups written as objects read back as the same objects. */
  function AsStructured(gs: Groups): (r: StoredRecord)
    ensures forall g :: r.Get(g) == Structured(gs.Get(g))
  {
    StoredRecord(Structured(gs.personal), Structured(gs.education), Structured(gs.work),
                 Structured(gs.language), Structured(gs.connections), Structured(gs.additional))
  }

  /** Groups written as JSON text read back through a successful parse. */
  function AsText(gs: Groups): (r: StoredRecord)
    ensures forall g :: r.Get(g) == Text(Decoded(gs.Get(g)))
  {
    StoredRecord(Text(Decoded(gs.personal)), Text(Decoded(gs.education)), Text(Decoded(gs.work)),
                 Text(Decoded(gs.language)), Text(Decoded(gs.connections)), Text(Decoded(gs.additional)))
  }

  /** `safeParseJson`. It never throws: text that fails to parse and a falsy
      non-string both become `{}`. Text holding `null` parses to `null`,
      reported here as `None`. */
  function SafeParseJson(s: Stored): (r: Option<map<Field, Value>>)
    ensures r.None? <==> s == Text(DecodedNull)
    ensures s.Structured? ==> r == Some(s.fields)
    ensures s.Text? && s.parse.Decoded? ==> r == Some(s.parse.fields)
    ensures s.Empty? || s == Text(DecodeFailed) ==> r == Some(map[])
  {
    match s
    case Structured(m) => Some(m)
    case Empty => Some(map[])
    case Text(Decoded(m)) => Some(m)
    case Text(DecodedNull) => None
    case Text(DecodeFailed) => Some(map[])
  }

  /** The fallback each answer takes when its stored value is falsy or absent. */
  function Default(f: Field): (v: Value)
    ensures KindOf(f) == YesNoKind ==> v == Str("no")
    ensures KindOf(f) == RegulatedKind ==> v == Str("not-sure")
    ensures KindOf(f) == ReasonKind ==> v == Arr([])
    ensures KindOf(f) == TextKind ==> v == Str("")
  {
    match KindOf(f)
    case YesNoKind => Str("no")
    case RegulatedKind => Str("not-sure")
    case ReasonKind => Arr([])
    case TextKind => Str("")
  }

  lemma DefaultIsTruthyUnlessEmptyString(f: Field)
    ensures Truthy(Default(f)) <==> Default(f) != Str("")
  {
  }

  /** The decoded object of group `g`, with a `null` parse read as `{}`. */
  function GroupObject(r: StoredRecord, g: Group): map<Field, Value> {
    SafeParseJson(r.Get(g)).GetOr(map[])
  }

  /** The answer reconstructed for `f`: the stored value when truthy, else
      the field's default. */
  function DecodeField(r: StoredRecord, f: Field): Value {
    Or(Lookup(GroupObject(r, GroupOf(f)), f), Default(f))
  }

  /** `submissionDataToFormData` with a group that parses to `null` read as
      `{}`. It is total: every one of the 25 answers is present, holding the
      value stored in its group when that value is truthy and the answer's
      default otherwise. */
  function Decode(r: StoredRecord): (x: Answers)
    ensures forall f :: f in x
    ensures forall f :: Truthy(Lookup(GroupObject(r, GroupOf(f)), f)) ==>
      f in x && x[f] == Lookup(GroupObject(r, GroupOf(f)), f)
    ensures forall f :: !Truthy(Lookup(GroupObject(r, GroupOf(f)), f)) ==>
      f in x && x[f] == Default(f)
  {
    map f: Field | true :: DecodeField(r, f)
  }

  /** One answer of the decoded set. */
  lemma DecodeAt(r: StoredRecord, f: Field)
    ensures Decode(r)[f] == DecodeField(r, f)
  {
  }

  /** The `TypeError` raised by reading a property of `null`. */
  datatype TypeError = NullGroupAccess(group: Group)

  /** `submissionDataToFormData` exactly as written: a group stored as the
      text `null` parses to `null`, and reading `.fullName` (or any answer)
      from it throws. */
  function DecodeAsWritten(r: StoredRecord): (res: Result<Answers, TypeError>)
    ensures res.Failure? ==> r.Get(res.error.group) == Text(DecodedNull)
    ensures res.Success? ==> res.value == Decode(r)
  {
    if SafeParseJson(r.personal).None? then Failure(NullGroupAccess(Personal))
    else if SafeParseJson(r.education).None? then Failure(NullGroupAccess(Education))
    else if SafeParseJson(r.work).None? then Failure(NullGroupAccess(Work))
    else if SafeParseJson(r.language).None? then Failure(NullGroupAccess(Language))
    else if SafeParseJson(r.connections).None? then Failure(NullGroupAccess(Connections))
    else if SafeParseJson(r.additional).None? then Failure(NullGroupAccess(Additional))
    else Success(Decode(r))
  }

  /** The source's decoder throws exactly when some group is stored as the
      text `null`, and otherwise agrees with the tolerant `Decode`. */
  lemma DecodeAsWrittenThrowsOnlyOnNullText(r: StoredRecord)
    ensures DecodeAsWritten(r).Failure? <==> exists g :: r.Get(g) == Text(DecodedNull)
    ensures DecodeAsWritten(r).Success? ==> DecodeAsWritten(r).value == Decode(r)
  {
    if DecodeAsWritten(r).Failure? {
      var g := DecodeAsWritten(r).error.group;
      assert r.Get(g) == Text(DecodedNull);
    }
  }

  /** The record of the counterexample: every group an empty object except
      the personal group, stored as the text `null`. */
  const NullPersonalRecord: StoredRecord :=
    StoredRecord(Text(DecodedNull), Empty, Empty, Empty, Empty, Empty)

  /** A record that parses to `null` makes the source's decoder throw, while
      the tolerant decoder yields the all-defaults answer set. */
  lemma NullTextCounterexample()
    ensures DecodeAsWritten(NullPersonalRecord) == Failure(NullGroupAccess(Personal))
    ensures forall f :: f in Decode(NullPersonalRecord) ==> Decode(NullPersonalRecord)[f] == Default(f)
  {
    forall f | f in Decode(NullPersonalRecord) ensures Decode(NullPersonalRecord)[f] == Default(f) {
      DecodeAt(NullPersonalRecord, f);
      assert GroupObject(NullPersonalRecord, GroupOf(f)) == map[];
    }
  }

  /** An answer set with every answer present and truthy, the case in which
      no default is ever triggered. */
  predicate Complete(x: map<Field, Value>) {
    forall f :: f in x && Truthy(x[f])
  }

  /** How one answer is read from groups stored as objects or as text. */
  lemma DecodeFieldOfGroups(gs: Groups, f: Field)
    ensures DecodeField(AsStructured(gs), f) == Or(Lookup(gs.Get(GroupOf(f)), f), Default(f))
    ensures DecodeField(AsText(gs), f) == Or(Lookup(gs.Get(GroupOf(f)), f), Default(f))
  {
    assert GroupObject(AsStructured(gs), GroupOf(f)) == gs.Get(GroupOf(f));
    assert GroupObject(AsText(gs), GroupOf(f)) == gs.Get(GroupOf(f));
  }

  /** One answer of a complete set read back from its group, stored either
      way. */
  lemma FieldRoundTrip(x: map<Field, Value>, f: Field)
    requires Complete(x)
    ensures DecodeField(AsStructured(Encode(x)), f) == x[f]
    ensures DecodeField(AsText(Encode(x)), f) == x[f]
  {
    DecodeFieldOfGroups(Encode(x), f);
    assert Lookup(Encode(x).Get(GroupOf(f)), f) == x[f];
  }

  /** Round trip: decoding the groups of a complete answer set gives the
      answer set back, whether the groups are stored as objects or as text. */
  lemma {:induction false} RoundTrip(x: map<Field, Value>)
    requires Complete(x)
    ensures Decode(AsStructured(Encode(x))) == x
    ensures Decode(AsText(Encode(x))) == x
  {
    forall f
      ensures Decode(AsStructured(Encode(x)))[f] == x[f]
      ensures Decode(AsText(Encode(x)))[f] == x[f]
    {
      FieldRoundTrip(x, f);
      DecodeAt(AsStructured(Encode(x)), f);
      DecodeAt(AsText(Encode(x)), f);
    }
  }

  /** A typed answer set with every text answer non-empty and every optional
      answer given. */
  predicate FullyAnswered(fd: FormData) {
    && fd.fullName != "" && fd.email != "" && fd.countryOfCitizenship != ""
    && fd.countryOfResidence != "" && fd.ageGroup != "" && fd.maritalStatus != ""
    && fd.highestEducation != "" && fd.yearsOfExperience != "" && fd.occupation != ""
    && fd.interestedInImmigrating != ""
    && fd.childrenAges.Some? && fd.childrenAges.value != ""
    && fd.languageLevel.Some? && fd.languageLevel.value != ""
    && fd.testScores.Some? && fd.testScores.value != ""
    && fd.settlementFundsAmount.Some? && fd.settlementFundsAmount.value != ""
    && fd.additionalInfo.Some? && fd.additionalInfo.value != ""
  }

  lemma FullyAnsweredFieldIsTruthy(fd: FormData, f: Field)
    requires FullyAnswered(fd)
    ensures FieldValue(fd, f).Some? && Truthy(FieldValue(fd, f).value)
  {
  }

  /** A fully answered typed answer set survives the round trip. */
  lemma TypedRoundTrip(fd: FormData)
    requires FullyAnswered(fd)
    ensures Decode(AsStructured(Encode(ToAnswers(fd)))) == ToAnswers(fd)
  {
    var x := ToAnswers(fd);
    forall f ensures f in x && Truthy(x[f]) {
      FullyAnsweredFieldIsTruthy(fd, f);
    }
    RoundTrip(x);
  }

  /** Decoding is a normalisation: encoding and decoding an already decoded
      answer set changes nothing. */
  lemma {:induction false} DecodeIdempotent(r: StoredRecord)
    ensures Decode(AsStructured(Encode(Decode(r)))) == Decode(r)
  {
    var x := Decode(r);
    var gs := Encode(x);
    forall f
      ensures DecodeField(AsStructured(gs), f) == x[f]
    {
      DecodeFieldOfGroups(gs, f);
      assert Lookup(gs.Get(GroupOf(f)), f) == x[f];
      if !Truthy(x[f]) {
        assert x[f] == Default(f);
      }
    }
  }

  const EmptyRecord: StoredRecord := StoredRecord(Empty, Empty, Empty, Empty, Empty, Empty)

  /** Decoding a record whose groups are all missing yields, for every
      answer, the default of the table in `Default`; it never throws. */
  lemma {:induction false} DecodeEmptyIsAllDefaults(f: Field)
    ensures Decode(EmptyRecord)[f] == Default(f)
    ensures DecodeAsWritten(EmptyRecord) == Success(Decode(EmptyRecord))
  {
    assert GroupObject(EmptyRecord, GroupOf(f)) == map[];
  }

  /** A group whose text fails to parse affects only its own answers, which
      take their defaults; every answer of another group decodes as before. */
  lemma {:induction false} MalformedGroupIsolated(r: StoredRecord, g: Group, f: Field)
    ensures GroupOf(f) == g ==> Decode(r.With(g, Text(DecodeFailed)))[f] == Default(f)
    ensures GroupOf(f) != g ==> Decode(r.With(g, Text(DecodeFailed)))[f] == Decode(r)[f]
  {
    AllFieldsComplete(f);
    var r' := r.With(g, Text(DecodeFailed));
    if GroupOf(f) == g {
      assert GroupObject(r', g) == map[];
    } else {
      assert GroupObject(r', GroupOf(f)) == GroupObject(r, GroupOf(f));
    }
  }

  /** The two answers the form components never write. */
  const UnwrittenFields: set<Field> := {LanguageLevel, SettlementFundsAmount}

  /** The group objects the form components build inline: the same assignment
      as `Encode`, but without `languageLevel` and `settlementFundsAmount`. */
  function ComponentEncode(x: map<Field, Value>): (gs: Groups)
    ensures forall g, f :: f in gs.Get(g) <==> f in x && GroupOf(f) == g && f !in UnwrittenFields
    ensures forall g, f :: f in gs.Get(g) ==> gs.Get(g)[f] == x[f]
  {
    var y := x - UnwrittenFields;
    assert forall f :: f in y <==> f in x && f !in UnwrittenFields;
    assert forall f :: f in y ==> y[f] == x[f];
    Encode(y)
  }

  /** The two unwritten answers are free text and default to `""`. */
  lemma UnwrittenDefaultIsEmpty(f: Field)
    requires f in UnwrittenFields
    ensures Default(f) == Str("")
  {
    assert f == LanguageLevel || f == SettlementFundsAmount;
  }

  /** What a component-written record decodes to, for any answer set: the
      two unwritten answers come back empty, and every other answer comes
      back as given when it was truthy and as its default otherwise. */
  lemma {:induction false} ComponentRoundTrip(x: map<Field, Value>, f: Field)
    ensures Decode(AsStructured(ComponentEncode(x)))[f] ==
      if f in UnwrittenFields then Str("") else Or(Lookup(x, f), Default(f))
    ensures f !in UnwrittenFields && Truthy(Lookup(x, f)) ==>
      Decode(AsStructured(ComponentEncode(x)))[f] == x[f]
  {
    var gs := ComponentEncode(x);
    var m := gs.Get(GroupOf(f));
    DecodeFieldOfGroups(gs, f);
    if f in UnwrittenFields {
      assert f !in m;
      UnwrittenDefaultIsEmpty(f);
    } else {
      assert Lookup(m, f) == Lookup(x, f);
    }
  }
}
