/** The answer set of the eligibility assessment and the dynamic values it is
    made of (src/types/form.ts). */
module FormModel {
  import opened Wrappers

  /** A JavaScript value as it can appear in a form field or a stored group.
      Objects other than arrays never occur as field values. */
  datatype Value =
    | Undefined
    | Null
    | Bool(b: bool)
    | Num(n: int)
    | Str(s: string)
    | Arr(items: seq<Value>)

  /** JavaScript truthiness: `undefined`, `null`, `false`, `0` and `""` are
      falsy; every array, even an empty one, is truthy. */
  predicate Truthy(v: Value) {
    match v
    case Undefined => false
    case Null => false
    case Bool(b) => b
    case Num(n) => n != 0
    case Str(s) => s != ""
    case Arr(_) => true
  }

  /** The JavaScript expression `v || d`. */
  function Or(v: Value, d: Value): (r: Value)
    ensures Truthy(v) ==> r == v
    ensures !Truthy(v) ==> r == d
  {
    if Truthy(v) then v else d
  }

  /** The 25 answers of the form. */
  datatype Field =
    // personal information
    | FullName | Email | CountryOfCitizenship | CountryOfResidence
    | AgeGroup | MaritalStatus | HasChildren | ChildrenAges
    // education
    | HighestEducation | EducationOutsideCanada
    // work experience
    | YearsOfExperience | WorkInRegulatedProfession | Occupation
    // language skills
    | SpeakEnglishOrFrench | LanguageTest | LanguageLevel | TestScores
    // Canadian connections
    | InterestedInImmigrating | StudiedOrWorkedInCanada
    | JobOfferFromCanadianEmployer | RelativesInCanada
    | SettlementFunds | SettlementFundsAmount
    // additional information
    | BusinessOrManagerialExperience | AdditionalInfo

  const AllFields: set<Field> := {
    FullName, Email, CountryOfCitizenship, CountryOfResidence, AgeGroup,
    MaritalStatus, HasChildren, ChildrenAges, HighestEducation,
    EducationOutsideCanada, YearsOfExperience, WorkInRegulatedProfession,
    Occupation, SpeakEnglishOrFrench, LanguageTest, LanguageLevel, TestScores,
    InterestedInImmigrating, StudiedOrWorkedInCanada,
    JobOfferFromCanadianEmployer, RelativesInCanada, SettlementFunds,
    SettlementFundsAmount, BusinessOrManagerialExperience, AdditionalInfo
  }

  /** How an answer is typed: `'yes' | 'no'`, `'yes' | 'no' | 'not-sure'`,
      the single string naming the reason for immigrating, or free text. */
  datatype Kind = YesNoKind | RegulatedKind | ReasonKind | TextKind

  function KindOf(f: Field): Kind {
    match f
    case HasChildren | EducationOutsideCanada | SpeakEnglishOrFrench | LanguageTest
      | StudiedOrWorkedInCanada | JobOfferFromCanadianEmployer | RelativesInCanada
      | SettlementFunds | BusinessOrManagerialExperience => YesNoKind
    case WorkInRegulatedProfession => RegulatedKind
    case InterestedInImmigrating => ReasonKind
    case _ => TextKind
  }

  /** The answers declared with `?`. */
  const OptionalFields: set<Field> := {
    ChildrenAges, LanguageLevel, TestScores, SettlementFundsAmount, AdditionalInfo
  }

  lemma AllFieldsComplete(f: Field)
    ensures f in AllFields
  {
  }

  /** The six nested groups a stored submission is split into. */
  datatype Group = Personal | Education | Work | Language | Connections | Additional

  /** The keys each group object lists, in the order the mapper writes
      them. */
  function FieldsOf(g: Group): seq<Field> {
    match g
    case Personal => [FullName, Email, CountryOfCitizenship, CountryOfResidence,
                      AgeGroup, MaritalStatus, HasChildren, ChildrenAges]
    case Education => [HighestEducation, EducationOutsideCanada]
    case Work => [YearsOfExperience, WorkInRegulatedProfession, Occupation]
    case Language => [SpeakEnglishOrFrench, LanguageTest, LanguageLevel, TestScores]
    case Connections => [InterestedInImmigrating, StudiedOrWorkedInCanada,
                         JobOfferFromCanadianEmployer, RelativesInCanada,
                         SettlementFunds, SettlementFundsAmount]
    case Additional => [BusinessOrManagerialExperience, AdditionalInfo]
  }

  /** The group each answer is stored in: the one group object that lists
      it. */
  function GroupOf(f: Field): (g: Group)
    ensures f in FieldsOf(g)
  {
    match f
    case FullName | Email | CountryOfCitizenship | CountryOfResidence
      | AgeGroup | MaritalStatus | HasChildren | ChildrenAges => Personal
    case HighestEducation | EducationOutsideCanada => Education
    case YearsOfExperience | WorkInRegulatedProfession | Occupation => Work
    case SpeakEnglishOrFrench | LanguageTest | LanguageLevel | TestScores => Language
    case InterestedInImmigrating | StudiedOrWorkedInCanada
      | JobOfferFromCanadianEmployer | RelativesInCanada
      | SettlementFunds | SettlementFundsAmount => Connections
    case BusinessOrManagerialExperience | AdditionalInfo => Additional
  }

  /** Every answer a group lists is stored in that group. */
  lemma ListedAnswersBelong(h: Group)
    ensures forall f :: f in FieldsOf(h) ==> GroupOf(f) == h
  {
    var fs := FieldsOf(h);
    forall i | 0 <= i < |fs| ensures GroupOf(fs[i]) == h {
    }
  }

  /** No answer is listed by two groups, so the listing determines the
      group. */
  lemma GroupListingIsUnique(f: Field, h: Group)
    ensures f in FieldsOf(h) <==> h == GroupOf(f)
  {
    ListedAnswersBelong(h);
  }

  /** An answer set as the form layer holds it: a plain object whose absent
      keys read as `undefined`. */
  type Answers = map<Field, Value>

  /** Property access `x.f` on an answer object. */
  function Lookup(x: map<Field, Value>, f: Field): Value {
    if f in x then x[f] else Undefined
  }

  datatype YesNo = Yes | No
  datatype Regulated = RegulatedYes | RegulatedNo | NotSure

  function YesNoText(a: YesNo): string {
    match a
    case Yes => "yes"
    case No => "no"
  }

  function RegulatedText(a: Regulated): string {
    match a
    case RegulatedYes => "yes"
    case RegulatedNo => "no"
    case NotSure => "not-sure"
  }

  /** The `FormData` interface: 20 mandatory answers and five optional ones. */
  datatype FormData = FormData(
    fullName: string,
    email: string,
    countryOfCitizenship: string,
    countryOfResidence: string,
    ageGroup: string,
    maritalStatus: string,
    hasChildren: YesNo,
    childrenAges: Option<string>,
    highestEducation: string,
    educationOutsideCanada: YesNo,
    yearsOfExperience: string,
    workInRegulatedProfession: Regulated,
    occupation: string,
    speakEnglishOrFrench: YesNo,
    languageTest: YesNo,
    languageLevel: Option<string>,
    testScores: Option<string>,
    interestedInImmigrating: string,
    studiedOrWorkedInCanada: YesNo,
    jobOfferFromCanadianEmployer: YesNo,
    relativesInCanada: YesNo,
    settlementFunds: YesNo,
    settlementFundsAmount: Option<string>,
    businessOrManagerialExperience: YesNo,
    additionalInfo: Option<string>)

  function OptionalValue(o: Option<string>): Option<Value> {
    match o
    case Some(s) => Some(Str(s))
    case None => None
  }

  /** The value a typed answer set holds for one field; `None` when an
      optional answer is absent. */
  function FieldValue(fd: FormData, f: Field): Option<Value> {
    match f
    case FullName => Some(Str(fd.fullName))
    case Email => Some(Str(fd.email))
    case CountryOfCitizenship => Some(Str(fd.countryOfCitizenship))
    case CountryOfResidence => Some(Str(fd.countryOfResidence))
    case AgeGroup => Some(Str(fd.ageGroup))
    case MaritalStatus => Some(Str(fd.maritalStatus))
    case HasChildren => Some(Str(YesNoText(fd.hasChildren)))
    case ChildrenAges => OptionalValue(fd.childrenAges)
    case HighestEducation => Some(Str(fd.highestEducation))
    case EducationOutsideCanada => Some(Str(YesNoText(fd.educationOutsideCanada)))
    case YearsOfExperience => Some(Str(fd.yearsOfExperience))
    case WorkInRegulatedProfession => Some(Str(RegulatedText(fd.workInRegulatedProfession)))
    case Occupation => Some(Str(fd.occupation))
    case SpeakEnglishOrFrench => Some(Str(YesNoText(fd.speakEnglishOrFrench)))
    case LanguageTest => Some(Str(YesNoText(fd.languageTest)))
    case LanguageLevel => OptionalValue(fd.languageLevel)
    case TestScores => OptionalValue(fd.testScores)
    case InterestedInImmigrating => Some(Str(fd.interestedInImmigrating))
    case StudiedOrWorkedInCanada => Some(Str(YesNoText(fd.studiedOrWorkedInCanada)))
    case JobOfferFromCanadianEmployer => Some(Str(YesNoText(fd.jobOfferFromCanadianEmployer)))
    case RelativesInCanada => Some(Str(YesNoText(fd.relativesInCanada)))
    case SettlementFunds => Some(Str(YesNoText(fd.settlementFunds)))
    case SettlementFundsAmount => OptionalValue(fd.settlementFundsAmount)
    case BusinessOrManagerialExperience => Some(Str(YesNoText(fd.businessOrManagerialExperience)))
    case AdditionalInfo => OptionalValue(fd.additionalInfo)
  }

  /** A typed answer set seen as the plain object the form hands around. */
  function ToAnswers(fd: FormData): (x: Answers)
    ensures forall f :: f in x <==> FieldValue(fd, f).Some?
    ensures forall f :: f in x ==> x[f] == FieldValue(fd, f).value
  {
    map f | f in AllFields && FieldValue(fd, f).Some? :: FieldValue(fd, f).value
  }

  /** The nine yes/no answers only ever hold "yes" or "no", the regulated
      profession answer one of three words, and the reason for immigrating a
      single string. */
  lemma TypedAnswerShapes(fd: FormData, f: Field)
    ensures KindOf(f) == YesNoKind ==> f in ToAnswers(fd) && ToAnswers(fd)[f] in {Str("yes"), Str("no")}
    ensures KindOf(f) == RegulatedKind ==>
      ToAnswers(fd)[f] in {Str("yes"), Str("no"), Str("not-sure")}
    ensures KindOf(f) == ReasonKind ==> f in ToAnswers(fd) && ToAnswers(fd)[f].Str?
  {
  }

  /** Exactly the five optional answers can be missing: every other answer is
      always present, and an answer set with every optional answer absent
      lacks exactly those five. */
  lemma OptionalAnswersExactlyFive(fd: FormData)
    ensures forall f :: f !in OptionalFields ==> f in ToAnswers(fd)
    ensures fd.childrenAges.None? && fd.languageLevel.None? && fd.testScores.None?
         && fd.settlementFundsAmount.None? && fd.additionalInfo.None?
         ==> ToAnswers(fd).Keys == AllFields - OptionalFields
  {
    var x := ToAnswers(fd);
    forall f | f !in OptionalFields ensures f in x {
      AllFieldsComplete(f);
    }
    if fd.childrenAges.None? && fd.languageLevel.None? && fd.testScores.None?
       && fd.settlementFundsAmount.None? && fd.additionalInfo.None? {
      forall f ensures f in x.Keys <==> f in AllFields - OptionalFields {
        AllFieldsComplete(f);
      }
    }
  }

  /** A row of `user_profiles`. */
  datatype UserProfile = UserProfile(
    id: string,
    email: string,
    fullName: Option<string>,
    createdAt: int,
    updatedAt: int)

  /** An authenticated identity as the backend reports it. */
  datatype User = User(id: string, email: Option<string>, metadataFullName: Option<string>)

  /** `s || ""` for an optional string. */
  function OrEmpty(o: Option<string>): string {
    match o
    case Some(s) => s
    case None => ""
  }

  /** `o || d` for an optional string: the fallback also replaces `""`. */
  function OrElse(o: Option<string>, d: string): (r: string)
    ensures o.Some? && o.value != "" ==> r == o.value
    ensures o.None? || o.value == "" ==> r == d
  {
    if o.Some? && o.value != "" then o.value else d
  }
}
