/**
 * The onboarding record schema: the status enum, the document shape and the onboarding
 * shape, as the zod validators `zOnboardingStatus`, `zDocument` and `zOnboarding` check
 * an untyped JavaScript value and either return the typed record or the list of issues.
 */
module OnboardingFlow {
  import opened Wrappers

  /** An opaque handle on a browser `File` object. */
  type FileRef = nat

  /**
   * The JavaScript values a validator can be handed. `Date` carries the time value of a
   * valid `Date` object and `InvalidDate` stands for a `Date` whose time value is NaN.
   */
  datatype Value =
    | Undefined
    | Null
    | Bool(b: bool)
    | Num(n: int)
    | Str(s: string)
    | Date(time: int)
    | InvalidDate
    | File(file: FileRef)
    | Arr(elems: seq<Value>)
    | Obj(fields: map<string, Value>)

  /** zod's classification of an input value (`ZodParsedType`). */
  datatype ParsedType = TUndefined | TNull | TBoolean | TNumber | TString | TDate | TObject | TArray

  function TypeOf(v: Value): ParsedType
  {
    match v
    case Undefined => TUndefined
    case Null => TNull
    case Bool(_) => TBoolean
    case Num(_) => TNumber
    case Str(_) => TString
    case Date(_) => TDate
    case InvalidDate => TDate
    case File(_) => TObject
    case Arr(_) => TArray
    case Obj(_) => TObject
  }

  /** What a failing validator expected. */
  datatype Expected = ExpectString | ExpectDate | ExpectStatus | ExpectArray | ExpectObject

  /** zod's issue codes, as far as these schemas raise them. */
  datatype IssueCode =
    | InvalidType(expected: Expected, received: ParsedType)
    | InvalidEnumValue(value: string)
    | InvalidDateValue
    | NotAFile

  datatype PathSegment = Key(name: string) | Index(pos: nat)

  /** One reported problem: where in the input, and what. */
  datatype Issue = Issue(path: seq<PathSegment>, code: IssueCode)

  /** The issues of a nested validator, reported under the segment `seg` of the path. */
  function At(seg: PathSegment, issues: seq<Issue>): (r: seq<Issue>)
    ensures |r| == |issues|
  {
    if issues == [] then [] else [Issue([seg] + issues[0].path, issues[0].code)] + At(seg, issues[1..])
  }

  /** `At` keeps every issue and its code, and puts `seg` in front of its path. */
  lemma {:induction false} AtSpec(seg: PathSegment, issues: seq<Issue>)
    ensures forall i :: 0 <= i < |issues| ==>
      At(seg, issues)[i] == Issue([seg] + issues[i].path, issues[i].code)
  {
    if issues != [] {
      AtSpec(seg, issues[1..]);
    }
  }

  /** Every issue `At` reports sits under `seg`; directly under it when the nested issues sit at the root. */
  lemma {:induction false} AtPaths(seg: PathSegment, issues: seq<Issue>)
    ensures forall issue :: issue in At(seg, issues) ==> issue.path != [] && issue.path[0] == seg
    ensures (forall issue :: issue in issues ==> issue.path == []) ==>
      forall issue :: issue in At(seg, issues) ==> issue.path == [seg]
  {
    if issues != [] {
      AtPaths(seg, issues[1..]);
      assert issues[0] in issues;
      assert forall issue :: issue in issues[1..] ==> issue in issues;
    }
  }

  /** Reading a property: a missing key reads as `undefined`. */
  function Lookup(m: map<string, Value>, k: string): Value
  {
    if k in m then m[k] else Undefined
  }

  /** The values `z.object` accepts as objects: plain objects and other non-array, non-date objects. */
  predicate IsObject(v: Value)
  {
    TypeOf(v) == TObject
  }

  /** The own properties of an object; a `File` has none of the schema's keys. */
  function Properties(v: Value): map<string, Value>
  {
    if v.Obj? then v.fields else map[]
  }

  /** `z.string()`. */
  function CheckString(v: Value): (issues: seq<Issue>)
    ensures issues == [] <==> v.Str?
    ensures |issues| <= 1 && forall issue :: issue in issues ==> issue.path == []
  {
    if v.Str? then [] else [Issue([], InvalidType(ExpectString, TypeOf(v)))]
  }

  /** `z.string().optional()`. */
  function CheckOptionalString(v: Value): (issues: seq<Issue>)
    ensures issues == [] <==> v.Undefined? || v.Str?
    ensures |issues| <= 1 && forall issue :: issue in issues ==> issue.path == []
  {
    if v.Undefined? then [] else CheckString(v)
  }

  /** `z.date()`: a `Date` object whose time value is a number. */
  function CheckDate(v: Value): (issues: seq<Issue>)
    ensures issues == [] <==> v.Date?
    ensures |issues| <= 1 && forall issue :: issue in issues ==> issue.path == []
  {
    if v.Date? then []
    else if v.InvalidDate? then [Issue([], InvalidDateValue)]
    else [Issue([], InvalidType(ExpectDate, TypeOf(v)))]
  }

  /** `z.instanceof(File).optional()`. */
  function CheckOptionalFile(v: Value): (issues: seq<Issue>)
    ensures issues == [] <==> v.Undefined? || v.File?
    ensures |issues| <= 1 && forall issue :: issue in issues ==> issue.path == []
  {
    if v.Undefined? || v.File? then [] else [Issue([], NotAFile)]
  }

  /** Each primitive validator accepts exactly the values of its type. */
  lemma PrimitiveChecks(v: Value)
    ensures CheckString(v) == [] <==> v.Str?
    ensures CheckOptionalString(v) == [] <==> v.Undefined? || v.Str?
    ensures CheckDate(v) == [] <==> v.Date?
    ensures CheckOptionalFile(v) == [] <==> v.Undefined? || v.File?
    ensures (v.Undefined? || v.Null?) ==> CheckString(v) != [] && CheckDate(v) != []
  {
  }

  // ---------------------------------------------------------------------------------
  // zOnboardingStatus

  datatype Status =
    | PreInitiated
    | PreInProgress
    | OnboardingInitiated
    | OnboardingInProgress
    | OnboardingCompleted
    | Hold
    | Reinitiated
    | Cancelled

  /** The enum's literals, in declaration order. */
  const StatusNames: seq<string> := [
    "PRE_INITIATED", "PRE_INPROGRESS", "ONBOARDING_INITIATED", "ONBOARDING_IN_PROGRESS",
    "ONBOARDING_COMPLETED", "HOLD", "REINITIATED", "CANCELLED"]

  function StatusName(st: Status): (name: string)
    ensures name in StatusNames
  {
    match st
    case PreInitiated => "PRE_INITIATED"
    case PreInProgress => "PRE_INPROGRESS"
    case OnboardingInitiated => "ONBOARDING_INITIATED"
    case OnboardingInProgress => "ONBOARDING_IN_PROGRESS"
    case OnboardingCompleted => "ONBOARDING_COMPLETED"
    case Hold => "HOLD"
    case Reinitiated => "REINITIATED"
    case Cancelled => "CANCELLED"
  }

  /** The schema's 33 properties: 6 header, 9 profile, 12 job, 5 immigration and 1 document property. */
  lemma ShapeSizes()
    ensures |HeaderShape| == 6 && |ProfileShape| == 9 && |JobShape| == 12
    ensures |ImmigrationShape| == 5 && |DocumentsShape| == 1 && |OnboardingShape| == 33
  {
  }

  /** The status named by an enum literal, if it is one. */
  function StatusOf(s: string): (r: Option<Status>)
    ensures r.Some? ==> StatusName(r.value) == s
  {
    if s == "PRE_INITIATED" then Some(PreInitiated)
    else if s == "PRE_INPROGRESS" then Some(PreInProgress)
    else if s == "ONBOARDING_INITIATED" then Some(OnboardingInitiated)
    else if s == "ONBOARDING_IN_PROGRESS" then Some(OnboardingInProgress)
    else if s == "ONBOARDING_COMPLETED" then Some(OnboardingCompleted)
    else if s == "HOLD" then Some(Hold)
    else if s == "REINITIATED" then Some(Reinitiated)
    else if s == "CANCELLED" then Some(Cancelled)
    else None
  }

  /** The names of the statuses are exactly the enum's literals. */
  lemma StatusNamesExact(s: string)
    ensures s in StatusNames <==> StatusOf(s).Some?
    ensures s in StatusNames <==> exists st :: StatusName(st) == s
  {
    if StatusOf(s).Some? {
      assert StatusName(StatusOf(s).value) == s;
    }
    if exists st :: StatusName(st) == s {
      var st :| StatusName(st) == s;
      StatusNameRoundTrip(st);
    }
  }

  /** `zOnboardingStatus` accepts exactly the string values that are one of the literals. */
  lemma StatusValueExact(v: Value)
    ensures v.Str? ==> (v.s in StatusNames <==> StatusOf(v.s).Some?)
    ensures CheckStatus(v) == [] <==> v.Str? && v.s in StatusNames
  {
    if v.Str? {
      StatusNamesExact(v.s);
    }
  }

  lemma StatusNameRoundTrip(st: Status)
    ensures StatusOf(StatusName(st)) == Some(st)
    ensures StatusName(st) in StatusNames
  {
  }

  /** `zOnboardingStatus`: a string, and one of the literals. */
  function CheckStatus(v: Value): (issues: seq<Issue>)
    ensures issues == [] <==> v.Str? && StatusOf(v.s).Some?
    ensures |issues| <= 1 && forall issue :: issue in issues ==> issue.path == []
  {
    if !v.Str? then [Issue([], InvalidType(ExpectStatus, TypeOf(v)))]
    else if StatusOf(v.s).None? then [Issue([], InvalidEnumValue(v.s))]
    else []
  }

  /** `zOnboardingStatus.safeParse`. */
  function ParseStatus(v: Value): (r: Result<Status, seq<Issue>>)
    ensures r.Success? <==> v.Str? && v.s in StatusNames
    ensures r.Success? ==> v == Str(StatusName(r.value))
    ensures r.Failure? ==> r.error == CheckStatus(v) && r.error != []
  {
    StatusValueExact(v);
    var issues := CheckStatus(v);
    if issues == [] then Success(StatusOf(v.s).value) else Failure(issues)
  }

  /** Every status survives being written as its literal and parsed back. */
  lemma StatusRoundTrip(st: Status)
    ensures ParseStatus(Str(StatusName(st))) == Success(st)
  {
    StatusNameRoundTrip(st);
  }

  // ---------------------------------------------------------------------------------
  // zDocument

  datatype Document = Document(key: string, name: Option<string>, documentType: string, file: Option<FileRef>)

  /** `zDocument`: the four properties checked in order, every failure reported. */
  function CheckDocument(v: Value): (issues: seq<Issue>)
    ensures !IsObject(v) ==> issues == [Issue([], InvalidType(ExpectObject, TypeOf(v)))]
    ensures IsObject(v) ==> |issues| <= 4 && forall issue :: issue in issues ==>
      issue.path in [[Key("key")], [Key("name")], [Key("document_type")], [Key("file")]]
  {
    if !IsObject(v) then [Issue([], InvalidType(ExpectObject, TypeOf(v)))]
    else
      var m := Properties(v);
      AtPaths(Key("key"), CheckString(Lookup(m, "key")));
      AtPaths(Key("name"), CheckOptionalString(Lookup(m, "name")));
      AtPaths(Key("document_type"), CheckString(Lookup(m, "document_type")));
      AtPaths(Key("file"), CheckOptionalFile(Lookup(m, "file")));
      At(Key("key"), CheckString(Lookup(m, "key")))
      + At(Key("name"), CheckOptionalString(Lookup(m, "name")))
      + At(Key("document_type"), CheckString(Lookup(m, "document_type")))
      + At(Key("file"), CheckOptionalFile(Lookup(m, "file")))
  }

  /** A valid document: an object whose `key` and `document_type` are strings, the rest optional. */
  ghost predicate ValidDocument(v: Value)
  {
    && v.Obj?
    && Lookup(v.fields, "key").Str?
    && (Lookup(v.fields, "name").Undefined? || Lookup(v.fields, "name").Str?)
    && Lookup(v.fields, "document_type").Str?
    && (Lookup(v.fields, "file").Undefined? || Lookup(v.fields, "file").File?)
  }

  /** The document validator reports no issue exactly on the valid documents. */
  lemma CheckDocumentIff(v: Value)
    ensures CheckDocument(v) == [] <==> ValidDocument(v)
  {
    if IsObject(v) {
      var m := Properties(v);
      PrimitiveChecks(Lookup(m, "key"));
      PrimitiveChecks(Lookup(m, "name"));
      PrimitiveChecks(Lookup(m, "document_type"));
      PrimitiveChecks(Lookup(m, "file"));
    }
  }

  function OptionalString(v: Value): Option<string>
  {
    if v.Str? then Some(v.s) else None
  }

  function OptionalFile(v: Value): Option<FileRef>
  {
    if v.File? then Some(v.file) else None
  }

  /** zod's output for a valid document: the known properties, unknown ones stripped. */
  function DecodeDocument(v: Value): (d: Document)
    requires ValidDocument(v)
    ensures Lookup(v.fields, "key") == Str(d.key)
    ensures Lookup(v.fields, "document_type") == Str(d.documentType)
    ensures d.name.Some? <==> Lookup(v.fields, "name").Str?
    ensures d.name.Some? ==> Lookup(v.fields, "name") == Str(d.name.value)
    ensures d.file.Some? <==> Lookup(v.fields, "file").File?
    ensures d.file.Some? ==> Lookup(v.fields, "file") == File(d.file.value)
  {
    var m := v.fields;
    Document(Lookup(m, "key").s, OptionalString(Lookup(m, "name")), Lookup(m, "document_type").s,
             OptionalFile(Lookup(m, "file")))
  }

  /** `zDocument.safeParse`. */
  function ParseDocument(v: Value): (r: Result<Document, seq<Issue>>)
    ensures r.Success? <==> ValidDocument(v)
    ensures r.Success? ==> r.value == DecodeDocument(v)
    ensures r.Failure? ==> r.error == CheckDocument(v) && r.error != []
  {
    CheckDocumentIff(v);
    var issues := CheckDocument(v);
    if issues == [] then Success(DecodeDocument(v)) else Failure(issues)
  }

  /** The document as a plain object; absent optional properties are left out. */
  function EncodeDocument(d: Document): (v: Value)
    ensures v.Obj?
  {
    var m := map["key" := Str(d.key), "document_type" := Str(d.documentType)];
    var m := if d.name.Some? then m["name" := Str(d.name.value)] else m;
    var m := if d.file.Some? then m["file" := File(d.file.value)] else m;
    Obj(m)
  }

  /** What zod outputs for an encoded document is that document. */
  lemma DocumentRoundTrip(d: Document)
    ensures ParseDocument(EncodeDocument(d)) == Success(d)
  {
    var m := EncodeDocument(d).fields;
    assert Lookup(m, "key") == Str(d.key);
    assert Lookup(m, "document_type") == Str(d.documentType);
    assert Lookup(m, "name") == if d.name.Some? then Str(d.name.value) else Undefined;
    assert Lookup(m, "file") == if d.file.Some? then File(d.file.value) else Undefined;
  }

  // ---------------------------------------------------------------------------------
  // z.array(zDocument)

  /** The issues `check` reports on the elements from position `start` on, each under its index. */
  function CheckElements(elems: seq<Value>, start: nat, check: Value -> seq<Issue>): (issues: seq<Issue>)
    ensures forall issue :: issue in issues ==>
      issue.path != [] && issue.path[0].Index? && start <= issue.path[0].pos < start + |elems|
    decreases |elems|
  {
    if elems == [] then []
    else
      AtPaths(Index(start), check(elems[0]));
      At(Index(start), check(elems[0])) + CheckElements(elems[1..], start + 1, check)
  }

  /** The elements report no issue exactly when none of them does on its own. */
  lemma {:induction false} CheckElementsEmpty(elems: seq<Value>, start: nat, check: Value -> seq<Issue>)
    ensures CheckElements(elems, start, check) == [] <==> forall i :: 0 <= i < |elems| ==> check(elems[i]) == []
    decreases |elems|
  {
    if elems != [] {
      CheckElementsEmpty(elems[1..], start + 1, check);
      assert forall i :: 1 <= i < |elems| ==> elems[i] == elems[1..][i - 1];
    }
  }

  /** Every issue of an element is reported, with its code, under the element's index. */
  lemma {:induction false} ElementIssueReported(elems: seq<Value>, start: nat, check: Value -> seq<Issue>, i: nat, k: nat)
    requires i < |elems| && k < |check(elems[i])|
    ensures var issue := check(elems[i])[k];
      Issue([Index(start + i)] + issue.path, issue.code) in CheckElements(elems, start, check)
    decreases |elems|
  {
    var head := At(Index(start), check(elems[0]));
    var rest := CheckElements(elems[1..], start + 1, check);
    assert CheckElements(elems, start, check) == head + rest;
    if i == 0 {
      AtSpec(Index(start), check(elems[0]));
      assert (head + rest)[k] == head[k];
    } else {
      assert elems[1..][i - 1] == elems[i];
      ElementIssueReported(elems[1..], start + 1, check, i - 1, k);
    }
  }

  /** `z.array(zDocument)`: an array, every element a document. */
  function CheckDocuments(v: Value): (issues: seq<Issue>)
    ensures !v.Arr? ==> issues == [Issue([], InvalidType(ExpectArray, TypeOf(v)))]
    ensures v.Arr? ==> forall issue :: issue in issues ==>
      issue.path != [] && issue.path[0].Index? && issue.path[0].pos < |v.elems|
  {
    if !v.Arr? then [Issue([], InvalidType(ExpectArray, TypeOf(v)))]
    else CheckElements(v.elems, 0, CheckDocument)
  }

  /** The array validator reports no issue exactly on the arrays of valid documents. */
  lemma CheckDocumentsIff(v: Value)
    ensures CheckDocuments(v) == [] <==> v.Arr? && forall e :: e in v.elems ==> ValidDocument(e)
  {
    if v.Arr? {
      CheckElementsEmpty(v.elems, 0, CheckDocument);
      forall e | e in v.elems
        ensures CheckDocument(e) == [] <==> ValidDocument(e)
      {
        CheckDocumentIff(e);
      }
    }
  }

  function DecodeDocuments(elems: seq<Value>): (r: seq<Document>)
    requires forall e :: e in elems ==> ValidDocument(e)
    ensures |r| == |elems|
    ensures forall i :: 0 <= i < |elems| ==> r[i] == DecodeDocument(elems[i])
  {
    if elems == [] then [] else [DecodeDocument(elems[0])] + DecodeDocuments(elems[1..])
  }

  function EncodeDocuments(ds: seq<Document>): (r: seq<Value>)
    ensures |r| == |ds|
    ensures forall i :: 0 <= i < |ds| ==> r[i] == EncodeDocument(ds[i])
  {
    if ds == [] then [] else [EncodeDocument(ds[0])] + EncodeDocuments(ds[1..])
  }

  lemma {:induction false} DocumentsRoundTrip(ds: seq<Document>)
    ensures forall e :: e in EncodeDocuments(ds) ==> ValidDocument(e)
    ensures DecodeDocuments(EncodeDocuments(ds)) == ds
  {
    var es := EncodeDocuments(ds);
    forall i | 0 <= i < |ds| ensures ValidDocument(es[i]) && DecodeDocument(es[i]) == ds[i] {
      DocumentRoundTrip(ds[i]);
    }
  }

  // ---------------------------------------------------------------------------------
  // zOnboarding

  /** The validators the properties of `zOnboarding` use. */
  datatype Kind = RequiredString | RequiredDate | StatusEnum | DocumentArray

  datatype Field = Field(key: string, kind: Kind)

  /** The record's bookkeeping properties and its status. */
  const HeaderShape: seq<Field> := [
    Field("uuid", RequiredString),
    Field("created_by", RequiredString),
    Field("created_date", RequiredDate),
    Field("modified_by", RequiredString),
    Field("modified_date", RequiredDate),
    Field("onboard_status", StatusEnum)]

  /** The "Profile" properties. */
  const ProfileShape: seq<Field> := [
    Field("start_date", RequiredDate),
    Field("end_date", RequiredDate),
    Field("work_state", RequiredString),
    Field("client_location", RequiredString),
    Field("experience", RequiredString),
    Field("department", RequiredString),
    Field("reporting_to", RequiredString),
    Field("designation", RequiredString),
    Field("overtime_exemption", RequiredString)]

  /** The "Job" properties. */
  const JobShape: seq<Field> := [
    Field("name_of_recruiter", RequiredString),
    Field("contact_number_of_recruiter", RequiredString),
    Field("bill_rate", RequiredString),
    Field("pay_rate", RequiredString),
    Field("payment_frequency", RequiredString),
    Field("account_manager_commission", RequiredString),
    Field("recruitment_manager_commission", RequiredString),
    Field("recruitment_commission", RequiredString),
    Field("additional_information", RequiredString),
    Field("additional_commission", RequiredString),
    Field("remarks", RequiredString),
    Field("vendor", RequiredString)]

  /** The "Immigration" properties. */
  const ImmigrationShape: seq<Field> := [
    Field("processing_type", RequiredString),
    Field("who_is_going_to_pay_premium", RequiredString),
    Field("immigration_job_title", RequiredString),
    Field("current_h1b_validity", RequiredString),
    Field("current_lac_number", RequiredString)]

  /** The "Document" property. */
  const DocumentsShape: seq<Field> := [Field("documents", DocumentArray)]

  /** The shape of `zOnboarding`: its 33 properties in declaration order. */
  const OnboardingShape: seq<Field> := HeaderShape + ProfileShape + JobShape + ImmigrationShape + DocumentsShape

  function CheckKind(kind: Kind, v: Value): seq<Issue>
  {
    match kind
    case RequiredString => CheckString(v)
    case RequiredDate => CheckDate(v)
    case StatusEnum => CheckStatus(v)
    case DocumentArray => CheckDocuments(v)
  }

  /** What each validator accepts. */
  ghost predicate KindAccepts(kind: Kind, v: Value)
  {
    match kind
    case RequiredString => v.Str?
    case RequiredDate => v.Date?
    case StatusEnum => v.Str? && v.s in StatusNames
    case DocumentArray => v.Arr? && forall e :: e in v.elems ==> ValidDocument(e)
  }

  lemma CheckKindIff(kind: Kind, v: Value)
    ensures CheckKind(kind, v) == [] <==> KindAccepts(kind, v)
  {
    PrimitiveChecks(v);
    StatusValueExact(v);
    CheckDocumentsIff(v);
  }

  /** The issues of the properties of `shape`, each under its key, in the shape's order. */
  function CheckShape(m: map<string, Value>, shape: seq<Field>): (issues: seq<Issue>)
    ensures forall issue :: issue in issues ==>
      issue.path != [] && exists j :: 0 <= j < |shape| && issue.path[0] == Key(shape[j].key)
  {
    if shape == [] then []
    else
      AtPaths(Key(shape[0].key), CheckKind(shape[0].kind, Lookup(m, shape[0].key)));
      var rest := CheckShape(m, shape[1..]);
      assert forall j :: 0 <= j < |shape[1..]| ==> shape[1..][j] == shape[j + 1];
      At(Key(shape[0].key), CheckKind(shape[0].kind, Lookup(m, shape[0].key))) + rest
  }

  /** Every property of `shape` is accepted by its validator. */
  ghost predicate ShapeAccepts(m: map<string, Value>, shape: seq<Field>)
  {
    forall i :: 0 <= i < |shape| ==> KindAccepts(shape[i].kind, Lookup(m, shape[i].key))
  }

  /** No issue is reported exactly when every property is accepted by its validator. */
  lemma {:induction false} CheckShapeIff(m: map<string, Value>, shape: seq<Field>)
    ensures CheckShape(m, shape) == [] <==> ShapeAccepts(m, shape)
  {
    if shape != [] {
      CheckKindIff(shape[0].kind, Lookup(m, shape[0].key));
      CheckShapeIff(m, shape[1..]);
      assert forall i :: 1 <= i < |shape| ==> shape[i] == shape[1..][i - 1];
    }
  }

  /** A shape made of two parts is accepted exactly when both parts are. */
  lemma ShapeAcceptsConcat(m: map<string, Value>, a: seq<Field>, b: seq<Field>)
    ensures ShapeAccepts(m, a + b) <==> ShapeAccepts(m, a) && ShapeAccepts(m, b)
  {
    if ShapeAccepts(m, a) && ShapeAccepts(m, b) {
      forall i | 0 <= i < |a + b|
        ensures KindAccepts((a + b)[i].kind, Lookup(m, (a + b)[i].key))
      {
        if i >= |a| {
          assert (a + b)[i] == b[i - |a|];
        }
      }
    }
    if ShapeAccepts(m, a + b) {
      forall i | 0 <= i < |a|
        ensures KindAccepts(a[i].kind, Lookup(m, a[i].key))
      {
        assert (a + b)[i] == a[i];
      }
      forall i | 0 <= i < |b|
        ensures KindAccepts(b[i].kind, Lookup(m, b[i].key))
      {
        assert (a + b)[|a| + i] == b[i];
      }
    }
  }

  /** A required string property that is missing is the first issue reported. */
  lemma MissingFirstReported(m: map<string, Value>, shape: seq<Field>)
    requires shape != [] && shape[0].kind == RequiredString && shape[0].key !in m
    ensures CheckShape(m, shape) != []
    ensures CheckShape(m, shape)[0] == Issue([Key(shape[0].key)], InvalidType(ExpectString, TUndefined))
  {
    var issues := CheckString(Undefined);
    assert issues == [Issue([], InvalidType(ExpectString, TUndefined))];
    AtSpec(Key(shape[0].key), issues);
  }

  /** The onboarding properties are accepted exactly when those of each of the five sections are. */
  lemma OnboardingSections(m: map<string, Value>)
    ensures ShapeAccepts(m, OnboardingShape) <==>
      && ShapeAccepts(m, HeaderShape) && ShapeAccepts(m, ProfileShape) && ShapeAccepts(m, JobShape)
      && ShapeAccepts(m, ImmigrationShape) && ShapeAccepts(m, DocumentsShape)
  {
    ShapeAcceptsConcat(m, HeaderShape, ProfileShape);
    ShapeAcceptsConcat(m, HeaderShape + ProfileShape, JobShape);
    ShapeAcceptsConcat(m, HeaderShape + ProfileShape + JobShape, ImmigrationShape);
    ShapeAcceptsConcat(m, HeaderShape + ProfileShape + JobShape + ImmigrationShape, DocumentsShape);
  }

  /** A property the shape does not name changes no issue: unknown keys are not checked. */
  lemma {:induction false} UnknownKeyIgnored(m: map<string, Value>, shape: seq<Field>, k: string, x: Value)
    requires forall i :: 0 <= i < |shape| ==> shape[i].key != k
    ensures CheckShape(m[k := x], shape) == CheckShape(m, shape)
  {
    if shape != [] {
      assert Lookup(m[k := x], shape[0].key) == Lookup(m, shape[0].key);
      UnknownKeyIgnored(m, shape[1..], k, x);
    }
  }

  /** Every property of `shape` named `k` has the validator `kind`. */
  ghost predicate KindOfKey(shape: seq<Field>, k: string, kind: Kind)
  {
    forall i :: 0 <= i < |shape| && shape[i].key == k ==> shape[i].kind == kind
  }

  /** Replacing property `k` by a value its validator accepts keeps the properties accepted. */
  lemma ReplaceAccepted(m: map<string, Value>, shape: seq<Field>, k: string, kind: Kind, x: Value)
    requires ShapeAccepts(m, shape) && KindOfKey(shape, k, kind) && KindAccepts(kind, x)
    ensures ShapeAccepts(m[k := x], shape)
  {
    forall i | 0 <= i < |shape|
      ensures KindAccepts(shape[i].kind, Lookup(m[k := x], shape[i].key))
    {
      if shape[i].key != k {
        assert Lookup(m[k := x], shape[i].key) == Lookup(m, shape[i].key);
      }
    }
  }

  /** A key has one validator in a shape made of two parts exactly when it has it in both. */
  lemma KindOfKeyConcat(a: seq<Field>, b: seq<Field>, k: string, kind: Kind)
    ensures KindOfKey(a + b, k, kind) <==> KindOfKey(a, k, kind) && KindOfKey(b, k, kind)
  {
    if KindOfKey(a, k, kind) && KindOfKey(b, k, kind) {
      forall i | 0 <= i < |a + b| && (a + b)[i].key == k
        ensures (a + b)[i].kind == kind
      {
        if i >= |a| {
          assert (a + b)[i] == b[i - |a|];
        }
      }
    }
    if KindOfKey(a + b, k, kind) {
      forall i | 0 <= i < |a| && a[i].key == k
        ensures a[i].kind == kind
      {
        assert (a + b)[i] == a[i];
      }
      forall i | 0 <= i < |b| && b[i].key == k
        ensures b[i].kind == kind
      {
        assert (a + b)[|a| + i] == b[i];
      }
    }
  }

  /** `zOnboarding`: an object, every property checked in declaration order, every failure reported. */
  function CheckOnboarding(v: Value): (issues: seq<Issue>)
    ensures !IsObject(v) ==> issues == [Issue([], InvalidType(ExpectObject, TypeOf(v)))]
    ensures IsObject(v) ==> forall issue :: issue in issues ==> issue.path != [] && issue.path[0].Key?
  {
    if !IsObject(v) then [Issue([], InvalidType(ExpectObject, TypeOf(v)))]
    else CheckShape(Properties(v), OnboardingShape)
  }

  /**
   * A valid onboarding record: an object each of whose properties its validator accepts.
   * A `File` passes zod's object test but has none of the properties.
   */
  ghost predicate ValidOnboarding(v: Value)
  {
    IsObject(v) && ShapeAccepts(Properties(v), OnboardingShape)
  }

  /** The onboarding validator reports no issue exactly on the valid records. */
  lemma CheckOnboardingIff(v: Value)
    ensures CheckOnboarding(v) == [] <==> ValidOnboarding(v)
  {
    CheckShapeIff(Properties(v), OnboardingShape);
  }

  /** A record without `uuid` is rejected, and the first issue is the missing `uuid`. */
  lemma MissingUuidReported(v: Value)
    requires IsObject(v) && "uuid" !in Properties(v)
    ensures CheckOnboarding(v) != [] && !ValidOnboarding(v)
    ensures CheckOnboarding(v)[0] == Issue([Key("uuid")], InvalidType(ExpectString, TUndefined))
  {
    assert OnboardingShape[0] == Field("uuid", RequiredString);
    MissingFirstReported(Properties(v), OnboardingShape);
    CheckOnboardingIff(v);
  }

  /** A valid record is a plain object carrying the bookkeeping properties, the dates and the status. */
  lemma RequiredFields(v: Value)
    requires ValidOnboarding(v)
    ensures v.Obj?
    ensures Lookup(v.fields, "uuid").Str? && Lookup(v.fields, "created_by").Str? && Lookup(v.fields, "modified_by").Str?
    ensures Lookup(v.fields, "created_date").Date? && Lookup(v.fields, "modified_date").Date?
    ensures Lookup(v.fields, "start_date").Date? && Lookup(v.fields, "end_date").Date?
    ensures Lookup(v.fields, "onboard_status").Str? && StatusOf(Lookup(v.fields, "onboard_status").s).Some?
    ensures Lookup(v.fields, "documents").Arr?
    ensures forall e :: e in Lookup(v.fields, "documents").elems ==> ValidDocument(e)
  {
    var m := Properties(v);
    OnboardingSections(m);
    assert KindAccepts(HeaderShape[0].kind, Lookup(m, HeaderShape[0].key));
    assert v.Obj?;
    assert KindAccepts(HeaderShape[1].kind, Lookup(m, HeaderShape[1].key));
    assert KindAccepts(HeaderShape[2].kind, Lookup(m, HeaderShape[2].key));
    assert KindAccepts(HeaderShape[3].kind, Lookup(m, HeaderShape[3].key));
    assert KindAccepts(HeaderShape[4].kind, Lookup(m, HeaderShape[4].key));
    assert KindAccepts(HeaderShape[5].kind, Lookup(m, HeaderShape[5].key));
    assert KindAccepts(ProfileShape[0].kind, Lookup(m, ProfileShape[0].key));
    assert KindAccepts(ProfileShape[1].kind, Lookup(m, ProfileShape[1].key));
    assert KindAccepts(DocumentsShape[0].kind, Lookup(m, DocumentsShape[0].key));
    StatusValueExact(Lookup(m, "onboard_status"));
  }

  /** `documents` is checked as an array of documents, and only there. */
  lemma DocumentsKey()
    ensures KindOfKey(OnboardingShape, "documents", DocumentArray)
  {
    assert |OnboardingShape| == 33;
    forall i | 0 <= i < 32
      ensures OnboardingShape[i].key != "documents"
    {
    }
  }

  /** A record's documents may be replaced by none: `documents` may be empty. */
  lemma EmptyDocumentsAccepted(v: Value)
    requires ValidOnboarding(v)
    ensures ValidOnboarding(Obj(Properties(v)["documents" := Arr([])]))
  {
    DocumentsKey();
    ReplaceAccepted(Properties(v), OnboardingShape, "documents", DocumentArray, Arr([]));
  }

  /** A property outside the schema does not affect validation. */
  lemma ExtraPropertyIgnored(v: Value, k: string, x: Value)
    requires v.Obj? && forall i :: 0 <= i < |OnboardingShape| ==> OnboardingShape[i].key != k
    ensures CheckOnboarding(Obj(v.fields[k := x])) == CheckOnboarding(v)
  {
    UnknownKeyIgnored(v.fields, OnboardingShape, k, x);
  }

  /** The rate and commission properties of the "Job" section. */
  const RateKeys: set<string> := {
    "bill_rate", "pay_rate", "account_manager_commission", "recruitment_manager_commission",
    "recruitment_commission", "additional_commission"}

  /** No rate or commission key names a date, the status or the documents. */
  lemma RateKeysNotInHeader(k: string)
    requires k in RateKeys
    ensures KindOfKey(HeaderShape, k, RequiredString) && KindOfKey(ProfileShape, k, RequiredString)
  {
  }

  lemma RateKeysNotInDocuments(k: string)
    requires k in RateKeys
    ensures KindOfKey(DocumentsShape, k, RequiredString)
  {
  }

  /** The rates and commissions are checked as plain strings, wherever they occur in the shape. */
  lemma RateKeysAreStrings(k: string)
    requires k in RateKeys
    ensures KindOfKey(OnboardingShape, k, RequiredString)
    ensures exists i :: 0 <= i < |OnboardingShape| && OnboardingShape[i] == Field(k, RequiredString)
  {
    RateKeyInShape(k);
    RateKeysNotInHeader(k);
    RateKeysNotInDocuments(k);
    assert KindOfKey(JobShape, k, RequiredString);
    assert KindOfKey(ImmigrationShape, k, RequiredString);
    KindOfKeyConcat(HeaderShape, ProfileShape, k, RequiredString);
    KindOfKeyConcat(HeaderShape + ProfileShape, JobShape, k, RequiredString);
    KindOfKeyConcat(HeaderShape + ProfileShape + JobShape, ImmigrationShape, k, RequiredString);
    KindOfKeyConcat(HeaderShape + ProfileShape + JobShape + ImmigrationShape, DocumentsShape, k, RequiredString);
  }

  /** Each rate and commission is one of the schema's properties, checked by `z.string()`. */
  lemma RateKeyInShape(k: string)
    requires k in RateKeys
    ensures exists i :: 0 <= i < |OnboardingShape| && OnboardingShape[i] == Field(k, RequiredString)
  {
    var j := if k == "bill_rate" then 2 else if k == "pay_rate" then 3
      else if k == "account_manager_commission" then 5 else if k == "recruitment_manager_commission" then 6
      else if k == "recruitment_commission" then 7 else 9;
    assert JobShape[j] == Field(k, RequiredString);
    assert OnboardingShape[|HeaderShape + ProfileShape| + j] == JobShape[j];
  }

  /** Every rate and commission is a required property: a valid record carries each as a string. */
  lemma RatesRequired(v: Value, k: string)
    requires ValidOnboarding(v) && k in RateKeys
    ensures v.Obj? && Lookup(v.fields, k).Str?
  {
    var m := Properties(v);
    OnboardingSections(m);
    assert KindAccepts(HeaderShape[0].kind, Lookup(m, HeaderShape[0].key));
    assert KindAccepts(JobShape[2].kind, Lookup(m, JobShape[2].key));
    assert KindAccepts(JobShape[3].kind, Lookup(m, JobShape[3].key));
    assert KindAccepts(JobShape[5].kind, Lookup(m, JobShape[5].key));
    assert KindAccepts(JobShape[6].kind, Lookup(m, JobShape[6].key));
    assert KindAccepts(JobShape[7].kind, Lookup(m, JobShape[7].key));
    assert KindAccepts(JobShape[9].kind, Lookup(m, JobShape[9].key));
  }

  /** A rate or commission may be any text: no numeric format is demanded. */
  lemma RateFieldsUnconstrained(v: Value, k: string, rate: string)
    requires ValidOnboarding(v) && k in RateKeys
    ensures ValidOnboarding(Obj(Properties(v)[k := Str(rate)]))
  {
    RateKeysAreStrings(k);
    ReplaceAccepted(Properties(v), OnboardingShape, k, RequiredString, Str(rate));
  }

  // ---------------------------------------------------------------------------------
  // zOnboarding.safeParse

  /** zod's output for a valid record: the string and date properties by key, the status and the documents. */
  datatype Onboarding = Onboarding(
    strings: map<string, string>,
    dates: map<string, int>,
    status: Status,
    documents: seq<Document>)

  /** The keys of the properties the validator `kind` checks. */
  function KeysOf(kind: Kind): set<string>
  {
    set i | 0 <= i < |OnboardingShape| && OnboardingShape[i].kind == kind :: OnboardingShape[i].key
  }

  /** Each key of a validator names a property that validator accepts. */
  lemma KeysOfAccepted(m: map<string, Value>, kind: Kind)
    requires ShapeAccepts(m, OnboardingShape)
    ensures forall k :: k in KeysOf(kind) ==> KindAccepts(kind, Lookup(m, k))
  {
    forall k | k in KeysOf(kind)
      ensures KindAccepts(kind, Lookup(m, k))
    {
      var i :| 0 <= i < |OnboardingShape| && OnboardingShape[i].kind == kind && OnboardingShape[i].key == k;
    }
  }

  /** zod's output for a valid record: the shape's properties, typed; unknown properties are stripped. */
  function DecodeOnboarding(v: Value): (r: Onboarding)
    requires ValidOnboarding(v)
    ensures r.strings.Keys == KeysOf(RequiredString) && r.dates.Keys == KeysOf(RequiredDate)
  {
    RequiredFields(v);
    var m := v.fields;
    KeysOfAccepted(m, RequiredString);
    KeysOfAccepted(m, RequiredDate);
    Onboarding(
      map k | k in KeysOf(RequiredString) :: Lookup(m, k).s,
      map k | k in KeysOf(RequiredDate) :: Lookup(m, k).time,
      StatusOf(Lookup(m, "onboard_status").s).value,
      DecodeDocuments(Lookup(m, "documents").elems))
  }

  /** The typed record carries the input's values: every string, every date, the status and one document per element. */
  lemma DecodeOnboardingSpec(v: Value)
    requires ValidOnboarding(v)
    ensures v.Obj?
    ensures var r := DecodeOnboarding(v);
      && (forall k :: k in r.strings ==> Lookup(v.fields, k) == Str(r.strings[k]))
      && (forall k :: k in r.dates ==> Lookup(v.fields, k) == Date(r.dates[k]))
      && Lookup(v.fields, "onboard_status") == Str(StatusName(r.status))
      && Lookup(v.fields, "documents").Arr?
      && |r.documents| == |Lookup(v.fields, "documents").elems|
      && (forall e :: e in Lookup(v.fields, "documents").elems ==> ValidDocument(e))
      && forall i :: 0 <= i < |r.documents| ==> r.documents[i] == DecodeDocument(Lookup(v.fields, "documents").elems[i])
  {
    RequiredFields(v);
    KeysOfAccepted(v.fields, RequiredString);
    KeysOfAccepted(v.fields, RequiredDate);
  }

  /** `zOnboarding.safeParse`. */
  function ParseOnboarding(v: Value): (r: Result<Onboarding, seq<Issue>>)
    ensures r.Success? <==> ValidOnboarding(v)
    ensures r.Success? ==> r.value == DecodeOnboarding(v)
    ensures r.Failure? ==> r.error == CheckOnboarding(v) && r.error != []
  {
    CheckOnboardingIff(v);
    var issues := CheckOnboarding(v);
    if issues == [] then Success(DecodeOnboarding(v)) else Failure(issues)
  }
}
