/** The Job model (`jobSchema`): five required String paths, `title`,
    `company`, `location`, `jobType` and `description`, plus the `createdAt`
    and `updatedAt` timestamps. There is no reference to a user. A job type
    is any string; the model layer knows no list of job types.

    Values come from a JSON request body and are cast the way a Mongoose
    String path casts them: strings are kept, numbers and booleans are
    written out as text, `null` or an absent key gives no value, an object
    whose `_id` member is a non-empty string gives that `_id` (a document
    passed where a string is expected), and arrays and other objects cannot
    be cast. A String path that is `required` rejects no value and the empty
    string. */
module JobModel {
  import opened Text

  /** `Number.MAX_SAFE_INTEGER`, 2^53 - 1. */
  const MaxSafeInteger: int := 0x1F_FFFF_FFFF_FFFF

  /** The integers a JSON number holds exactly, and which JavaScript writes
      out as plain decimal digits (it switches to exponent notation only
      from 10^21 on). */
  type SafeInt = n: int | -MaxSafeInteger <= n <= MaxSafeInteger

  /** A JSON value of a request body (numbers are safe integers here). An object
      is represented by its `_id` member when that member is a string, the
      only part of an object a String path looks at. */
  datatype JsonValue =
    | JNull | JBool(b: bool) | JNum(n: SafeInt) | JStr(s: string) | JArray
    | JObject(stringId: Option<string>)

  /** A parsed JSON request body: its keys and values. */
  type Body = map<string, JsonValue>

  /** The five user-supplied paths of the schema. */
  datatype Field = Title | Company | Location | JobType | Description

  const Fields: seq<Field> := [Title, Company, Location, JobType, Description]

  lemma FieldsComplete()
    ensures forall f :: f in Fields
  {
    forall f ensures f in Fields {
      match f
      case Title => assert Fields[0] == f;
      case Company => assert Fields[1] == f;
      case Location => assert Fields[2] == f;
      case JobType => assert Fields[3] == f;
      case Description => assert Fields[4] == f;
    }
  }

  function Key(f: Field): string {
    match f
    case Title => "title"
    case Company => "company"
    case Location => "location"
    case JobType => "jobType"
    case Description => "description"
  }

  /** A stored job document. A path holds None when it was set to null by an
      update, which runs no validators. */
  datatype Job = Job(
    id: string,
    title: Option<string>,
    company: Option<string>,
    location: Option<string>,
    jobType: Option<string>,
    description: Option<string>,
    createdAt: nat,
    updatedAt: nat)

  /** The value a job holds at path `f`. */
  function PathValue(job: Job, f: Field): Option<string> {
    match f
    case Title => job.title
    case Company => job.company
    case Location => job.location
    case JobType => job.jobType
    case Description => job.description
  }

  function With(job: Job, f: Field, v: Option<string>): (r: Job)
    ensures PathValue(r, f) == v
    ensures forall g :: g != f ==> PathValue(r, g) == PathValue(job, g)
    ensures r.id == job.id && r.createdAt == job.createdAt && r.updatedAt == job.updatedAt
  {
    match f
    case Title => job.(title := v)
    case Company => job.(company := v)
    case Location => job.(location := v)
    case JobType => job.(jobType := v)
    case Description => job.(description := v)
  }

  /** A document that satisfies the schema: every required path holds a
      non-empty string. */
  predicate SchemaValid(job: Job) {
    forall f :: PathValue(job, f).Some? && PathValue(job, f).value != ""
  }

  // ------------------------------------------------------------- casting

  datatype Cast = Casted(value: Option<string>) | CastFailed

  function Lookup(body: Body, key: string): Option<JsonValue> {
    if key in body then Some(body[key]) else None
  }

  /** A value a String path cannot cast: an array, or an object without a
      non-empty string `_id` (an empty `_id` is falsy and is passed over). */
  predicate Uncastable(v: JsonValue) {
    v.JArray? || (v.JObject? && (v.stringId.None? || v.stringId.value == ""))
  }

  /** How a String path casts a body value. */
  function CastString(v: Option<JsonValue>): (r: Cast)
    ensures r == CastFailed <==> v.Some? && Uncastable(v.value)
    ensures v.Some? && v.value.JStr? ==> r == Casted(Some(v.value.s))
    ensures v.Some? && v.value.JObject? && !Uncastable(v.value) ==> r == Casted(v.value.stringId)
    ensures v.None? || v == Some(JNull) ==> r == Casted(None)
    ensures v.Some? && v.value.JNum? ==>
      && r.Casted? && r.value.Some?
      && var t, n := r.value.value, v.value.n;
      && |t| >= 1 && (n < 0 <==> t[0] == '-')
      && ParseNat(if n < 0 then t[1..] else t) == Some(if n < 0 then -n else n)
      && (var d := if n < 0 then t[1..] else t; |d| >= 2 ==> d[0] != '0')
    ensures v.Some? && v.value.JBool? ==> r == Casted(Some(if v.value.b then "true" else "false"))
  {
    match v
    case None => Casted(None)
    case Some(JNull) => Casted(None)
    case Some(JStr(s)) => Casted(Some(s))
    case Some(JNum(n)) =>
      ParseDec(if n < 0 then -n else n);
      Casted(Some(SignedDec(n)))
    case Some(JBool(b)) => Casted(Some(if b then "true" else "false"))
    case Some(JArray) => CastFailed
    case Some(JObject(id)) => if id.Some? && id.value != "" then Casted(id) else CastFailed
  }

  // ----------------------------------------------------------- validation

  datatype Reason = Required | NotAString

  datatype FieldError = FieldError(field: Field, reason: Reason)

  /** A body value the schema accepts for a required String path. */
  predicate Acceptable(v: JsonValue) {
    || v.JNum? || v.JBool? || (v.JStr? && v.s != "")
    || (v.JObject? && v.stringId.Some? && v.stringId.value != "")
  }

  /** The body supplies an acceptable value for `f`. */
  predicate Supplied(body: Body, f: Field) {
    Key(f) in body && Acceptable(body[Key(f)])
  }

  /** The value a required path gets from the body, or why it gets none. */
  function CheckField(body: Body, f: Field): (r: Result<string, Reason>)
    ensures r.Ok? <==> Supplied(body, f)
    ensures r.Ok? ==> r.value != "" && CastString(Some(body[Key(f)])) == Casted(Some(r.value))
    ensures r.Err? ==> (r.error == NotAString <==> Key(f) in body && Uncastable(body[Key(f)]))
  {
    match CastString(Lookup(body, Key(f)))
    case CastFailed => Err(NotAString)
    case Casted(None) => Err(Required)
    case Casted(Some(s)) => if s == "" then Err(Required) else Ok(s)
  }

  /** The validation errors of the paths `fs`, in order. */
  function ErrorsIn(body: Body, fs: seq<Field>): (errs: seq<FieldError>)
    ensures forall e :: e in errs ==> e.field in fs && CheckField(body, e.field) == Err(e.reason)
    ensures forall f :: f in fs && !Supplied(body, f) ==> FieldError(f, CheckField(body, f).error) in errs
  {
    if fs == [] then []
    else
      var here := match CheckField(body, fs[0])
        case Err(r) => [FieldError(fs[0], r)]
        case Ok(_) => [];
      here + ErrorsIn(body, fs[1..])
  }

  /** `new Job({ title, company, location, jobType, description })` followed
      by the validation `save` runs: the job is built from the five schema
      keys of the body only, and stamped with `now` as both timestamps. */
  function NewJob(body: Body, id: string, now: nat): (r: Result<Job, seq<FieldError>>)
    ensures r.Ok? <==> forall f :: Supplied(body, f)
    ensures r.Ok? ==> r.value.id == id && r.value.createdAt == now && r.value.updatedAt == now
    ensures r.Ok? ==> SchemaValid(r.value)
    ensures r.Ok? ==> forall f :: Key(f) in body && CastString(Some(body[Key(f)])) == Casted(PathValue(r.value, f))
    ensures r.Err? ==> r.error != [] && forall f :: (!Supplied(body, f) <==> exists e :: e in r.error && e.field == f)
  {
    var errs := ErrorsIn(body, Fields);
    ErrorsOfFields(body);
    if errs != [] then Err(errs) else Ok(Built(body, id, now))
  }

  /** The document `new Job(...)` builds from a body that supplies every
      path: each path holds the value its key casts to. */
  function Built(body: Body, id: string, now: nat): (job: Job)
    requires forall f :: Supplied(body, f)
    ensures job.id == id && job.createdAt == now && job.updatedAt == now
    ensures forall f :: PathValue(job, f) == Some(CheckField(body, f).value)
  {
    var job := Job(id, Some(Value(body, Title)), Some(Value(body, Company)),
      Some(Value(body, Location)), Some(Value(body, JobType)),
      Some(Value(body, Description)), now, now);
    ValuesPlaced(body, job);
    job
  }

  lemma ValuesPlaced(body: Body, job: Job)
    requires forall f :: Supplied(body, f)
    requires job.title == Some(Value(body, Title)) && job.company == Some(Value(body, Company))
    requires job.location == Some(Value(body, Location)) && job.jobType == Some(Value(body, JobType))
    requires job.description == Some(Value(body, Description))
    ensures forall f :: PathValue(job, f) == Some(CheckField(body, f).value)
  {
    forall f ensures PathValue(job, f) == Some(CheckField(body, f).value) {
      assert PathValue(job, f) == Some(Value(body, f)) by {
        match f
        case Title =>
        case Company =>
        case Location =>
        case JobType =>
        case Description =>
      }
    }
  }

  /** The value a supplied path takes. */
  function Value(body: Body, f: Field): (v: string)
    requires Supplied(body, f)
    ensures CheckField(body, f) == Ok(v)
  {
    CheckField(body, f).value
  }

  /** The validation errors over all five paths name exactly the paths the
      body does not supply. */
  lemma ErrorsOfFields(body: Body)
    ensures ErrorsIn(body, Fields) == [] <==> forall f :: Supplied(body, f)
    ensures forall f :: !Supplied(body, f) <==> exists e :: e in ErrorsIn(body, Fields) && e.field == f
  {
    FieldsComplete();
    var errs := ErrorsIn(body, Fields);
    if errs != [] {
      assert errs[0] in errs;
    }
    forall f | !Supplied(body, f)
      ensures exists e :: e in errs && e.field == f
    {
      assert FieldError(f, CheckField(body, f).error) in errs;
    }
  }

  /** Keys of the body other than the five schema paths play no part in the
      job that is built. */
  lemma {:induction false} OnlySchemaKeysRead(body: Body, other: Body, id: string, now: nat)
    requires forall f :: Lookup(body, Key(f)) == Lookup(other, Key(f))
    ensures NewJob(body, id, now) == NewJob(other, id, now)
  {
    SameErrors(body, other, Fields);
    assert forall f :: CheckField(body, f) == CheckField(other, f);
  }

  lemma {:induction false} SameErrors(body: Body, other: Body, fs: seq<Field>)
    requires forall f :: Lookup(body, Key(f)) == Lookup(other, Key(f))
    ensures ErrorsIn(body, fs) == ErrorsIn(other, fs)
  {
    if fs != [] {
      assert CheckField(body, fs[0]) == CheckField(other, fs[0]);
      SameErrors(body, other, fs[1..]);
    }
  }

  /** Any non-empty text is an acceptable job type: the schema has no list
      of job types. */
  lemma FreeFormJobType(body: Body, id: string, now: nat, jobType: string)
    requires forall f :: f != JobType ==> Supplied(body, f)
    requires jobType != ""
    ensures var r := NewJob(body["jobType" := JStr(jobType)], id, now);
      r.Ok? && r.value.jobType == Some(jobType)
  {
    var b := body["jobType" := JStr(jobType)];
    forall f ensures Supplied(b, f) {
      if f != JobType {
        assert Key(f) != "jobType";
        assert Supplied(body, f);
      }
    }
    assert forall f :: Supplied(b, f);
  }

  /** An object passed for a path is cast to its `_id` when that is a
      non-empty string: `{ "title": { "_id": t } }` builds a job titled `t`. */
  lemma ObjectCastsToId(body: Body, id: string, now: nat, t: string)
    requires forall f :: f != Title ==> Supplied(body, f)
    requires t != ""
    ensures var r := NewJob(body["title" := JObject(Some(t))], id, now);
      r.Ok? && r.value.title == Some(t)
  {
    var b := body["title" := JObject(Some(t))];
    forall f ensures Supplied(b, f) {
      if f != Title {
        assert Key(f) != "title";
        assert Supplied(body, f);
      }
    }
    assert forall f :: Supplied(b, f);
    assert PathValue(NewJob(b, id, now).value, Title) == Some(CheckField(b, Title).value);
  }

  // ------------------------------------------------------------- updates

  /** The changes an update body makes to the schema paths, after casting:
      keys outside the schema are dropped; a value that cannot be cast fails
      the whole update. */
  function UpdateChanges(body: Body): (r: Result<map<Field, Option<string>>, seq<FieldError>>)
    ensures r.Ok? ==> forall f :: (f in r.value <==> Key(f) in body)
    ensures r.Ok? ==> forall f :: f in r.value ==> CastString(Some(body[Key(f)])) == Casted(r.value[f])
    ensures r.Err? <==> exists f :: Key(f) in body && CastString(Some(body[Key(f)])) == CastFailed
  {
    var bad := CastErrorsIn(body, Fields);
    FieldsComplete();
    if bad != [] then assert bad[0] in bad; Err(bad)
    else Ok(map f: Field | Key(f) in body :: CastString(Some(body[Key(f)])).value)
  }

  function CastErrorsIn(body: Body, fs: seq<Field>): (errs: seq<FieldError>)
    ensures forall e :: e in errs ==>
      (e.field in fs && e.reason == NotAString &&
       Key(e.field) in body && CastString(Some(body[Key(e.field)])) == CastFailed)
    ensures forall f ::
      (f in fs && Key(f) in body && CastString(Some(body[Key(f)])) == CastFailed
       ==> FieldError(f, NotAString) in errs)
  {
    if fs == [] then []
    else
      var here := if Key(fs[0]) in body && CastString(Some(body[Key(fs[0])])) == CastFailed
        then [FieldError(fs[0], NotAString)] else [];
      here + CastErrorsIn(body, fs[1..])
  }

  /** The document after `$set` of the changes, with `updatedAt` set to
      `now`; no validator runs. */
  function Updated(job: Job, changes: map<Field, Option<string>>, now: nat): (r: Job)
    ensures r.id == job.id && r.createdAt == job.createdAt && r.updatedAt == now
    ensures forall f :: PathValue(r, f) == if f in changes then changes[f] else PathValue(job, f)
  {
    var j1 := if Title in changes then With(job, Title, changes[Title]) else job;
    var j2 := if Company in changes then With(j1, Company, changes[Company]) else j1;
    var j3 := if Location in changes then With(j2, Location, changes[Location]) else j2;
    var j4 := if JobType in changes then With(j3, JobType, changes[JobType]) else j3;
    var j5 := if Description in changes then With(j4, Description, changes[Description]) else j4;
    j5.(updatedAt := now)
  }

  /** An update can leave a document that the schema would reject: an empty
      title is stored as it is. */
  lemma UpdateSkipsValidation(job: Job, now: nat)
    ensures var r := UpdateChanges(map["title" := JStr("")]);
      r.Ok? && !SchemaValid(Updated(job, r.value, now))
  {
    var body: Body := map["title" := JStr("")];
    assert Key(Title) in body;
    forall f | Key(f) in body ensures CastString(Some(body[Key(f)])) != CastFailed {
      assert body[Key(f)] == JStr("");
    }
    var r := UpdateChanges(body);
    assert r.Ok?;
    assert CastString(Some(body[Key(Title)])) == Casted(r.value[Title]);
    var after := Updated(job, r.value, now);
    assert PathValue(after, Title) == Some("");
  }

}
