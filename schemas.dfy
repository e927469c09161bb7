/** The zod schemas of src/utils/schemas.ts as total validators. Each validator
    returns the list of issues zod collects, in zod's order (fields in the order of
    the object's shape, checks of a field in the order they are chained), so the
    message a caller surfaces, `issues[0].message`, is the first one. The e-mail
    regular expression of zod is a parameter. */
module Schemas {
  import opened Js

  /** A validation issue: a message written in the schema, or one of zod's own. */
  datatype Issue =
    | Custom(message: string)
    | InvalidType(expected: string, received: string)
    | InvalidEnum(options: seq<string>, received: string)
    | TooBig(maximum: nat)

  /** zod's name for the type of a value. */
  function TypeName(v: Value): string
  {
    match v
    case Undefined => "undefined"
    case Null => "null"
    case Bool(_) => "boolean"
    case Num(_) => "number"
    case Str(_) => "string"
    case Obj(_) => "object"
  }

  /** The options of an enum as zod lists them: 'a' | 'b' | 'c'. */
  function JoinValues(options: seq<string>): string
  {
    if options == [] then ""
    else if |options| == 1 then "'" + options[0] + "'"
    else "'" + options[0] + "' | " + JoinValues(options[1..])
  }

  /** The message of an issue (zod's default wording for its own issues). */
  function Message(i: Issue): (r: string)
    ensures i.Custom? ==> r == i.message
    ensures !i.Custom? ==> r != ""
  {
    match i
    case Custom(m) => m
    case InvalidType(expected, received) =>
      if received == "undefined" then "Required" else "Expected " + expected + ", received " + received
    case InvalidEnum(options, received) =>
      "Invalid enum value. Expected " + JoinValues(options) + ", received '" + received + "'"
    case TooBig(maximum) => "Number must be less than or equal to " + DecimalString(maximum)
  }

  /** `issues[0]?.message`. */
  function FirstMessage(issues: seq<Issue>): Option<string>
  {
    if issues == [] then None else Some(Message(issues[0]))
  }

  // ------------------------------------------------------------ field schemas

  datatype StringCheck = MinLength(n: nat, message: string) | MaxLength(n: nat, message: string) | EmailShape(message: string)

  /** The checks chained on `z.string()`, all of them run in order. */
  function CheckIssues(s: string, checks: seq<StringCheck>, isEmail: string -> bool): (r: seq<Issue>)
    ensures r == [] <==> forall k :: 0 <= k < |checks| ==> Passes(s, checks[k], isEmail)
  {
    if checks == [] then []
    else
      var c := checks[0];
      var rest := CheckIssues(s, checks[1..], isEmail);
      assert forall k :: 1 <= k < |checks| ==> checks[k] == checks[1..][k - 1];
      if Passes(s, c, isEmail) then rest else [Custom(c.message)] + rest
  }

  predicate Passes(s: string, c: StringCheck, isEmail: string -> bool)
  {
    match c
    case MinLength(n, _) => |s| >= n
    case MaxLength(n, _) => |s| <= n
    case EmailShape(_) => isEmail(s)
  }

  /** `z.string()` followed by checks. */
  function StringField(v: Value, checks: seq<StringCheck>, isEmail: string -> bool): seq<Issue>
  {
    if v.Str? then CheckIssues(v.s, checks, isEmail) else [InvalidType("string", TypeName(v))]
  }

  /** `.optional()`: undefined passes. */
  function Optional(v: Value, inner: seq<Issue>): seq<Issue>
  {
    if v == Undefined then [] else inner
  }

  /** `.optional().nullable()`: undefined and null pass. */
  function OptionalNullable(v: Value, inner: seq<Issue>): seq<Issue>
  {
    if v == Undefined || v == Null then [] else inner
  }

  /** `z.enum(options)`. */
  function EnumField(options: seq<string>, v: Value): seq<Issue>
  {
    if !v.Str? then [InvalidType(JoinValues(options), TypeName(v))]
    else if v.s in options then []
    else [InvalidEnum(options, v.s)]
  }

  /** `z.number().max(maximum)` (inclusive). */
  function NumberMax(v: Value, maximum: nat): seq<Issue>
  {
    if !v.Num? then [InvalidType("number", TypeName(v))]
    else if v.n <= maximum then []
    else [TooBig(maximum)]
  }

  /** `z.boolean()`. */
  function BooleanField(v: Value): seq<Issue>
  {
    if v.Bool? then [] else [InvalidType("boolean", TypeName(v))]
  }

  /** `z.object(shape)` applied to a non-object. */
  function NotAnObject(v: Value): seq<Issue>
  {
    [InvalidType("object", TypeName(v))]
  }

  // ------------------------------------------------------------------ enums

  const ApplicationStatuses: seq<string> := ["応募前", "応募中", "書類選考中", "面接中", "内定", "不採用", "辞退"]
  const DocumentResults: seq<string> := ["通過", "不合格", "待ち", ""]
  const AttachmentCategories: seq<string> := ["resume", "cv", "portfolio", "other"]

  /** `ApplicationStatusEnum` accepts exactly its seven statuses. */
  lemma ApplicationStatusExactly(v: Value)
    ensures EnumField(ApplicationStatuses, v) == [] <==>
              v in {Str("応募前"), Str("応募中"), Str("書類選考中"), Str("面接中"), Str("内定"), Str("不採用"), Str("辞退")}
  {
  }

  /** `DocumentResultEnum` accepts exactly "通過", "不合格", "待ち" and the empty string. */
  lemma DocumentResultExactly(v: Value)
    ensures EnumField(DocumentResults, v) == [] <==> v in {Str("通過"), Str("不合格"), Str("待ち"), Str("")}
  {
  }

  /** `AttachmentCategoryEnum` accepts exactly resume, cv, portfolio and other. */
  lemma AttachmentCategoryExactly(v: Value)
    ensures EnumField(AttachmentCategories, v) == [] <==> v in {Str("resume"), Str("cv"), Str("portfolio"), Str("other")}
  {
  }

  // ---------------------------------------------------------- object schemas

  const EmailMessage := "有効なメールアドレスを入力してください"
  const PasswordRequiredMessage := "パスワードを入力してください"
  const PasswordLengthMessage := "パスワードは6文字以上で入力してください"
  const FullNameRequiredMessage := "氏名を入力してください"
  const FullNameTooLongMessage := "氏名は100文字以内で入力してください"
  const CourseRequiredMessage := "コースを選択してください"
  const CourseTooLongMessage := "不正なコースIDです"
  const CompanyRequiredMessage := "企業名を入力してください"
  const PositionRequiredMessage := "職種を入力してください"

  /** `LoginSchema`. */
  function LoginIssues(input: Value, isEmail: string -> bool): seq<Issue>
  {
    match input
    case Obj(m) =>
      StringField(Get(m, "email"), [EmailShape(EmailMessage)], isEmail) +
      StringField(Get(m, "password"), [MinLength(1, PasswordRequiredMessage)], isEmail)
    case _ => NotAnObject(input)
  }

  /** `SignupSchema`. */
  function SignupIssues(input: Value, isEmail: string -> bool): seq<Issue>
  {
    match input
    case Obj(m) =>
      StringField(Get(m, "email"), [EmailShape(EmailMessage)], isEmail) +
      StringField(Get(m, "password"), [MinLength(6, PasswordLengthMessage)], isEmail) +
      StringField(Get(m, "full_name"), [MinLength(1, FullNameRequiredMessage)], isEmail) +
      StringField(Get(m, "course_id"), [MinLength(1, CourseRequiredMessage)], isEmail)
    case _ => NotAnObject(input)
  }

  /** `UpdateStudentProfileSchema`. */
  function UpdateStudentProfileIssues(input: Value): seq<Issue>
  {
    var noEmail := (s: string) => false;
    match input
    case Obj(m) =>
      StringField(Get(m, "full_name"), [MinLength(1, FullNameRequiredMessage), MaxLength(100, FullNameTooLongMessage)], noEmail) +
      StringField(Get(m, "course_id"), [MinLength(1, CourseRequiredMessage), MaxLength(50, CourseTooLongMessage)], noEmail) +
      OptionalNullable(Get(m, "graduation_date"), StringField(Get(m, "graduation_date"), [], noEmail))
    case _ => NotAnObject(input)
  }

  /** The fields of `CreateApplicationSchema`, shared with its extension. */
  function CreateApplicationFieldIssues(m: map<string, Value>): seq<Issue>
  {
    var noEmail := (s: string) => false;
    StringField(Get(m, "company"), [MinLength(1, CompanyRequiredMessage)], noEmail) +
    StringField(Get(m, "position"), [MinLength(1, PositionRequiredMessage)], noEmail) +
    Optional(Get(m, "source"), StringField(Get(m, "source"), [], noEmail)) +
    OptionalNullable(Get(m, "application_date"), StringField(Get(m, "application_date"), [], noEmail))
  }

  /** `CreateApplicationSchema`. */
  function CreateApplicationIssues(input: Value): seq<Issue>
  {
    match input
    case Obj(m) => CreateApplicationFieldIssues(m)
    case _ => NotAnObject(input)
  }

  /** `UpdateApplicationSchema`: the create schema extended by optional fields. */
  function UpdateApplicationIssues(input: Value): seq<Issue>
  {
    match input
    case Obj(m) =>
      CreateApplicationFieldIssues(m) +
      Optional(Get(m, "status"), EnumField(ApplicationStatuses, Get(m, "status"))) +
      Optional(Get(m, "document_result"), EnumField(DocumentResults, Get(m, "document_result"))) +
      Optional(Get(m, "resume_created"), BooleanField(Get(m, "resume_created"))) +
      Optional(Get(m, "work_history_created"), BooleanField(Get(m, "work_history_created"))) +
      Optional(Get(m, "portfolio_submitted"), BooleanField(Get(m, "portfolio_submitted")))
    case _ => NotAnObject(input)
  }

  /** `UploadAttachmentSchema`. */
  function UploadAttachmentIssues(input: Value): seq<Issue>
  {
    match input
    case Obj(m) => EnumField(AttachmentCategories, Get(m, "category")) + NumberMax(Get(m, "current_count"), 10)
    case _ => NotAnObject(input)
  }

  // ------------------------------------------------------------- properties

  /** `LoginSchema` accepts an object exactly when its email is a string of e-mail
      shape and its password a non-empty string. */
  lemma LoginAccepts(m: map<string, Value>, isEmail: string -> bool)
    ensures LoginIssues(Obj(m), isEmail) == [] <==>
              Get(m, "email").Str? && isEmail(Get(m, "email").s) &&
              Get(m, "password").Str? && |Get(m, "password").s| >= 1
  {
    var e, p := Get(m, "email"), Get(m, "password");
    if e.Str? {
      assert Passes(e.s, EmailShape(EmailMessage), isEmail) <==> isEmail(e.s);
    }
    if p.Str? {
      assert Passes(p.s, MinLength(1, PasswordRequiredMessage), isEmail) <==> |p.s| >= 1;
    }
  }

  /** The e-mail check comes first: a malformed e-mail is the reported message
      even when the password is empty too. */
  lemma LoginEmailReportedFirst(m: map<string, Value>, isEmail: string -> bool)
    requires Get(m, "email").Str? && !isEmail(Get(m, "email").s)
    ensures FirstMessage(LoginIssues(Obj(m), isEmail)) == Some(EmailMessage)
  {
    assert !Passes(Get(m, "email").s, EmailShape(EmailMessage), isEmail);
  }

  /** `SignupSchema` accepts an object exactly when its email is a string of e-mail
      shape, its password a string of at least six characters, and its full name and
      course id non-empty strings. */
  lemma SignupAccepts(m: map<string, Value>, isEmail: string -> bool)
    ensures SignupIssues(Obj(m), isEmail) == [] <==>
              Get(m, "email").Str? && isEmail(Get(m, "email").s) &&
              Get(m, "password").Str? && |Get(m, "password").s| >= 6 &&
              Get(m, "full_name").Str? && |Get(m, "full_name").s| >= 1 &&
              Get(m, "course_id").Str? && |Get(m, "course_id").s| >= 1
  {
    var e, p, f, c := Get(m, "email"), Get(m, "password"), Get(m, "full_name"), Get(m, "course_id");
    if e.Str? {
      assert Passes(e.s, EmailShape(EmailMessage), isEmail) <==> isEmail(e.s);
    }
    if p.Str? {
      assert Passes(p.s, MinLength(6, PasswordLengthMessage), isEmail) <==> |p.s| >= 6;
    }
    if f.Str? {
      assert Passes(f.s, MinLength(1, FullNameRequiredMessage), isEmail) <==> |f.s| >= 1;
    }
    if c.Str? {
      assert Passes(c.s, MinLength(1, CourseRequiredMessage), isEmail) <==> |c.s| >= 1;
    }
  }

  /** `UpdateStudentProfileSchema` requires a full name of 1 to 100 characters and a
      course id of 1 to 50; the graduation date may be absent, null or any string. */
  lemma UpdateStudentProfileAccepts(m: map<string, Value>)
    ensures UpdateStudentProfileIssues(Obj(m)) == [] <==>
              Get(m, "full_name").Str? && 1 <= |Get(m, "full_name").s| <= 100 &&
              Get(m, "course_id").Str? && 1 <= |Get(m, "course_id").s| <= 50 &&
              Get(m, "graduation_date") in {Undefined, Null} + (if Get(m, "graduation_date").Str? then {Get(m, "graduation_date")} else {})
  {
    var noEmail := (s: string) => false;
    var f, c := Get(m, "full_name"), Get(m, "course_id");
    if f.Str? {
      assert Passes(f.s, MinLength(1, FullNameRequiredMessage), noEmail) <==> |f.s| >= 1;
      assert Passes(f.s, MaxLength(100, FullNameTooLongMessage), noEmail) <==> |f.s| <= 100;
      assert CheckIssues(f.s, [MinLength(1, FullNameRequiredMessage), MaxLength(100, FullNameTooLongMessage)], noEmail) == [] <==>
             1 <= |f.s| <= 100;
    }
    if c.Str? {
      assert Passes(c.s, MinLength(1, CourseRequiredMessage), noEmail) <==> |c.s| >= 1;
      assert Passes(c.s, MaxLength(50, CourseTooLongMessage), noEmail) <==> |c.s| <= 50;
      assert CheckIssues(c.s, [MinLength(1, CourseRequiredMessage), MaxLength(50, CourseTooLongMessage)], noEmail) == [] <==>
             1 <= |c.s| <= 50;
    }
  }

  /** `CreateApplicationSchema` requires a non-empty company and position; the
      source may be absent, and the application date absent or null. */
  lemma CreateApplicationAccepts(m: map<string, Value>)
    ensures CreateApplicationIssues(Obj(m)) == [] <==>
              Get(m, "company").Str? && |Get(m, "company").s| >= 1 &&
              Get(m, "position").Str? && |Get(m, "position").s| >= 1 &&
              (Get(m, "source") == Undefined || Get(m, "source").Str?) &&
              (Get(m, "application_date") in {Undefined, Null} || Get(m, "application_date").Str?)
  {
    var noEmail := (s: string) => false;
    var c, p := Get(m, "company"), Get(m, "position");
    if c.Str? {
      assert Passes(c.s, MinLength(1, CompanyRequiredMessage), noEmail) <==> |c.s| >= 1;
    }
    if p.Str? {
      assert Passes(p.s, MinLength(1, PositionRequiredMessage), noEmail) <==> |p.s| >= 1;
    }
  }

  /** Every input the create schema accepts, the update schema accepts too,
      because every field the extension adds is optional. */
  lemma CreateAcceptedByUpdate(input: Value)
    requires CreateApplicationIssues(input) == []
    requires input.Obj? ==> "status" !in input.fields && "document_result" !in input.fields &&
                            "resume_created" !in input.fields && "work_history_created" !in input.fields &&
                            "portfolio_submitted" !in input.fields
    ensures UpdateApplicationIssues(input) == []
  {
    var m := input.fields;
    assert Get(m, "status") == Undefined;
    assert Get(m, "document_result") == Undefined;
    assert Get(m, "resume_created") == Undefined;
    assert Get(m, "work_history_created") == Undefined;
    assert Get(m, "portfolio_submitted") == Undefined;
  }

  /** Any issue of the update schema on an object the create schema accepts comes
      from one of the added fields, each of which is checked only when present. */
  lemma UpdateExtendsCreate(m: map<string, Value>)
    ensures CreateApplicationIssues(Obj(m)) == [] ==>
              (UpdateApplicationIssues(Obj(m)) == [] <==>
                (Get(m, "status") == Undefined || EnumField(ApplicationStatuses, Get(m, "status")) == []) &&
                (Get(m, "document_result") == Undefined || EnumField(DocumentResults, Get(m, "document_result")) == []) &&
                (Get(m, "resume_created") == Undefined || Get(m, "resume_created").Bool?) &&
                (Get(m, "work_history_created") == Undefined || Get(m, "work_history_created").Bool?) &&
                (Get(m, "portfolio_submitted") == Undefined || Get(m, "portfolio_submitted").Bool?))
  {
  }

  /** `UploadAttachmentSchema`: the count bound is inclusive (10 passes, 11 does
      not) and the category must be one of the enum's values. */
  lemma UploadAttachmentAccepts(m: map<string, Value>)
    ensures UploadAttachmentIssues(Obj(m)) == [] <==>
              Get(m, "category") in {Str("resume"), Str("cv"), Str("portfolio"), Str("other")} &&
              Get(m, "current_count").Num? && Get(m, "current_count").n <= 10
    ensures Get(m, "category") == Str("cv") && Get(m, "current_count") == Num(10) ==> UploadAttachmentIssues(Obj(m)) == []
    ensures Get(m, "current_count") == Num(11) ==> FirstMessage(UploadAttachmentIssues(Obj(m))).Some?
  {
    AttachmentCategoryExactly(Get(m, "category"));
  }
}
