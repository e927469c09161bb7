/** The student's server actions of src/app/student/dashboard/actions.ts: adding
    and editing an application, and uploading and deleting its attachments. The
    signed-in user, the store's answers, the new row ids and the time-and-random
    part of a stored file name are parameters. */
module StudentActions {
  import opened Js
  import opened Db

  const Unauthorized := "Unauthorized"
  const MissingFileMessage := "ファイルとカテゴリは必須です"
  const TooLargeMessage := "ファイルサイズは5MB以下にしてください"
  const TooManyMessage := "1つの応募につき最大10ファイルまでです"
  const NotOwnedMessage := "応募データが見つかりません"
  const UploadFailedMessage := "アップロードに失敗しました"
  const SaveFailedMessage := "データベースへの保存に失敗しました"
  const NotFoundMessage := "ファイルが見つかりません"
  const RemoveFailedMessage := "ファイルの削除に失敗しました"
  const DeleteFailedMessage := "データの削除に失敗しました"

  /** The largest accepted file, in bytes. */
  const MaxFileSize: nat := 5 * 1024 * 1024

  /** `formData.get(name) || null` for a date column: an absent or empty value is null. */
  function DateOrNull(form: FormData, name: string): (r: Option<string>)
    ensures r.None? <==> OrElse(FormText(form, name), "") == ""
    ensures r.Some? ==> r == FormText(form, name)
  {
    if OrElse(FormText(form, name), "") == "" then None else FormText(form, name)
  }

  /** A check box: true exactly when the form value is the text "on". */
  function Checked(form: FormData, name: string): bool
  {
    FormGet(form, name) == Some(Text("on"))
  }

  /** The row `addApplication` inserts for the caller; the flags and the document
      result it does not send take the store's column defaults, false and null. */
  function NewApplication(user: string, form: FormData): (a: Application)
    ensures a.studentId == user && a.status == Some("応募中")
    ensures a.company == FormText(form, "company") && a.position == FormText(form, "position")
    ensures a.source == FormText(form, "source") && a.applicationDate == DateOrNull(form, "application_date")
    ensures !a.resumeCreated && !a.workHistoryCreated && !a.portfolioSubmitted && !a.hasInterview && !a.hasJobOffer
  {
    Application(user, FormText(form, "company"), FormText(form, "position"), DateOrNull(form, "application_date"),
                FormText(form, "source"), Some("応募中"), None, false, false, false, false, false)
  }

  /** `addApplication`. `freshId` is the id the store gives the new row. */
  method AddApplication(db: Store, user: Option<string>, form: FormData, freshId: string, insert: DbResult)
    returns (out: Outcome<()>)
    requires freshId !in db.applications
    modifies db
    ensures db.attachments == old(db.attachments) && db.profiles == old(db.profiles) &&
            db.students == old(db.students) && db.objects == old(db.objects)
    ensures user.None? ==> out == Throw(Unauthorized) && db.applications == old(db.applications)
    ensures user.Some? && insert.DbError? ==> out == Error(insert.message) && db.applications == old(db.applications)
    ensures user.Some? && insert.Ok? ==>
              out == Success(()) && db.applications == old(db.applications)[freshId := NewApplication(user.value, form)]
  {
    if user.None? {
      return Throw(Unauthorized);
    }
    if insert.DbError? {
      return Error(insert.message);
    }
    db.applications := db.applications[freshId := NewApplication(user.value, form)];
    out := Success(());
  }

  /** The columns `updateApplication` writes; the owner stays. */
  function Edited(a: Application, form: FormData): (r: Application)
    ensures r.studentId == a.studentId
    ensures r.resumeCreated <==> FormGet(form, "resume_created") == Some(Text("on"))
    ensures r.workHistoryCreated <==> FormGet(form, "work_history_created") == Some(Text("on"))
    ensures r.portfolioSubmitted <==> FormGet(form, "portfolio_submitted") == Some(Text("on"))
    ensures r.hasInterview <==> FormGet(form, "has_interview") == Some(Text("on"))
    ensures r.hasJobOffer <==> FormGet(form, "has_job_offer") == Some(Text("on"))
    ensures r.applicationDate == DateOrNull(form, "application_date")
  {
    Application(a.studentId, FormText(form, "company"), FormText(form, "position"), DateOrNull(form, "application_date"),
                FormText(form, "source"), FormText(form, "status"), FormText(form, "document_result"),
                Checked(form, "resume_created"), Checked(form, "work_history_created"),
                Checked(form, "portfolio_submitted"), Checked(form, "has_interview"), Checked(form, "has_job_offer"))
  }

  /** `updateApplication`: the update is filtered on the id and on the caller as
      owner, so another student's row, or a missing one, is left as it was. The form
      is not validated. */
  method UpdateApplication(db: Store, user: Option<string>, id: string, form: FormData, update: DbResult)
    returns (out: Outcome<()>)
    modifies db
    ensures db.attachments == old(db.attachments) && db.profiles == old(db.profiles) &&
            db.students == old(db.students) && db.objects == old(db.objects)
    ensures user.None? ==> out == Throw(Unauthorized) && db.applications == old(db.applications)
    ensures user.Some? && update.DbError? ==> out == Error(update.message) && db.applications == old(db.applications)
    ensures user.Some? && update.Ok? ==>
              out == Success(()) &&
              db.applications == if old(db.Owns(user.value, id)) then old(db.applications)[id := Edited(old(db.applications)[id], form)]
                                 else old(db.applications)
  {
    if user.None? {
      return Throw(Unauthorized);
    }
    if update.DbError? {
      return Error(update.message);
    }
    if db.Owns(user.value, id) {
      db.applications := db.applications[id := Edited(db.applications[id], form)];
    }
    out := Success(());
  }

  /** The rows a caller can change through `updateApplication`: only their own,
      and only the one with the given id. */
  lemma UpdateTouchesOwnRowOnly(apps: map<string, Application>, user: string, id: string, form: FormData, other: string)
    requires other in apps && (other != id || apps[other].studentId != user)
    ensures var after := if id in apps && apps[id].studentId == user then apps[id := Edited(apps[id], form)] else apps;
            other in after && after[other] == apps[other] && after.Keys == apps.Keys
  {
  }

  /** The extension used in the stored name: the text after the last '.', the
      whole name when there is none, and "bin" only when that text is empty. */
  function Extension(fileName: string): (ext: string)
    ensures ext != "" && '.' !in ext
  {
    LastPieceIsSuffix(fileName, '.');
    var piece := LastPiece(fileName, '.');
    if piece == "" then "bin" else piece
  }

  /** The extension in terms of the file name: "bin" for an empty name or one
      ending in '.', the whole name when it has no '.', and otherwise the text after
      the last '.'. */
  lemma ExtensionOf(fileName: string)
    ensures fileName == "" ==> Extension(fileName) == "bin"
    ensures '.' !in fileName && fileName != "" ==> Extension(fileName) == fileName
    ensures fileName != "" && fileName[|fileName| - 1] == '.' ==> Extension(fileName) == "bin"
    ensures '.' in fileName && fileName[|fileName| - 1] != '.' ==>
              var e := Extension(fileName);
              |e| < |fileName| && fileName[|fileName| - |e| - 1] == '.' && fileName[|fileName| - |e|..] == e
  {
    LastPieceIsSuffix(fileName, '.');
  }

  /** Where an upload is stored: `<application id>/<category>/<stamp>.<ext>`, with
      `stamp` the time-and-random part. */
  function StoragePath(applicationId: string, category: string, stamp: string, fileName: string): string
  {
    applicationId + "/" + category + "/" + stamp + "." + Extension(fileName)
  }

  /** The path determines its parts: for ids and categories without '/' and stamps
      without '.', two uploads share a path exactly when they share the application,
      the category, the stamp and the extension. So uploads with different stamps
      never collide, whatever their file names. */
  lemma StoragePathInjective(a1: string, c1: string, s1: string, f1: string,
                             a2: string, c2: string, s2: string, f2: string)
    requires '/' !in a1 && '/' !in a2 && '/' !in c1 && '/' !in c2 && '.' !in s1 && '.' !in s2
    ensures StoragePath(a1, c1, s1, f1) == StoragePath(a2, c2, s2, f2) <==>
              a1 == a2 && c1 == c2 && s1 == s2 && Extension(f1) == Extension(f2)
  {
    var e1, e2 := Extension(f1), Extension(f2);
    if StoragePath(a1, c1, s1, f1) == StoragePath(a2, c2, s2, f2) {
      assert StoragePath(a1, c1, s1, f1) == a1 + "/" + (c1 + "/" + (s1 + "." + e1));
      assert StoragePath(a2, c2, s2, f2) == a2 + "/" + (c2 + "/" + (s2 + "." + e2));
      SplitAtSeparator(a1, a2, c1 + "/" + (s1 + "." + e1), c2 + "/" + (s2 + "." + e2), '/');
      SplitAtSeparator(c1, c2, s1 + "." + e1, s2 + "." + e2, '/');
      SplitAtSeparator(s1, s2, e1, e2, '.');
    }
  }

  /** Text before the first separator is determined by the whole string. */
  lemma SplitAtSeparator(x: string, y: string, r1: string, r2: string, c: char)
    requires c !in x && c !in y && x + [c] + r1 == y + [c] + r2
    ensures x == y && r1 == r2
  {
    FirstSeparator(x, r1, c);
    FirstSeparator(y, r2, c);
    var s := x + [c] + r1;
    assert |x| == |y|;
    assert x == s[..|x|] && r1 == s[|x| + 1..];
  }

  /** The first separator of `x + [c] + r` is the one after `x`. */
  lemma FirstSeparator(x: string, r: string, c: char)
    requires c !in x
    ensures (x + [c] + r)[|x|] == c
    ensures forall i :: 0 <= i < |x| ==> (x + [c] + r)[i] != c
  {
  }

  /** The message of the first check of `uploadAttachment` that fails, in the order
      the source makes them; None when the upload may go ahead. `file` is the form's
      `file` entry and `owned` whether the caller owns the application. */
  function UploadRejection(file: Option<FormValue>, category: Option<string>, count: Option<int>, owned: bool): Option<string>
  {
    if file.None? || file == Some(Text("")) || OrElse(category, "") == "" then Some(MissingFileMessage)
    else if file.value.File? && file.value.size > MaxFileSize then Some(TooLargeMessage)
    else if count.Some? && count.value >= 10 then Some(TooManyMessage)
    else if !owned then Some(NotOwnedMessage)
    else None
  }

  /** An upload goes ahead exactly when a non-empty file entry and a category are
      present, a real file is at most 5 MB, the client's count is below 10 or not a
      number, and the caller owns the application; a missing part is reported before
      size, size before count, and count before ownership. */
  lemma UploadRejectionIff(file: Option<FormValue>, category: Option<string>, count: Option<int>, owned: bool)
    ensures UploadRejection(file, category, count, owned).None? <==>
              file.Some? && file != Some(Text("")) && OrElse(category, "") != "" &&
              (file.value.File? ==> file.value.size <= MaxFileSize) &&
              (count.None? || count.value < 10) && owned
    ensures file.None? ==> UploadRejection(file, category, count, owned) == Some(MissingFileMessage)
    ensures file.Some? && file.value.File? && file.value.size > MaxFileSize && OrElse(category, "") != "" ==>
              UploadRejection(file, category, count, owned) == Some(TooLargeMessage)
    ensures UploadRejection(file, category, count, owned) == Some(NotOwnedMessage) ==> !owned && (count.None? || count.value < 10)
  {
  }

  /** `parseInt(formData.get("current_count") || "0")`: the client's count; absent
      or empty counts as 0, text that is not a number gives None (NaN). */
  function ClientCount(form: FormData): Option<int>
  {
    ParseInt(OrElse(FormText(form, "current_count"), "0"))
  }

  /** `uploadAttachment`. `stamp` is the `<time>_<random>` part of the stored name,
      `freshId` the id of the new row, `select`, `upload` and `insert` the store's
      answers; a failed ownership select reads as a missing application. The
      stored object stays when the row cannot be inserted. A text entry in the `file`
      slot passes the checks (its size is undefined) and throws a TypeError at
      `file.name`. The bucket refuses to overwrite an object that already exists.
      The application row is never changed. */
  method UploadAttachment(db: Store, user: Option<string>, applicationId: string, form: FormData,
                          stamp: string, freshId: string, select: DbResult, upload: DbResult, insert: DbResult)
    returns (out: Outcome<Attachment>)
    requires freshId !in db.attachments
    modifies db
    ensures old(db.RowsBacked() && db.PathsDistinct()) ==> db.RowsBacked() && db.PathsDistinct()
    ensures db.applications == old(db.applications) && db.profiles == old(db.profiles) && db.students == old(db.students)
    ensures user.None? ==> out == Throw(Unauthorized) && db.attachments == old(db.attachments) && db.objects == old(db.objects)
    ensures user.Some? ==>
              var file := FormGet(form, "file");
              var category := FormText(form, "category");
              var rejection := UploadRejection(file, category, ClientCount(form), select.Ok? && old(db.Owns(user.value, applicationId)));
              if rejection.Some? then
                out == Error(rejection.value) && db.attachments == old(db.attachments) && db.objects == old(db.objects)
              else if file.value.Text? then
                out.Throw? && db.attachments == old(db.attachments) && db.objects == old(db.objects)
              else
                var path := StoragePath(applicationId, category.value, stamp, file.value.name);
                var row := Attachment(applicationId, path, file.value.name, category.value, file.value.size);
                if upload.DbError? || path in old(db.objects) then
                  out == Error(UploadFailedMessage) && db.attachments == old(db.attachments) && db.objects == old(db.objects)
                else if insert.DbError? then
                  out == Error(SaveFailedMessage) && db.attachments == old(db.attachments) && db.objects == old(db.objects) + {path}
                else
                  out == Success(row) && db.attachments == old(db.attachments)[freshId := row] && db.objects == old(db.objects) + {path}
  {
    if user.None? {
      return Throw(Unauthorized);
    }
    var file := FormGet(form, "file");
    var category := FormText(form, "category");
    var count := ClientCount(form);

    var rejection := UploadRejection(file, category, count, select.Ok? && db.Owns(user.value, applicationId));
    if rejection.Some? {
      return Error(rejection.value);
    }
    if file.value.Text? {
      return Throw("TypeError: Cannot read properties of undefined (reading 'split')");
    }

    var path := StoragePath(applicationId, category.value, stamp, file.value.name);
    var row := Attachment(applicationId, path, file.value.name, category.value, file.value.size);
    out := StoreAndRecord(db, row, freshId, upload, insert);
  }

  /** The second half of `uploadAttachment`: store the object at the row's path,
      then insert the row; a failed insert leaves the object in the bucket with no
      row. A row is inserted only after its object is stored, so every row keeps its
      own object. */
  method StoreAndRecord(db: Store, row: Attachment, freshId: string, upload: DbResult, insert: DbResult)
    returns (out: Outcome<Attachment>)
    requires freshId !in db.attachments
    modifies db
    ensures old(db.RowsBacked() && db.PathsDistinct()) ==> db.RowsBacked() && db.PathsDistinct()
    ensures db.applications == old(db.applications) && db.profiles == old(db.profiles) && db.students == old(db.students)
    ensures upload.DbError? || row.filePath in old(db.objects) ==>
              out == Error(UploadFailedMessage) && db.attachments == old(db.attachments) && db.objects == old(db.objects)
    ensures upload.Ok? && row.filePath !in old(db.objects) && insert.DbError? ==>
              out == Error(SaveFailedMessage) && db.attachments == old(db.attachments) &&
              db.objects == old(db.objects) + {row.filePath}
    ensures upload.Ok? && row.filePath !in old(db.objects) && insert.Ok? ==>
              out == Success(row) && db.attachments == old(db.attachments)[freshId := row] &&
              db.objects == old(db.objects) + {row.filePath}
  {
    if upload.DbError? || row.filePath in db.objects {
      return Error(UploadFailedMessage);
    }
    db.objects := db.objects + {row.filePath};

    if insert.DbError? {
      return Error(SaveFailedMessage);
    }
    db.attachments := db.attachments[freshId := row];
    out := Success(row);
  }

  /** `deleteAttachment`: the row is looked up by id alone (row-level security is
      what restricts it to the owner), and a failed lookup (`fetch`) reads as a
      missing row; its object is removed first and the row
      afterwards; a failed removal leaves both, a failed row delete leaves the row
      without its object, so every row keeps its own object except in that case.
      The application row is never changed. */
  method DeleteAttachment(db: Store, user: Option<string>, attachmentId: string, fetch: DbResult, remove: DbResult, delete: DbResult)
    returns (out: Outcome<()>)
    modifies db
    ensures old(db.PathsDistinct()) ==> db.PathsDistinct()
    ensures old(db.RowsBacked() && db.PathsDistinct()) && out != Error(DeleteFailedMessage) ==> db.RowsBacked()
    ensures out == Error(DeleteFailedMessage) ==>
              attachmentId in db.attachments && db.attachments[attachmentId].filePath !in db.objects
    ensures db.applications == old(db.applications) && db.profiles == old(db.profiles) && db.students == old(db.students)
    ensures user.None? ==> out == Throw(Unauthorized) && db.attachments == old(db.attachments) && db.objects == old(db.objects)
    ensures user.Some? && (fetch.DbError? || attachmentId !in old(db.attachments)) ==>
              out == Error(NotFoundMessage) && db.attachments == old(db.attachments) && db.objects == old(db.objects)
    ensures user.Some? && fetch.Ok? && attachmentId in old(db.attachments) ==>
              var path := old(db.attachments)[attachmentId].filePath;
              if remove.DbError? then
                out == Error(RemoveFailedMessage) && db.attachments == old(db.attachments) && db.objects == old(db.objects)
              else if delete.DbError? then
                out == Error(DeleteFailedMessage) && db.attachments == old(db.attachments) && db.objects == old(db.objects) - {path}
              else
                out == Success(()) && db.attachments == old(db.attachments) - {attachmentId} && db.objects == old(db.objects) - {path}
  {
    if user.None? {
      return Throw(Unauthorized);
    }
    if fetch.DbError? || attachmentId !in db.attachments {
      return Error(NotFoundMessage);
    }
    var attachment := db.attachments[attachmentId];
    if remove.DbError? {
      return Error(RemoveFailedMessage);
    }
    db.objects := db.objects - {attachment.filePath};
    if delete.DbError? {
      return Error(DeleteFailedMessage);
    }
    db.attachments := db.attachments - {attachmentId};
    out := Success(());
  }
}
