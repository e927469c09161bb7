/** The administrator's server actions of src/app/admin/dashboard/actions.ts. Neither
    action looks up the caller or checks a role. */
module AdminActions {
  import opened Js
  import opened Db

  /** The profile after `updateStudentProfile`'s first update. */
  function Renamed(p: Profile, form: FormData): (r: Profile)
    ensures r.roleId == p.roleId && r.fullName == FormText(form, "full_name")
  {
    p.(fullName := FormText(form, "full_name"))
  }

  /** The student row after the second update: an empty graduation date is stored as null. */
  function Reassigned(s: Student, form: FormData): (r: Student)
    ensures r.courseId == FormText(form, "course_id")
    ensures r.graduationDate.None? <==> OrElse(FormText(form, "graduation_date"), "") == ""
    ensures r.graduationDate.Some? ==> r.graduationDate == FormText(form, "graduation_date")
  {
    Student(FormText(form, "course_id"),
            if OrElse(FormText(form, "graduation_date"), "") == "" then None else FormText(form, "graduation_date"))
  }

  /** An update keyed by id: it changes the row with that id, when there is one. */
  function UpdateWhere<T>(table: map<string, T>, id: string, f: T -> T): (r: map<string, T>)
    ensures r.Keys == table.Keys
    ensures forall k :: k in table && k != id ==> r[k] == table[k]
    ensures id in table ==> r[id] == f(table[id])
  {
    if id in table then table[id := f(table[id])] else table
  }

  /** `updateStudentProfile`: the profile's name is written first; when that fails its
      message is returned and the student row is not touched; otherwise the course and
      graduation date are written. */
  method UpdateStudentProfile(db: Store, studentId: string, form: FormData, profileUpdate: DbResult, studentUpdate: DbResult)
    returns (out: Outcome<()>)
    modifies db
    ensures db.applications == old(db.applications) && db.attachments == old(db.attachments) && db.objects == old(db.objects)
    ensures profileUpdate.DbError? ==>
              out == Error(profileUpdate.message) && db.profiles == old(db.profiles) && db.students == old(db.students)
    ensures profileUpdate.Ok? ==> db.profiles == UpdateWhere(old(db.profiles), studentId, p => Renamed(p, form))
    ensures profileUpdate.Ok? && studentUpdate.DbError? ==>
              out == Error(studentUpdate.message) && db.students == old(db.students)
    ensures profileUpdate.Ok? && studentUpdate.Ok? ==>
              out == Success(()) && db.students == UpdateWhere(old(db.students), studentId, s => Reassigned(s, form))
  {
    if profileUpdate.DbError? {
      return Error(profileUpdate.message);
    }
    db.profiles := UpdateWhere(db.profiles, studentId, p => Renamed(p, form));
    if studentUpdate.DbError? {
      return Error(studentUpdate.message);
    }
    db.students := UpdateWhere(db.students, studentId, s => Reassigned(s, form));
    out := Success(());
  }

  /** `deleteStudent`: only the profile row goes; whatever hangs off it is left to
      the store's cascading deletes, which are not part of this model. */
  method DeleteStudent(db: Store, studentId: string, delete: DbResult) returns (out: Outcome<()>)
    modifies db
    ensures db.applications == old(db.applications) && db.attachments == old(db.attachments) &&
            db.students == old(db.students) && db.objects == old(db.objects)
    ensures delete.DbError? ==> out == Error(delete.message) && db.profiles == old(db.profiles)
    ensures delete.Ok? ==> out == Success(()) && db.profiles == old(db.profiles) - {studentId}
  {
    if delete.DbError? {
      return Error(delete.message);
    }
    db.profiles := db.profiles - {studentId};
    out := Success(());
  }
}
