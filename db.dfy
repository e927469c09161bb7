/** The tables and the storage bucket that the server actions read and write, as
    one store whose fields the actions update in place. Rows are keyed by id. */
module Db {
  import opened Js

  /** A row of `applications`. Text columns are null when the form field was absent. */
  datatype Application = Application(
    studentId: string,
    company: Option<string>,
    position: Option<string>,
    applicationDate: Option<string>,
    source: Option<string>,
    status: Option<string>,
    documentResult: Option<string>,
    resumeCreated: bool,
    workHistoryCreated: bool,
    portfolioSubmitted: bool,
    hasInterview: bool,
    hasJobOffer: bool)

  /** The document screening of the application was passed. */
  predicate DocumentPassed(a: Application)
  {
    a.documentResult == Some("通過")
  }

  /** The application ended in a job offer. */
  predicate Offered(a: Application)
  {
    a.status == Some("内定")
  }

  /** A row of `application_attachments`. */
  datatype Attachment = Attachment(applicationId: string, filePath: string, fileName: string, category: string, fileSize: nat)

  /** A row of `profiles`. */
  datatype Profile = Profile(fullName: Option<string>, roleId: Option<string>)

  /** A row of `students`. */
  datatype Student = Student(courseId: Option<string>, graduationDate: Option<string>)

  /** How one call to the store went: fine, or an error carrying the store's message. */
  datatype DbResult = Ok | DbError(message: string)

  /** The store: four tables and the paths of the objects in the
      `application-attachments` bucket. */
  class Store {
    var applications: map<string, Application>
    var attachments: map<string, Attachment>
    var profiles: map<string, Profile>
    var students: map<string, Student>
    var objects: set<string>

    constructor ()
      ensures applications == map[] && attachments == map[] && profiles == map[] && students == map[]
      ensures objects == {}
    {
      applications := map[];
      attachments := map[];
      profiles := map[];
      students := map[];
      objects := {};
    }

    /** Every attachment row points at a stored object. */
    predicate RowsBacked()
      reads this
    {
      forall id :: id in attachments ==> attachments[id].filePath in objects
    }

    /** No two attachment rows share a stored object. */
    predicate PathsDistinct()
      reads this
    {
      forall i, j :: i in attachments && j in attachments && i != j ==> attachments[i].filePath != attachments[j].filePath
    }

    /** Whether the application with that id belongs to that student. */
    predicate Owns(student: string, applicationId: string)
      reads this
    {
      applicationId in applications && applications[applicationId].studentId == student
    }
  }
}
